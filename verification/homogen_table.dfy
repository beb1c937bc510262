/** The homogeneous table backend: a dense table whose shape is fixed when it
    is built, coupling row and column counts, metadata and one byte buffer
    that is either owned or a non-owning view. Three constructors build it
    (borrowed pointer, fill value, adopt an array); four getters read it. */
module HomogenTableImpl {
  import opened TableTypes
  import RowMajorAddressing

  /** The table invariant every constructor establishes: the metadata agrees
      with the shape, the shape accounts for exactly the elements behind the
      buffer, and the byte length is that element count times the element size. */
  predicate Valid<E>(t: HomogenTable<E>) {
    && t.meta.columnCount == t.columnCount
    && t.meta.feature == t.finfo
    && t.rowCount * t.columnCount == |t.data.block.cells|
    && t.data.byteCount == |t.data.block.cells| * SizeOf(t.finfo.dtype)
  }

  // ---------------------------------------------------------------- getters

  /** `get_row_count()`: rows of the metadata's column count make up the buffer. */
  function RowCount<E>(t: HomogenTable<E>): (n: int)
    requires Valid(t)
    ensures n * t.meta.columnCount == |t.data.block.cells|
  {
    t.rowCount
  }

  /** `get_column_count()`: the count the metadata records, and a whole row's width. */
  function ColumnCount<E>(t: HomogenTable<E>): (p: int)
    requires Valid(t)
    ensures p == t.meta.columnCount
    ensures t.rowCount * p == |t.data.block.cells|
  {
    t.columnCount
  }

  /** `get_metadata()`: the stored metadata, which agrees with the stored
      column count and feature info. */
  function Metadata<E>(t: HomogenTable<E>): (m: TableMetadata)
    requires Valid(t)
    ensures m.columnCount == t.columnCount
    ensures m.feature == t.finfo
  {
    t.meta
  }

  /** `get_data()`: the memory behind the buffer, whose size in bytes is the
      buffer's recorded length. */
  function Data<E>(t: HomogenTable<E>): (d: Block<E>)
    requires Valid(t)
    ensures |d.cells| * SizeOf(t.meta.feature.dtype) == t.data.byteCount
  {
    t.data.block
  }

  // ------------------------------------------------ borrowed-pointer path

  /** Constructor from `const DataType*`: wraps the caller's memory as a
      read-only, non-owning view of its first n * p elements. Nothing is
      allocated or copied: the table's data pointer is the caller's. */
  function FromPointer<E>(n: int, p: int, ptr: Block<E>, dt: DataType, layout: DataLayout): (t: HomogenTable<E>)
    requires 0 <= n * p
    requires n * p * SizeOf(dt) <= Int64Max
    requires n * p <= |ptr.cells|
    ensures Valid(t)
    ensures RowCount(t) == n && ColumnCount(t) == p
    ensures Metadata(t) == TableMetadata(p, FeatureInfo(dt), layout)
    ensures t.data.mode == ViewReadOnly
    ensures t.data.byteCount == n * p * SizeOf(dt)
    ensures Data(t).address == ptr.address
    ensures Data(t).cells == ptr.cells[..n * p]
  {
    var finfo := FeatureInfo(dt);
    var view := Block(ptr.address, ptr.cells[..n * p]);
    HomogenTable(n, p, finfo, TableMetadata(p, finfo, layout),
                 ByteBuffer(view, n * p * SizeOf(dt), ViewReadOnly))
  }

  // ------------------------------------------------------ fill-value path

  /** The result of `fill_data(data, size, value)`: the same memory, with the
      first `size` elements set to `value` and the others untouched. */
  function Fill<E>(data: Block<E>, size: int, value: E): (r: Block<E>)
    requires size <= |data.cells|
    ensures r.address == data.address
    ensures |r.cells| == |data.cells|
    ensures forall k :: 0 <= k < size ==> r.cells[k] == value
    ensures forall k :: 0 <= k < |r.cells| && size <= k ==> r.cells[k] == data.cells[k]
  {
    Block(data.address, seq(|data.cells|, k requires 0 <= k < |data.cells| =>
                                            if k < size then value else data.cells[k]))
  }

  /** `fill_data`: writes `value` to indices 0 .. size-1 in a loop and returns
      the pointer it was given. */
  method FillData<E>(data: Block<E>, size: int, value: E) returns (r: Block<E>)
    requires size <= |data.cells|
    ensures r == Fill(data, size, value)
  {
    var cells := data.cells;
    var i := 0;
    while i < size
      invariant 0 <= i && (i <= size || i == 0)
      invariant |cells| == |data.cells|
      invariant forall k :: 0 <= k < i ==> cells[k] == value
      invariant forall k :: i <= k < |cells| ==> cells[k] == data.cells[k]
    {
      cells := cells[i := value];
      i := i + 1;
    }
    r := Block(data.address, cells);
  }

  /** The fill-value constructor as the code writes it: `fill_data` over a
      fresh `new DataType[N*p]` block, handed to the borrowed-pointer
      constructor. The result is a read-only view that does not own the block
      it alone refers to, so nothing ever frees it. */
  function FromFillAsWritten<E>(n: int, p: int, value: E, dt: DataType, layout: DataLayout,
                                alloc: Block<E>): (t: HomogenTable<E>)
    requires 0 <= n * p
    requires n * p * SizeOf(dt) <= Int64Max
    requires |alloc.cells| == n * p
    ensures Valid(t)
    ensures RowCount(t) == n && ColumnCount(t) == p
    ensures Metadata(t) == TableMetadata(p, FeatureInfo(dt), layout)
    ensures Data(t).address == alloc.address
    ensures |Data(t).cells| == n * p
    ensures forall k :: 0 <= k < |Data(t).cells| ==> Data(t).cells[k] == value
    ensures t.data.mode == ViewReadOnly
  {
    FromPointer(n, p, Fill(alloc, n * p, value), dt, layout)
  }

  /** The fill-value constructor as intended: the same table, but owning the
      block it allocated, released by plain deallocation. */
  function FromFill<E>(n: int, p: int, value: E, dt: DataType, layout: DataLayout,
                       alloc: Block<E>): (t: HomogenTable<E>)
    requires 0 <= n * p
    requires n * p * SizeOf(dt) <= Int64Max
    requires |alloc.cells| == n * p
    ensures Valid(t)
    ensures RowCount(t) == n && ColumnCount(t) == p
    ensures Metadata(t) == TableMetadata(p, FeatureInfo(dt), layout)
    ensures t.data.byteCount == n * p * SizeOf(dt)
    ensures Data(t).address == alloc.address
    ensures |Data(t).cells| == n * p
    ensures forall k :: 0 <= k < |Data(t).cells| ==> Data(t).cells[k] == value
    ensures t.data.mode == Owning(Deallocate)
  {
    var v := FromPointer(n, p, Fill(alloc, n * p, value), dt, layout);
    v.(data := v.data.(mode := Owning(Deallocate)))
  }

  // ---------------------------------------------------------- adopt path

  /** How the adopt constructor holds the source array's memory. An owning,
      mutable source is co-owned: the release action keeps a copy of the
      source array and resets it. A mutable non-owner gives a mutable view.
      Everything else, including the owning read-only combination the code
      calls impossible for now, gives a read-only view. */
  function DecideOwnership<E>(a: SourceArray<E>): (m: Ownership<E>)
    ensures m.Owning? <==> a.isDataOwner && a.hasMutableData
    ensures m.ViewMutable? <==> !a.isDataOwner && a.hasMutableData
    ensures m.ViewReadOnly? <==> !a.hasMutableData
    ensures m.Owning? ==> m.release == ResetRetainedOwner(a)
  {
    if a.isDataOwner && a.hasMutableData then
      Owning(ResetRetainedOwner(a))
    else if a.hasMutableData then
      ViewMutable
    else
      ViewReadOnly
  }

  /** Constructor from `array<DataType>` with p columns: the row count is
      `get_size() / p` (truncating), and construction fails unless that many
      rows hold every element. The table never copies: its data pointer is the
      array's. The code divides by p unguarded, so p == 0 is excluded; a
      negative p is not rejected by the code and is not here either. */
  function FromArray<E>(p: int, a: SourceArray<E>, dt: DataType, layout: DataLayout)
    : (r: Result<HomogenTable<E>, ConstructionError>)
    requires p != 0
    requires a.Size() * SizeOf(dt) <= Int64Max
    ensures r.Failure? <==> a.Size() % Abs(p) != 0
    ensures r.Failure? ==> r.error == SizeNotMultipleOfColumnCount(a.Size(), p)
    ensures r.Success? ==>
              && Valid(r.value)
              && ColumnCount(r.value) == p
              && RowCount(r.value) == TruncDiv(a.Size(), p)
              && RowCount(r.value) * ColumnCount(r.value) == a.Size()
              && Metadata(r.value) == TableMetadata(p, FeatureInfo(dt), layout)
              && r.value.data.byteCount == a.Size() * SizeOf(dt)
              && r.value.data.mode == DecideOwnership(a)
              && Data(r.value) == a.block
  {
    var rows := TruncDiv(a.Size(), p);
    ExactRowsIffMultiple(a.Size(), p);
    if rows * p != a.Size() then
      Failure(SizeNotMultipleOfColumnCount(a.Size(), p))
    else
      var finfo := FeatureInfo(dt);
      Success(HomogenTable(rows, p, finfo, TableMetadata(p, finfo, layout),
                           ByteBuffer(a.block, a.Size() * SizeOf(dt), DecideOwnership(a))))
  }

  /** The size check of the adopt path is a divisibility test: truncating
      division by p is exact exactly when p divides the size. */
  lemma ExactRowsIffMultiple(size: nat, p: int)
    requires p != 0
    ensures TruncDiv(size, p) * p == size <==> size % Abs(p) == 0
  {
  }

  // ------------------------------------------------------------- lemmas

  /** The row count the adopt path derives is the only one that fits: any n
      with n rows of p columns holding the array's elements is that row count. */
  lemma AdoptRowCountIsUnique<E>(p: int, a: SourceArray<E>, dt: DataType, layout: DataLayout, n: int)
    requires p != 0
    requires a.Size() * SizeOf(dt) <= Int64Max
    requires n * p == a.Size()
    ensures FromArray(p, a, dt, layout).Success?
    ensures RowCount(FromArray(p, a, dt, layout).value) == n
  {
    var r := FromArray(p, a, dt, layout);
    assert a.Size() % Abs(p) == 0 by {
      MultipleHasNoRemainder(n, p);
    }
    var rows := r.value.rowCount;
    assert rows * p == n * p;
    MulCancel(rows, n, p);
  }

  lemma MultipleHasNoRemainder(n: int, p: int)
    requires p != 0 && n * p >= 0
    ensures (n * p) % Abs(p) == 0
  {
    if p > 0 {
      assert n * p == n * Abs(p) + 0;
      DivModUnique(n * p, Abs(p), n, 0);
    } else {
      assert n * p == (-n) * Abs(p) + 0;
      DivModUnique(n * p, Abs(p), -n, 0);
    }
  }

  lemma MulCancel(x: int, y: int, p: int)
    requires p != 0 && x * p == y * p
    ensures x == y
  {
  }

  /** Adopting a read-only array is the borrowed-pointer constructor on the
      array's memory: same shape, metadata, byte length, pointer and mode. */
  lemma AdoptReadOnlyIsBorrowedPointer<E>(n: int, p: int, a: SourceArray<E>, dt: DataType, layout: DataLayout)
    requires p != 0 && a.Size() == n * p
    requires a.Size() * SizeOf(dt) <= Int64Max
    requires !a.hasMutableData
    ensures FromArray(p, a, dt, layout) == Success(FromPointer(n, p, a.block, dt, layout))
  {
    AdoptRowCountIsUnique(p, a, dt, layout, n);
    assert a.block.cells[..n * p] == a.block.cells;
  }

  /** Adopting a mutable array that does not own its memory differs from the
      borrowed-pointer constructor on that memory only in allowing writes. */
  lemma AdoptMutableViewIsWritablePointer<E>(n: int, p: int, a: SourceArray<E>, dt: DataType, layout: DataLayout)
    requires p != 0 && a.Size() == n * p
    requires a.Size() * SizeOf(dt) <= Int64Max
    requires a.hasMutableData && !a.isDataOwner
    ensures FromArray(p, a, dt, layout).Success?
    ensures var v := FromPointer(n, p, a.block, dt, layout);
            FromArray(p, a, dt, layout).value == v.(data := v.data.(mode := ViewMutable))
  {
    AdoptRowCountIsUnique(p, a, dt, layout, n);
    assert a.block.cells[..n * p] == a.block.cells;
  }

  /** Adopting an owning, mutable array keeps the table's memory reachable
      after the caller drops the array: the release action retains a copy of
      the array that refers to the very block the table reads. */
  lemma AdoptOwnerIsCoOwned<E>(p: int, a: SourceArray<E>, dt: DataType, layout: DataLayout)
    requires p != 0
    requires a.Size() * SizeOf(dt) <= Int64Max
    requires a.isDataOwner && a.hasMutableData
    requires FromArray(p, a, dt, layout).Success?
    ensures var t := FromArray(p, a, dt, layout).value;
            t.data.mode.Owning? && t.data.mode.release.ResetRetainedOwner? &&
            t.data.mode.release.owner.block == Data(t)
  {
  }

  /** The two fill constructors build the same table; only the ownership of
      the freshly allocated block differs. */
  lemma FillPathsDifferOnlyInOwnership<E>(n: int, p: int, value: E, dt: DataType, layout: DataLayout, alloc: Block<E>)
    requires 0 <= n * p
    requires n * p * SizeOf(dt) <= Int64Max
    requires |alloc.cells| == n * p
    ensures var w := FromFillAsWritten(n, p, value, dt, layout, alloc);
            FromFill(n, p, value, dt, layout, alloc) == w.(data := w.data.(mode := Owning(Deallocate)))
  {
  }

  /** `homogen_table_impl(5, 3, 0, layout)` as coded: 15 `int` elements, all 0,
      held by a read-only view that does not own the block it was given. */
  lemma FillExample(alloc: Block<int>)
    requires |alloc.cells| == 15
    ensures var t := FromFillAsWritten(5, 3, 0, Int32, RowMajor, alloc);
            RowCount(t) == 5 && ColumnCount(t) == 3 && Data(t).cells == seq(15, _ => 0) &&
            t.data.mode == ViewReadOnly
  {
  }

  /** The borrowed-pointer constructor does not check the signs of N and p,
      only their product matters: N = p = -1 views one element as a table of
      -1 rows and -1 columns. */
  lemma PointerAcceptsNegativeShape(ptr: Block<int>)
    requires |ptr.cells| >= 1
    ensures var t := FromPointer(-1, -1, ptr, Int32, RowMajor);
            RowCount(t) == -1 && ColumnCount(t) == -1 && |Data(t).cells| == 1
  {
  }

  /** The code does not reject a negative column count: six elements adopted
      with p = -3 give a table of -2 rows and -3 columns. */
  lemma AdoptAcceptsNegativeColumnCount(a: SourceArray<int>)
    requires a.Size() == 6
    ensures var r := FromArray(-3, a, Int32, RowMajor);
            r.Success? && ColumnCount(r.value) == -3 && RowCount(r.value) == -2
  {
  }

  /** Row-major addressing stays inside a valid table's buffer: the cell at
      row i, column j sits at an index below the element count. */
  lemma CellOffsetInBuffer<E>(t: HomogenTable<E>, i: int, j: int)
    requires Valid(t)
    requires 0 <= i < RowCount(t) && 0 <= j < ColumnCount(t)
    ensures RowMajorAddressing.Offset(i, j, RowCount(t), ColumnCount(t)) < |Data(t).cells|
  {
  }

  /** Conversely, every element of a valid table with a positive column count
      is the cell at row `k / p`, column `k % p`, and that cell is in range. */
  lemma BufferIndexIsCell<E>(t: HomogenTable<E>, k: int)
    requires Valid(t) && ColumnCount(t) > 0
    requires 0 <= k < |Data(t).cells|
    ensures 0 <= k / ColumnCount(t) < RowCount(t)
    ensures 0 <= k % ColumnCount(t) < ColumnCount(t)
    ensures RowMajorAddressing.Offset(k / ColumnCount(t), k % ColumnCount(t), RowCount(t), ColumnCount(t)) == k
  {
    RowMajorAddressing.OffsetOnto(k, RowCount(t), ColumnCount(t));
  }
}
