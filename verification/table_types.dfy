/** Value types of the homogeneous table backend: element type tags, data
    layout, feature and table metadata, memory blocks, the source arrays the
    adopt constructor inspects, and the ownership state of a table's buffer. */
module TableTypes {

  /** Largest value of std::int64_t, the integer type of every count. */
  const Int64Max: int := 0x7FFF_FFFF_FFFF_FFFF

  function Abs(x: int): nat {
    if x < 0 then -x else x
  }

  /** C++ integer division, which truncates toward zero (Dafny's `/` is
      Euclidean). The contract is the defining property of truncation: the
      remainder `a - q * b` is smaller than `b` in magnitude and never has the
      opposite sign of `a`. */
  function TruncDiv(a: int, b: int): (q: int)
    requires b != 0
    ensures Abs(q * b) <= Abs(a) < Abs(q * b) + Abs(b)
    ensures a >= 0 ==> q * b >= 0
    ensures a <= 0 ==> q * b <= 0
  {
    var m: int := Abs(a) / Abs(b);
    var q := if (a >= 0) == (b > 0) then m else -m;
    TruncDivSign(a, b, m, q);
    q
  }

  /** The sign and magnitude facts behind TruncDiv's contract. */
  lemma TruncDivSign(a: int, b: int, m: int, q: int)
    requires b != 0 && m == Abs(a) / Abs(b)
    requires q == if (a >= 0) == (b > 0) then m else -m
    ensures Abs(q * b) == m * Abs(b)
    ensures m * Abs(b) <= Abs(a) < m * Abs(b) + Abs(b)
    ensures a >= 0 ==> q * b >= 0
    ensures a <= 0 ==> q * b <= 0
  {
  }

  /** Euclidean division gives the unique quotient and remainder. */
  lemma DivModUnique(k: int, p: int, q: int, r: int)
    requires p > 0 && 0 <= r < p && k == q * p + r
    ensures k / p == q && k % p == r
  {
    var q0 := k / p;
    var r0 := k % p;
    assert k == q0 * p + r0;
    var d := q - q0;
    MulDistributes(q, q0, p);
    assert d * p == r0 - r;
    if d > 0 {
      MulAtLeast(d, p);
    } else if d < 0 {
      MulAtLeast(-d, p);
    }
  }

  lemma MulDistributes(x: int, y: int, p: int)
    ensures (x - y) * p == x * p - y * p
  {
  }

  lemma MulAtLeast(d: int, p: int)
    requires d >= 1 && p > 0
    ensures d * p >= p
  {
  }

  /** The element type a table was built with (`make_data_type<DataType>()`).
      Only its tag and size matter to the backend. */
  datatype DataType =
    | Int8 | Int16 | Int32 | Int64
    | UInt8 | UInt16 | UInt32 | UInt64
    | Float32 | Float64

  /** `sizeof(DataType)` in bytes. */
  function SizeOf(dt: DataType): nat {
    match dt
    case Int8 => 1
    case UInt8 => 1
    case Int16 => 2
    case UInt16 => 2
    case Int32 => 4
    case UInt32 => 4
    case Float32 => 4
    case Int64 => 8
    case UInt64 => 8
    case Float64 => 8
  }

  /** Physical order of the elements. */
  datatype DataLayout = RowMajor | ColumnMajor

  /** Per-feature type information; this backend uses one for all columns. */
  datatype FeatureInfo = FeatureInfo(dtype: DataType)

  datatype TableMetadata = TableMetadata(columnCount: int, feature: FeatureInfo, layout: DataLayout)

  /** A contiguous memory region: the address a pointer to it holds, and the
      elements stored there. Two blocks with the same address are the same
      memory, so "no copy was made" is "the address is the caller's". */
  datatype Block<E> = Block(address: nat, cells: seq<E>)

  /** `array<DataType>`: the memory it refers to and the two flags the adopt
      constructor inspects. */
  datatype SourceArray<E> = SourceArray(block: Block<E>, isDataOwner: bool, hasMutableData: bool)
  {
    /** `get_size()`: the element count. */
    function Size(): nat {
      |block.cells|
    }
  }

  /** What destroying an owning buffer does: free a block the table allocated
      itself, or reset the copy of the source array that the release action
      captured (which drops the table's share of the source's memory). */
  datatype Release<E> = Deallocate | ResetRetainedOwner(owner: SourceArray<E>)

  /** Ownership state of a table's byte buffer: exactly one of an owner with a
      release action, a non-owning mutable view, or a non-owning read-only view. */
  datatype Ownership<E> = Owning(release: Release<E>) | ViewMutable | ViewReadOnly

  /** The table's `array<byte_t>`: the memory it refers to, its length in
      bytes, and how it holds that memory. */
  datatype ByteBuffer<E> = ByteBuffer(block: Block<E>, byteCount: int, mode: Ownership<E>)

  /** `homogen_table_impl`: shape, feature info, metadata and buffer. */
  datatype HomogenTable<E> = HomogenTable(
    rowCount: int,
    columnCount: int,
    finfo: FeatureInfo,
    meta: TableMetadata,
    data: ByteBuffer<E>)

  /** The `std::runtime_error` the adopt constructor throws when the array's
      element count is not a whole number of rows. */
  datatype ConstructionError = SizeNotMultipleOfColumnCount(size: int, columnCount: int)

  datatype Result<T, Err> = Success(value: T) | Failure(error: Err)
}
