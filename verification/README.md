# Homogeneous table backend, modelled in Dafny

This project models `dal::backend::homogen_table_impl` from oneDAL. It is the
storage behind a dense two-dimensional table with one element type. A table
couples a row count, a column count, metadata (column count, feature type,
layout) and one byte buffer. The buffer either owns its memory or is a
non-owning view of someone else's. The shape is fixed when the table is built.

There are three ways to build a table, and four getters read one:

- **Borrowed pointer** (`FromPointer`): wraps the caller's `const DataType*` as a
  read-only, non-owning view of `N * p` elements. Nothing is allocated or copied.
- **Fill value** (`FromFillAsWritten`, `FromFill`): `fill_data` writes one value
  into a freshly allocated block of `N * p` elements (`FillData`, specified by
  `Fill`).
- **Adopt an array** (`FromArray`): the row count is `get_size() / p`, using
  C++ truncating division (`TruncDiv`). The constructor fails with a
  construction error unless that many rows hold every element.
  `DecideOwnership` then picks one of three ownership modes from the array's
  `is_data_owner` and `has_mutable_data` flags.
- **Getters** (`RowCount`, `ColumnCount`, `Metadata`, `Data`): each returns a
  stored field. They are pure functions, so they change nothing. Their
  contracts state what the table invariant `Valid` guarantees about the field
  they return.

Every constructor establishes `Valid`:
- the metadata agrees with the shape;
- rows × columns equals the number of elements behind the buffer;
- the byte length equals that element count times `sizeof(DataType)`.

Memory is modelled as `Block(address, cells)`. "No copy" means that the
table's block has the caller's address.

The files are:
- `table_types.dfy`: the data model and truncating division.
- `homogen_table.dfy`: the constructors, the getters and the lemmas.
- `row_major_addressing.dfy`: the row-major index `i * p + j`.

Where the code's behaviour is surprising, the model follows the code:
- The fill-value constructor does not own its buffer (see Findings).
- A negative column count is accepted by the adopt constructor. For example,
  6 elements with `p = -3` give -2 rows (`AdoptAcceptsNegativeColumnCount`),
  although a negative column count makes no sense for a table.
- The borrowed-pointer and fill constructors check neither N nor p, only their
  product is used: N = p = -1 gives a table of -1 rows and -1 columns over one
  element (`PointerAcceptsNegativeShape`).
- The owning but read-only array combination, which the code calls impossible
  for now, is adopted as a read-only view rather than rejected.
- The adopt error message says "power of column count". The test it reports
  on is divisibility, and that test is what is modelled.

## Model

| member | source | states |
|---|---|---|
| HomogenTableImpl.FromPointer | cpp/oneapi/dal/data/backend/homogen_table_impl.hpp:26-34 | The table satisfies the invariant, reports N rows, p columns and metadata `{p, feature(DataType), layout}`, and is a read-only non-owning view of exactly `N*p*sizeof` bytes at the caller's address (no allocation, no copy) |
| HomogenTableImpl.Fill | cpp/oneapi/dal/data/backend/homogen_table_impl.hpp:97-103 | Filling keeps the address and length, sets indices `[0, size)` to the value and leaves every other index untouched |
| HomogenTableImpl.FillData | cpp/oneapi/dal/data/backend/homogen_table_impl.hpp:96-103 | The loop returns the pointer it received with exactly the filled contents; its invariant is that all indices below `i` hold the value and the rest are unchanged |
| HomogenTableImpl.FromFillAsWritten | cpp/oneapi/dal/data/backend/homogen_table_impl.hpp:36-38 | As coded, the fill constructor yields a valid N-by-p table whose every element is the value, with metadata from p and layout, at the fresh block's address, held as a read-only view that does not own it |
| HomogenTableImpl.FromFill | cpp/oneapi/dal/data/backend/homogen_table_impl.hpp:36-38 | The intended fill constructor: N rows, p columns, metadata from p and layout, `N*p` elements all equal to the value, `N*p*sizeof` bytes, owned and released by deallocation |
| HomogenTableImpl.FillPathsDifferOnlyInOwnership | cpp/oneapi/dal/data/backend/homogen_table_impl.hpp:36-38 | The coded and the intended fill constructors agree in everything except the buffer's ownership mode |
| HomogenTableImpl.FillExample | cpp/oneapi/dal/data/backend/homogen_table_impl.hpp:36-38 | As coded, a 5-by-3 `int` table filled with 0 reports 5 rows, 3 columns and fifteen zeros, held by a read-only view that does not own its block |
| HomogenTableImpl.PointerAcceptsNegativeShape | cpp/oneapi/dal/data/backend/homogen_table_impl.hpp:27-33 | With N = p = -1 the borrowed-pointer constructor builds a table of -1 rows and -1 columns over one element, since only N*p sizes the view |
| HomogenTableImpl.DecideOwnership | cpp/oneapi/dal/data/backend/homogen_table_impl.hpp:52-64 | The three-way decision, each case as an if-and-only-if: owner and mutable gives an owning buffer whose release resets a retained copy of the source, mutable non-owner gives a mutable view, not mutable gives a read-only view |
| HomogenTableImpl.FromArray | cpp/oneapi/dal/data/backend/homogen_table_impl.hpp:40-65 | Fails with the size error exactly when the size is not a multiple of p. On success the table is valid, has `size / p` rows (truncating) and p columns, rows times columns equals the size, the metadata comes from p and layout, the byte length is `size*sizeof`, the mode is the ownership decision, and the memory is the array's own |
| HomogenTableImpl.ExactRowsIffMultiple | cpp/oneapi/dal/data/backend/homogen_table_impl.hpp:42-49 | The check `row_count * p != size` is equivalent to "p does not divide size" |
| HomogenTableImpl.AdoptRowCountIsUnique | cpp/oneapi/dal/data/backend/homogen_table_impl.hpp:42-49 | Whenever n rows of p columns hold the array exactly, adoption succeeds and its row count is that n |
| HomogenTableImpl.AdoptReadOnlyIsBorrowedPointer | cpp/oneapi/dal/data/backend/homogen_table_impl.hpp:59-64 | Adopting a read-only array of `n*p` elements builds the same table as the borrowed-pointer constructor over the array's memory |
| HomogenTableImpl.AdoptMutableViewIsWritablePointer | cpp/oneapi/dal/data/backend/homogen_table_impl.hpp:56-58 | Adopting a mutable non-owning array of `n*p` elements builds the borrowed-pointer table over the same memory, except that the view is mutable |
| HomogenTableImpl.AdoptOwnerIsCoOwned | cpp/oneapi/dal/data/backend/homogen_table_impl.hpp:52-55 | Adopting an owning mutable array gives an owning buffer whose release action retains a copy of the array, so the release action holds the very memory the table reads |
| HomogenTableImpl.AdoptAcceptsNegativeColumnCount | cpp/oneapi/dal/data/backend/homogen_table_impl.hpp:41-49 | Six elements adopted with p = -3 succeed, with -3 columns and -2 rows, because the code does not guard against a negative p |
| HomogenTableImpl.RowCount | cpp/oneapi/dal/data/backend/homogen_table_impl.hpp:71-73 | The row count times the metadata's column count is the number of elements behind the buffer |
| HomogenTableImpl.ColumnCount | cpp/oneapi/dal/data/backend/homogen_table_impl.hpp:67-69 | The column count is the one the metadata records, and the row count times it is the element count |
| HomogenTableImpl.Metadata | cpp/oneapi/dal/data/backend/homogen_table_impl.hpp:75-77 | The metadata returned agrees with the stored column count and feature info |
| HomogenTableImpl.Data | cpp/oneapi/dal/data/backend/homogen_table_impl.hpp:79-81 | The memory returned spans exactly the buffer's recorded byte length |
| HomogenTableImpl.CellOffsetInBuffer | cpp/oneapi/dal/data/backend/homogen_table_impl.hpp:67-73 | In a valid table, the row-major index of every cell inside the reported rows and columns lies inside the table's buffer |
| HomogenTableImpl.BufferIndexIsCell | cpp/oneapi/dal/data/backend/homogen_table_impl.hpp:67-73 | Conversely, with a positive column count every buffer index is the row-major index of a cell inside the reported rows and columns |
| TableTypes.TruncDiv | cpp/oneapi/dal/data/backend/homogen_table_impl.hpp:42 | `data.get_size() / p` truncates toward zero: the remainder is smaller than p in magnitude and never has the opposite sign of the dividend |
| RowMajorAddressing.Offset | examples/oneapi/cpp/source/pca/pca_cor_dense_batch.cpp:33 | The index `i * p + j` of a cell lies below `n * p`, and its quotient and remainder by p are the row and the column |
| RowMajorAddressing.OffsetOnto | examples/oneapi/cpp/source/pca/pca_cor_dense_batch.cpp:33 | Every index below `n * p` is the offset of the cell at row `k / p`, column `k % p` |
| RowMajorAddressing.OffsetInjective | examples/oneapi/cpp/source/pca/pca_cor_dense_batch.cpp:33 | Distinct cells have distinct offsets |

## Left out

- `pull_rows`, `push_back_rows`, `pull_column`, `push_back_column`: only their declarations are part of this model (homogen_table_impl.hpp:83-93). Their bodies are not, so bounds, mutability errors and element conversion are not modelled. Column-major addressing is not modelled for the same reason.
- Element type conversion and floating-point values: elements are a type parameter `E`, and `DataType` is a tag that carries only its size.
- Memory lifetime: ownership is a tag (`Owning` with its release action, `ViewMutable`, `ViewReadOnly`). The reference counting that makes the release happen exactly once is not modelled, and neither is what `array::reset` does when the release runs.
- Allocation: the block that `new DataType[N*p]` returns is a parameter of the fill constructors. Its address and initial contents are arbitrary. Allocation failure, which aborts, is not modelled.
- `table_metadata`, `feature_info`, `array` and `make_data_type` are not part of this model beyond the fields the constructors set and read.
- HomogenTableImpl.FromPointer: requires `N*p >= 0`, `N*p*sizeof <= INT64_MAX` and at least `N*p` elements behind the pointer. The code checks none of these. A negative product makes a view of negative length. Above the bound, `N * p * sizeof(DataType)` is computed in unsigned 64-bit `size_t` and wraps: N = 2^61, p = 1 with 8-byte elements records a length of 0 bytes, which breaks `Valid`. No buffer of that size exists, so that wrap-around is not modelled. A shorter buffer is read out of bounds.
- HomogenTableImpl.FromFillAsWritten: requires `N*p >= 0` and `N*p*sizeof <= INT64_MAX`. When `N*p` is negative, or its byte size exceeds the implementation's array limit, `new DataType[N*p]` throws `std::bad_array_new_length` before any table exists. That exception is not modelled.
- HomogenTableImpl.FromFill: the same requirements as `FromFillAsWritten`, because the same `new DataType[N*p]` throws for those inputs.
- HomogenTableImpl.FromArray: requires `p != 0`, because the code divides by p unguarded. It also requires the array's byte size to fit in an `int64`, which holds for any array that exists in memory.
- HomogenTableImpl.BufferIndexIsCell: requires a positive column count. With p <= 0 the code still builds a table (N = p = -1 over one element), but its elements are not cells of any row-major grid, so the converse does not apply.
- HomogenTableImpl.RowCount: the getters require the invariant `Valid`, which every constructor establishes. A table that no constructor built is not a table.

## Findings

| source | as written | input that shows it | evidently intended | confidence | as-written member | corrected member |
|---|---|---|---|---|---|---|
| cpp/oneapi/dal/data/backend/homogen_table_impl.hpp:36-38 | The fill constructor fills a block from `new DataType[N*p]` and passes it to the `const DataType*` constructor. That constructor wraps it as a read-only non-owning view, so no holder ever frees the block, and the table cannot write to its own data | N = 5, p = 3, value = 0: fifteen elements are allocated and never released | The table owns the block it allocated and releases it by deallocation | not executed; high | HomogenTableImpl.FromFillAsWritten | HomogenTableImpl.FromFill |
