# Packed OS error code and path buffer

A model of `OsPathBufAndError` from the Rust standard library's I/O error
module. The type keeps an OS error code and the nul-terminated path that
caused it in **one** heap allocation. The allocation starts with a
`#[repr(C, align(8))]` header `{ len_with_nul: usize, os_code: i32 }`, which is
16 bytes on a 64-bit target. The path bytes follow, then one `0`. The owning
value holds only the pointer. Its destructor reads `len_with_nul` back and
recomputes the allocation layout from it, so the central obligation is that
this layout is the one the constructor allocated with. Raw handles let the
bit-packed error representation that embeds the buffer store the bare pointer.
It can peek at the code and the path through that pointer, or turn the
pointer back into an owning value to drop it.

Modules:

- `Wrappers` (wrappers.dfy): `Option` and `Result`.
- `Ints` (ints.dfy): `u8`, `i32` and `usize` as newtypes; `usize::MAX` and `isize::MAX`; little-endian and two's-complement byte encodings, with round-trip lemmas in both directions.
- `Layouts` (layouts.dfy): the parts of `core::alloc::Layout` that the buffer uses (`from_size_align`, `array::<u8>`, `extend`), with their overflow checks.
- `Memory` (memory.dfy): the global allocator. An allocation is an `array<u8>` (`Ptr`). The allocator has a real byte budget, which decides whether `alloc` fails. Its ghost state records:
  - each live allocation and the layout it was allocated with;
  - which party holds each live allocation: an owning value, or a raw pointer;
  - every freed allocation.
- `PathBufAndCode` (pathbuf_and_code.dfy): the header and its layout, `layout_for_len`, the byte image of a packed buffer, the class `OsPathBufAndError` with its constructor, accessors, the raw-handle bridge and the destructor.
- `Scenarios` (scenarios.dfy): client code written against the contracts alone. It covers the handle round trip, a whole construct / set code / convert / drop lifecycle, the "/tmp/missing" example with code 2, and the empty path.

How ownership is modelled:

- An `OsPathBufAndError` is `Valid()` only while the allocator records it as the holder of its allocation.
- `IntoRaw` hands the allocation to a raw holder. The moved-from value is then no longer `Valid()`, so its destructor can no longer run. This plays the part of `ManuallyDrop`.
- `FromRaw` accepts only an allocation held raw, and makes the new value its holder.
- `Dealloc` requires the allocation to be live and the layout to be the one it was allocated with. So every `Drop` proves "dealloc layout == alloc layout". Every allocation is also freed at most once, because a freed allocation is no longer live.

The size limit:

- One could read `layout_for_len` as failing only when `16 + len` overflows `usize`. It fails earlier, because it goes through `Layout`, whose limit is `isize::MAX` after rounding up to the alignment. So `layout_for_len(len)` succeeds exactly when `16 + len <= isize::MAX - 7`. The model follows the code.

## Model

| member | source | states |
|---|---|---|
| `Ints.LeBytes` | library/std/src/io/error/pathbuf_and_code.rs:17-23 | a header field is stored as exactly as many bytes as its width |
| `Ints.FromLe` | library/std/src/io/error/pathbuf_and_code.rs:17-23 | the bytes of a field read back as a number below 256^width |
| `Ints.FromLeOfLeBytes` | library/std/src/io/error/pathbuf_and_code.rs:17-23 | reading a stored unsigned field gives back the value written |
| `Ints.LeBytesOfFromLe` | library/std/src/io/error/pathbuf_and_code.rs:17-23 | re-encoding a read value gives back the same bytes |
| `Ints.EncodeI32` | library/std/src/io/error/pathbuf_and_code.rs:21 | `os_code` takes exactly 4 bytes |
| `Ints.DecodeEncodeI32` | library/std/src/io/error/pathbuf_and_code.rs:21 | a stored signed code, negatives included, reads back unchanged |
| `Ints.DecodeI32` | library/std/src/io/error/pathbuf_and_code.rs:21 | a stored code reads as negative exactly when the top bit of its last (most significant) byte is set |
| `Ints.EncodeDecodeI32` | library/std/src/io/error/pathbuf_and_code.rs:21 | re-encoding a read code gives back the same 4 bytes |
| `Layouts.FromSizeAlign` | library/std/src/io/error/pathbuf_and_code.rs:135-136 | a layout exists exactly for a power-of-two alignment and a size that fits `isize` once rounded up, and then has that size and alignment |
| `Layouts.ByteArray` | library/std/src/io/error/pathbuf_and_code.rs:135 | `Layout::array::<u8>(n)` succeeds iff `n <= isize::MAX`, with size `n` and alignment 1 |
| `Layouts.Extend` | library/std/src/io/error/pathbuf_and_code.rs:136 | succeeds exactly when the appended layout, placed at the first multiple of its alignment at or after the first layout's end, gives a size that fits `isize` once rounded up to the larger alignment; then the offset is that multiple, the layout is valid, has the larger alignment, and its size is the offset plus the appended size |
| `PathBufAndCode.HeaderLayout` | library/std/src/io/error/pathbuf_and_code.rs:17-23 | the header is 16 bytes with alignment 8, with `len_with_nul` before `os_code` |
| `PathBufAndCode.FieldOffsets` | library/std/src/io/error/pathbuf_and_code.rs:17-23 | the offsets every read and write uses are the `repr(C)` ones: `len_with_nul` at 0, `os_code` at the first 4-aligned offset after it |
| `PathBufAndCode.LayoutForLen` | library/std/src/io/error/pathbuf_and_code.rs:132-139 | succeeds exactly when `len <= isize::MAX - 7 - 16`, and then gives size `16 + len` with alignment 8, so the stored length alone decides the layout |
| `PathBufAndCode.PayloadOffset` | library/std/src/io/error/pathbuf_and_code.rs:136-137 | the payload starts at offset 16, the header size |
| `PathBufAndCode.EncodeHeader` | library/std/src/io/error/pathbuf_and_code.rs:60 | the header write covers exactly the 16 header bytes |
| `PathBufAndCode.ReadLen` | library/std/src/io/error/pathbuf_and_code.rs:125 | the `len_with_nul` read (also at lines 95 and 113) is the length whose stored bytes are exactly those at its offset |
| `PathBufAndCode.ReadCode` | library/std/src/io/error/pathbuf_and_code.rs:72 | the `os_code` read (also at line 106) is the code whose stored bytes are exactly those at its offset |
| `PathBufAndCode.HeaderRoundTrip` | library/std/src/io/error/pathbuf_and_code.rs:58-73 | after the header write, `len_with_nul` and `os_code` read back as written, whatever follows the header |
| `PathBufAndCode.Image` | library/std/src/io/error/pathbuf_and_code.rs:41-65 | header, path and terminator fill exactly the size `layout_for_len(len + 1)` allocates |
| `PathBufAndCode.PackedReadBack` | library/std/src/io/error/pathbuf_and_code.rs:92-99 | from a well-formed allocation the stored length is `|path| + 1`, the code is the one written, the length's layout has the allocation's size, and the bounded slice is the path plus one `0` with no earlier `0` |
| `PathBufAndCode.PackedUnique` | library/std/src/io/error/pathbuf_and_code.rs:120-126 | the bytes of an allocation determine the path and the code it holds |
| `PathBufAndCode.Store` | library/std/src/io/error/pathbuf_and_code.rs:59-65 | a write changes exactly the bytes it covers |
| `PathBufAndCode.WriteFresh` | library/std/src/io/error/pathbuf_and_code.rs:58-65 | header with code 0, the path copy and the terminator together give the packed image |
| `PathBufAndCode.OsPathBufAndError.FromPathBytes` | library/std/src/io/error/pathbuf_and_code.rs:33-68 | four outcomes: an interior `0` gives `InvalidInput`; a size with no layout gives `OutOfMemory`; both of these leave the allocator untouched. A valid layout above the allocator's budget aborts in `handle_alloc_error` with that layout. Otherwise a fresh value results, with the input path, the code 0 and `len_with_nul == len + 1`, owning one new allocation of the `layout_for_len` layout |
| `PathBufAndCode.OsPathBufAndError.Code` | library/std/src/io/error/pathbuf_and_code.rs:70-73 | reading `os_code` in place gives the value's current code |
| `PathBufAndCode.OsPathBufAndError.SetCode` | library/std/src/io/error/pathbuf_and_code.rs:75-78 | afterwards the code is the new one, the path is unchanged, and every byte outside `os_code` (so `len_with_nul` and the payload) is unchanged |
| `PathBufAndCode.OsPathBufAndError.AsCStr` | library/std/src/io/error/pathbuf_and_code.rs:91-100 | the view bounded by the stored length is the path followed by a single `0`, with no `0` before it |
| `PathBufAndCode.OsPathBufAndError.IntoRaw` | library/std/src/io/error/pathbuf_and_code.rs:80-84 | returns the same pointer, now a raw handle to the same path and code; the value is disarmed, and nothing is allocated or freed |
| `PathBufAndCode.OsPathBufAndError.FromRaw` | library/std/src/io/error/pathbuf_and_code.rs:86-89 | from a raw handle, builds an owning value for the same pointer, path and code, which becomes the allocation's holder |
| `PathBufAndCode.OsPathBufAndError.CodeFromRaw` | library/std/src/io/error/pathbuf_and_code.rs:102-108 | through a live handle, reads the code the allocation holds, without changing who holds it |
| `PathBufAndCode.OsPathBufAndError.CStrFromRaw` | library/std/src/io/error/pathbuf_and_code.rs:110-117 | through a live handle, gives the path plus a single `0` |
| `PathBufAndCode.OsPathBufAndError.Drop` | library/std/src/io/error/pathbuf_and_code.rs:120-130 | frees exactly this allocation, with the layout recomputed from the stored length, which the allocator accepts only as the allocation layout; the allocation leaves the live set for the freed set, and the value is no longer usable |
| `PathBufAndCode.PeekAgreesWithOwner` | library/std/src/io/error/pathbuf_and_code.rs:102-117 | the handle peeks give what the owning value's `code()` and `as_cstr()` give |
| `Memory.Allocator.Alloc` | library/std/src/io/error/pathbuf_and_code.rs:54-57 | hands out a fresh region of the layout's size, recorded live with that layout and held raw; or fails and changes nothing |
| `Memory.Allocator.Dealloc` | library/std/src/io/error/pathbuf_and_code.rs:127 | accepts only a live region with its allocation layout, and moves it from live to freed |
| `Memory.Allocator.Transfer` | library/std/src/io/error/pathbuf_and_code.rs:80-89 | a change of owner touches only who holds the region |
| `Scenarios.HandleRoundTrip` | library/std/src/io/error/pathbuf_and_code.rs:80-89 | `from_raw(into_raw(v))` owns the same allocation with the same `code()` and `as_cstr()` as `v`, and nothing is allocated or freed |
| `Scenarios.Lifecycle` | library/std/src/io/error/pathbuf_and_code.rs:34-130 | construct, set a code, read, convert to a raw handle and back, drop: the reads give the code and path plus `0`; exactly one fresh allocation is freed; live allocations, holders and budget are as before |
| `Scenarios.MissingFile` | library/std/src/io/error/pathbuf_and_code.rs:34-99 | for "/tmp/missing" and code 2, `code()` is 2 and the view is "/tmp/missing" plus `0` |
| `Scenarios.EmptyPath` | library/std/src/io/error/pathbuf_and_code.rs:41-65 | the empty path is accepted, and its view is the single terminator |

## Left out

- `Send`/`Sync`: these are concurrency markers, and the model is single-threaded.
- `memchr`: the model uses sequence membership (`0 in bytes`) instead of the real byte-scanning implementation.
- `alloc`, `dealloc` and `handle_alloc_error` are not modelled as real implementations. The allocator is a byte budget plus ghost bookkeeping, and the abort is a `AllocAborted(layout)` outcome instead of process termination.
- Padding: the header write stores the 4 padding bytes as zeros, although the source leaves them uninitialised. (The rest of a fresh allocation is unknown until written, as in the source.)
- Byte order: the model stores the header little-endian, as on x86_64. Other targets are not modelled.
- `CStr` and lifetimes: the path view is a copy (`seq<u8>`) of the payload, not a borrowed `&CStr`. The unbounded lifetime `'a` of `cstr_from_raw` is not modelled.
- Pointer provenance and casts: a pointer is an `array<u8>` reference. `NonNull<u8>` and `NonNull<OsPathAndErrorHeader>` are the same `Ptr`.
- `OsPathBufAndError.FromRaw` takes the allocator as an extra argument, because the model's destructor needs it. It also takes the path and code as specification-only arguments. `CodeFromRaw` and `CStrFromRaw` take the same specification-only arguments.
- `#[cfg(not(no_global_oom_handling))]` is not modelled: `FromPathBytes` is always present.
- The byte-slice input is limited to `isize::MAX` bytes, as every Rust slice is. So `bytes.len() + 1` never overflows.
- Error values: `const_io_error!` is modelled as a plain kind-and-message value. The `io::Error` representation that embeds the buffer is not part of this model.
- The other files of the repository are not part of this model: the iterator adapters, bootstrap metadata, thread info, the compiler entry point and allocator wiring, `x.py`, the unix `fs` tests and the target specification.
