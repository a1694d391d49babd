/**
 * Uses of the packed buffer by the tagged error representation that embeds
 * it, written against the contracts alone.
 */
module Scenarios {
  import opened Wrappers
  import opened Ints
  import opened Layouts
  import opened Memory
  import opened PathBufAndCode

  /** `from_raw(into_raw(v))` is the same buffer: same allocation, code and path. */
  method HandleRoundTrip(v: OsPathBufAndError) returns (w: OsPathBufAndError)
    requires v.Valid()
    modifies v.heap
    ensures w.Valid() && !v.Valid() && w.ptr == v.ptr && w.heap == v.heap
    ensures w.Code() == old(v.Code()) && w.AsCStr() == old(v.AsCStr())
    ensures v.heap.holder == old(v.heap.holder)[w.ptr := Owner(w)]
    ensures v.heap.live == old(v.heap.live) && v.heap.freed == old(v.heap.freed)
    ensures v.heap.available == old(v.heap.available)
  {
    ghost var path, code := v.path, v.code;
    var p := v.IntoRaw();
    assert OsPathBufAndError.CodeFromRaw(p, v.heap, path, code) == code;
    w := new OsPathBufAndError.FromRaw(p, v.heap, path, code);
  }

  /**
   * The whole life of one buffer: construct it, record an OS code, read both
   * back, hand the pointer to a raw holder and take it back, and drop it.
   * Exactly the one allocation is made and freed, with nothing leaked.
   */
  method Lifecycle(bytes: seq<u8>, c: i32, heap: Allocator) returns (code: i32, cstr: seq<u8>, ghost p: Ptr)
    requires heap.Valid() && 0 !in bytes && PathFits(bytes)
    requires HEADER_SIZE + |bytes| + 1 <= heap.available
    modifies heap
    ensures heap.Valid() && code == c && cstr == bytes + [0]
    ensures heap.live == old(heap.live) && heap.holder == old(heap.holder)
    ensures heap.available == old(heap.available)
    ensures fresh(p) && heap.freed == old(heap.freed) + {p}
  {
    var r := OsPathBufAndError.FromPathBytes(bytes, heap);
    var v := r.result.value;
    v.SetCode(c);
    code := v.Code();
    cstr := v.AsCStr();
    var w := HandleRoundTrip(v);
    w.Drop();
    p := w.ptr;
  }

  /** The error for a missing "/tmp/missing" with the "no such file" code 2. */
  method MissingFile(heap: Allocator) returns (code: i32, cstr: seq<u8>)
    requires heap.Valid() && heap.available >= 64
    modifies heap
    ensures code == 2
    ensures cstr == [47, 116, 109, 112, 47, 109, 105, 115, 115, 105, 110, 103, 0]
    ensures heap.live == old(heap.live) && heap.available == old(heap.available)
  {
    // the ASCII bytes of "/tmp/missing"
    var bytes: seq<u8> := [47, 116, 109, 112, 47, 109, 105, 115, 115, 105, 110, 103];
    assert 0 !in bytes && PathFits(bytes);
    ghost var p;
    code, cstr, p := Lifecycle(bytes, 2, heap);
  }

  /** An empty path is accepted and the buffer is only the header and the terminator. */
  method EmptyPath(heap: Allocator) returns (cstr: seq<u8>)
    requires heap.Valid() && heap.available >= HEADER_SIZE + 1
    modifies heap
    ensures heap.Valid() && cstr == [0]
    ensures heap.live == old(heap.live) && heap.available == old(heap.available)
  {
    var r := OsPathBufAndError.FromPathBytes([], heap);
    var v := r.result.value;
    assert |v.ptr[..]| == HEADER_SIZE + 1;
    cstr := v.AsCStr();
    v.Drop();
  }
}
