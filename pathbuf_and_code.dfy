/**
 * A nul-terminated path and a 32-bit OS error code packed into one allocation:
 * a `#[repr(C, align(8))]` header `{ len_with_nul: usize, os_code: i32 }`
 * followed by the path's bytes and a single `0`. The owning value holds only
 * the pointer; the destructor rebuilds the allocation layout from the stored
 * `len_with_nul`, so that layout must be the one the constructor allocated
 * with. Raw handles let another party hold the pointer without an owning value.
 */
module PathBufAndCode {
  import opened Wrappers
  import opened Ints
  import opened Layouts
  import opened Memory

  // ---------------------------------------------------------------------------
  // The header and the layout of the whole allocation

  /** The header as a value: `len_with_nul` counts the path bytes and the terminator. */
  datatype OsPathAndErrorHeader = OsPathAndErrorHeader(lenWithNul: usize, osCode: i32)

  /** The alignment demanded by `#[repr(C, align(8))]` */
  const REPR_ALIGN: nat := 8

  const LEN_OFFSET: nat := 0
  const CODE_OFFSET: nat := 8
  const HEADER_SIZE: nat := 16
  const HEADER_ALIGN: nat := 8

  /** The longest `len_with_nul` whose layout is representable. */
  const MAX_LEN_WITH_NUL: nat := ISIZE_MAX - (HEADER_ALIGN - 1) - HEADER_SIZE

  /**
   * `Layout::new::<OsPathAndErrorHeader>()`, computed by the `repr(C)` rules:
   * each field at the next offset aligned for it, the struct aligned for its
   * strictest member and the `align(8)` attribute, its size a multiple of that.
   */
  function HeaderLayout(): (l: Layout)
    ensures l == Layout(HEADER_SIZE, HEADER_ALIGN) && ValidLayout(l)
    ensures LEN_OFFSET + USIZE_SIZE <= CODE_OFFSET && CODE_OFFSET + I32_SIZE <= l.size
  {
    var lenEnd := RoundUp(0, USIZE_ALIGN) + USIZE_SIZE;
    var codeEnd := RoundUp(lenEnd, I32_ALIGN) + I32_SIZE;
    var align := Max(REPR_ALIGN, Max(USIZE_ALIGN, I32_ALIGN));
    Layout(RoundUp(codeEnd, align), align)
  }

  /** The field offsets every read and write uses are the ones the `repr(C)` rules give. */
  lemma FieldOffsets()
    ensures LEN_OFFSET == RoundUp(0, USIZE_ALIGN)
    ensures CODE_OFFSET == RoundUp(LEN_OFFSET + USIZE_SIZE, I32_ALIGN)
  {
  }

  /** What `Extend` returns for the header followed by `len` bytes: the layout and the payload offset. */
  function ExtendHeader(len: usize): Result<(Layout, nat), LayoutError>
  {
    match ByteArray(len)
    case Err(e) => Err(e)
    case Ok(pathLayout) => Extend(HeaderLayout(), pathLayout)
  }

  /**
   * `layout_for_len`: the header followed by `len` bytes. The destructor calls
   * it again on the stored length, which is sound because the result depends
   * on `len` alone and a different `len` gives a different size.
   */
  function LayoutForLen(len: usize): (r: Result<Layout, LayoutError>)
    ensures r.Ok? <==> len as nat <= MAX_LEN_WITH_NUL
    ensures r.Ok? ==> r.value == Layout(HEADER_SIZE + len as nat, HEADER_ALIGN) && ValidLayout(r.value)
  {
    match ExtendHeader(len)
    case Err(e) => Err(e)
    case Ok((layout, offset)) =>
      assert offset == HEADER_SIZE;  // the payload starts at the header size
      Ok(layout)
  }

  /** The payload starts right after the header: `extend` inserts no padding. */
  lemma PayloadOffset(len: usize)
    requires len as nat <= MAX_LEN_WITH_NUL
    ensures ExtendHeader(len).Ok? && ExtendHeader(len).value.1 == HEADER_SIZE
  {
  }

  // ---------------------------------------------------------------------------
  // The bytes of a packed buffer

  /** The header as it lies in memory: little-endian fields, padding written as zeros. */
  function EncodeHeader(h: OsPathAndErrorHeader): (s: seq<u8>)
    ensures |s| == HEADER_SIZE
  {
    LeBytes(h.lenWithNul as nat, USIZE_SIZE) + EncodeI32(h.osCode) + [0, 0, 0, 0]
  }

  /** Reads `len_with_nul` at its offset in the allocation. */
  function ReadLen(mem: seq<u8>): (len: usize)
    requires |mem| >= HEADER_SIZE
    ensures LeBytes(len as nat, USIZE_SIZE) == mem[LEN_OFFSET..LEN_OFFSET + USIZE_SIZE]
  {
    LeBytesOfFromLe(mem[LEN_OFFSET..LEN_OFFSET + USIZE_SIZE]);
    FromLe(mem[LEN_OFFSET..LEN_OFFSET + USIZE_SIZE]) as usize
  }

  /** Reads `os_code` at its offset in the allocation. */
  function ReadCode(mem: seq<u8>): (c: i32)
    requires |mem| >= HEADER_SIZE
    ensures EncodeI32(c) == mem[CODE_OFFSET..CODE_OFFSET + I32_SIZE]
  {
    EncodeDecodeI32(mem[CODE_OFFSET..CODE_OFFSET + I32_SIZE]);
    DecodeI32(mem[CODE_OFFSET..CODE_OFFSET + I32_SIZE])
  }

  /** Both header fields read back what was written, whatever follows the header. */
  lemma HeaderRoundTrip(h: OsPathAndErrorHeader, rest: seq<u8>)
    ensures ReadLen(EncodeHeader(h) + rest) == h.lenWithNul
    ensures ReadCode(EncodeHeader(h) + rest) == h.osCode
  {
    var mem := EncodeHeader(h) + rest;
    assert mem[LEN_OFFSET..LEN_OFFSET + USIZE_SIZE] == LeBytes(h.lenWithNul as nat, USIZE_SIZE);
    assert mem[CODE_OFFSET..CODE_OFFSET + I32_SIZE] == EncodeI32(h.osCode);
    FromLeOfLeBytes(h.lenWithNul as nat, USIZE_SIZE);
    DecodeEncodeI32(h.osCode);
  }

  /** Whether `len_with_nul` for `path` is representable. */
  predicate PathFits(path: seq<u8>)
  {
    |path| + 1 <= MAX_LEN_WITH_NUL
  }

  /** The contents of the allocation of a buffer holding `path` and `code`. */
  function Image(path: seq<u8>, code: i32): (mem: seq<u8>)
    requires PathFits(path)
    ensures |mem| == LayoutForLen((|path| + 1) as usize).value.size
  {
    EncodeHeader(OsPathAndErrorHeader((|path| + 1) as usize, code)) + path + [0]
  }

  /** A path as C sees it: its bytes, none of them `0`, then one `0`. */
  predicate IsCStrOf(s: seq<u8>, path: seq<u8>)
  {
    s == path + [0] && 0 !in path
  }

  /** `mem` is the allocation of a well-formed buffer holding `path` and `code`. */
  ghost predicate Packed(mem: seq<u8>, path: seq<u8>, code: i32)
  {
    0 !in path && PathFits(path) && mem == Image(path, code)
  }

  /** Everything the accessors and the destructor read back from a well-formed allocation. */
  lemma PackedReadBack(mem: seq<u8>, path: seq<u8>, code: i32)
    requires Packed(mem, path, code)
    ensures ReadLen(mem) as nat == |path| + 1 && ReadCode(mem) == code
    ensures LayoutForLen(ReadLen(mem)).Ok? && LayoutForLen(ReadLen(mem)).value.size == |mem|
    ensures IsCStrOf(mem[HEADER_SIZE..HEADER_SIZE + ReadLen(mem) as nat], path)
  {
    var h := OsPathAndErrorHeader((|path| + 1) as usize, code);
    assert mem == EncodeHeader(h) + (path + [0]);
    HeaderRoundTrip(h, path + [0]);
    assert mem[HEADER_SIZE..] == path + [0];
  }

  /** The allocation's bytes determine the path and the code it holds. */
  lemma PackedUnique(mem: seq<u8>, path: seq<u8>, code: i32, path': seq<u8>, code': i32)
    requires Packed(mem, path, code) && Packed(mem, path', code')
    ensures path == path' && code == code'
  {
    PackedReadBack(mem, path, code);
    PackedReadBack(mem, path', code');
    assert path + [0] == path' + [0];
    assert path == (path + [0])[..|path|];
  }

  /** `p` is a live allocation holding `path` and `code`, allocated with the layout its stored length gives. */
  ghost predicate Live(heap: Allocator, p: Ptr, path: seq<u8>, code: i32)
    reads heap, p
  {
    && heap.Valid()
    && p in heap.live
    && Packed(p[..], path, code)
    && heap.live[p] == LayoutForLen((|path| + 1) as usize).value
  }

  /** `p` is such an allocation and is held as a raw pointer, with no owning value. */
  ghost predicate IsRawHandle(heap: Allocator, p: Ptr, path: seq<u8>, code: i32)
    reads heap, p
  {
    Live(heap, p, path, code) && heap.holder[p] == Raw
  }

  /**
   * Stores `src` at offset `at` of the allocation: `ptr::write` of the
   * header or of one field, and `copy_from_nonoverlapping` of the path.
   */
  method Store(dst: Ptr, at: nat, src: seq<u8>)
    requires at + |src| <= dst.Length
    modifies dst
    ensures dst[..] == old(dst[..at]) + src + old(dst[at + |src|..])
  {
    for i := 0 to |src|
      invariant forall k :: 0 <= k < dst.Length ==>
        dst[k] == if at <= k < at + i then src[k - at] else old(dst[k])
    {
      dst[at + i] := src[i];
    }
    assert dst[..] == old(dst[..at]) + src + old(dst[at + |src|..]);
  }

  /** The three writes of construction: the header with code `0`, the path, the terminator. */
  method WriteFresh(mem: Ptr, bytes: seq<u8>)
    requires PathFits(bytes) && mem.Length == HEADER_SIZE + |bytes| + 1
    modifies mem
    ensures mem[..] == Image(bytes, 0)
  {
    Store(mem, 0, EncodeHeader(OsPathAndErrorHeader((|bytes| + 1) as usize, 0)));
    Store(mem, HEADER_SIZE, bytes);
    Store(mem, HEADER_SIZE + |bytes|, [0]);
  }

  // ---------------------------------------------------------------------------
  // The error values construction can return

  datatype ErrorKind = InvalidInput | OutOfMemory

  datatype IoError = IoError(kind: ErrorKind, message: string)

  const INTERIOR_NUL: IoError := IoError(InvalidInput, "path contains interior nul byte")
  const NO_LAYOUT: IoError := IoError(OutOfMemory, "cannot allocate memory for nul terminated path")

  /** Construction either returns, or aborts in `handle_alloc_error` with the layout that was refused. */
  datatype Constructed = Returned(result: Result<OsPathBufAndError, IoError>) | AllocAborted(layout: Layout)

  // ---------------------------------------------------------------------------
  // The owning value

  class OsPathBufAndError {
    const ptr: Ptr
    const heap: Allocator
    /** The path bytes, without the terminator */
    ghost var path: seq<u8>
    /** The OS error code */
    ghost var code: i32

    /** The value is alive and is the one owner of its allocation. */
    ghost predicate Valid()
      reads this, heap, ptr
    {
      Live(heap, ptr, path, code) && heap.holder[ptr] == Owner(this)
    }

    /** Wraps a raw pointer into an owning value, which re-arms its destructor. */
    constructor FromRaw(p: Ptr, heap: Allocator, ghost path: seq<u8>, ghost code: i32)
      requires IsRawHandle(heap, p, path, code)
      modifies heap
      ensures Valid()
      ensures this.ptr == p && this.heap == heap && this.path == path && this.code == code
      ensures heap.holder == old(heap.holder)[p := Owner(this)]
      ensures heap.live == old(heap.live) && heap.freed == old(heap.freed) && heap.available == old(heap.available)
    {
      this.ptr := p;
      this.heap := heap;
      this.path := path;
      this.code := code;
      new;
      heap.Transfer(p, Raw, Owner(this));
    }

    /**
     * `from_path_bytes`: refuses a path with a `0` in it and a path whose
     * layout is not representable, both without calling the allocator; aborts
     * when the allocator refuses a valid layout; otherwise writes the header,
     * the bytes and the terminator into one new allocation.
     */
    static method FromPathBytes(bytes: seq<u8>, heap: Allocator) returns (r: Constructed)
      requires heap.Valid()
      requires |bytes| <= ISIZE_MAX
      modifies heap
      ensures heap.Valid()
      ensures 0 in bytes ==> r == Returned(Err(INTERIOR_NUL))
      ensures 0 !in bytes && !PathFits(bytes) ==> r == Returned(Err(NO_LAYOUT))
      ensures 0 !in bytes && PathFits(bytes) && |bytes| + 1 + HEADER_SIZE > old(heap.available) ==>
        r == AllocAborted(Layout(HEADER_SIZE + |bytes| + 1, HEADER_ALIGN))
      ensures r.Returned? && r.result.Ok? <==>
        0 !in bytes && PathFits(bytes) && HEADER_SIZE + |bytes| + 1 <= old(heap.available)
      ensures !r.Returned? || r.result.Err? ==>
        heap.live == old(heap.live) && heap.holder == old(heap.holder) && heap.available == old(heap.available)
      ensures r.Returned? && r.result.Ok? ==>
        var b := r.result.value;
        && 0 !in bytes && PathFits(bytes)
        && fresh(b) && fresh(b.ptr) && b.heap == heap && b.Valid()
        && b.path == bytes && b.code == 0 && ReadLen(b.ptr[..]) as nat == |bytes| + 1
        && heap.live == old(heap.live)[b.ptr := LayoutForLen((|bytes| + 1) as usize).value]
        && heap.holder == old(heap.holder)[b.ptr := Owner(b)]
        && heap.available == old(heap.available) - (HEADER_SIZE + |bytes| + 1)
      ensures heap.freed == old(heap.freed)
    {
      if 0 in bytes {
        return Returned(Err(INTERIOR_NUL));
      }
      var lenWithNul := (|bytes| + 1) as usize;
      var fullLayout := LayoutForLen(lenWithNul);
      if fullLayout.Err? {
        return Returned(Err(NO_LAYOUT));
      }
      var layout := fullLayout.value;
      assert layout.size != 0;
      var p := heap.Alloc(layout);
      if p.None? {
        return AllocAborted(layout);
      }
      var mem := p.value;
      WriteFresh(mem, bytes);
      PackedReadBack(mem[..], bytes, 0);
      var b := new OsPathBufAndError.FromRaw(mem, heap, bytes, 0);
      return Returned(Ok(b));
    }

    /** `code`: reads `os_code` in place. */
    function Code(): (c: i32)
      reads this, heap, ptr
      requires Valid()
      ensures c == code
    {
      PackedReadBack(ptr[..], path, code);
      ReadCode(ptr[..])
    }

    /** `set_code`: overwrites `os_code` in place and nothing else. */
    method SetCode(c: i32)
      requires Valid()
      modifies this, ptr
      ensures Valid() && code == c && path == old(path)
      ensures ptr[..CODE_OFFSET] == old(ptr[..CODE_OFFSET])
      ensures ptr[CODE_OFFSET + I32_SIZE..] == old(ptr[CODE_OFFSET + I32_SIZE..])
    {
      Store(ptr, CODE_OFFSET, EncodeI32(c));
      code := c;
      assert ptr[..] == Image(path, c);
    }

    /** `as_cstr`: the payload, bounded by the stored `len_with_nul`. */
    function AsCStr(): (s: seq<u8>)
      reads this, heap, ptr
      requires Valid()
      ensures IsCStrOf(s, path)
    {
      PackedReadBack(ptr[..], path, code);
      ptr[HEADER_SIZE..HEADER_SIZE + ReadLen(ptr[..]) as nat]
    }

    /**
     * `into_raw`: gives up ownership without running the destructor; the
     * pointer is now a raw handle and this value is no longer usable.
     */
    method IntoRaw() returns (p: Ptr)
      requires Valid()
      modifies heap
      ensures p == ptr && IsRawHandle(heap, p, path, code) && !Valid()
      ensures heap.holder == old(heap.holder)[p := Raw]
      ensures heap.live == old(heap.live) && heap.freed == old(heap.freed) && heap.available == old(heap.available)
    {
      heap.Transfer(ptr, Owner(this), Raw);
      p := ptr;
    }

    /** `code_from_raw`: reads `os_code` through a live handle without taking ownership. */
    static function CodeFromRaw(p: Ptr, ghost heap: Allocator, ghost path: seq<u8>, ghost code: i32): (c: i32)
      reads heap, p
      requires Live(heap, p, path, code)
      ensures c == code
    {
      PackedReadBack(p[..], path, code);
      ReadCode(p[..])
    }

    /** `cstr_from_raw`: the path through a live handle without taking ownership. */
    static function CStrFromRaw(p: Ptr, ghost heap: Allocator, ghost path: seq<u8>, ghost code: i32): (s: seq<u8>)
      reads heap, p
      requires Live(heap, p, path, code)
      ensures IsCStrOf(s, path)
    {
      PackedReadBack(p[..], path, code);
      p[HEADER_SIZE..HEADER_SIZE + ReadLen(p[..]) as nat]
    }

    /**
     * `drop`: rebuilds the layout from the stored length and frees the
     * allocation with it; `Dealloc` accepts only the allocation layout.
     */
    method Drop()
      requires Valid()
      modifies heap
      ensures !Valid() && ptr !in heap.live && ptr in heap.freed
      ensures heap.live == old(heap.live) - {ptr} && heap.holder == old(heap.holder) - {ptr}
      ensures heap.freed == old(heap.freed) + {ptr} && heap.available == old(heap.available) + ptr.Length
    {
      PackedReadBack(ptr[..], path, code);
      var lenWithNul := ReadLen(ptr[..]);
      var layout := LayoutForLen(lenWithNul).value;  // unwrap_unchecked
      heap.Dealloc(ptr, layout);
    }
  }

  /** Peeking through a handle sees what the owning value's accessors see. */
  lemma PeekAgreesWithOwner(o: OsPathBufAndError)
    requires o.Valid()
    ensures OsPathBufAndError.CodeFromRaw(o.ptr, o.heap, o.path, o.code) == o.Code()
    ensures OsPathBufAndError.CStrFromRaw(o.ptr, o.heap, o.path, o.code) == o.AsCStr()
  {
  }
}
