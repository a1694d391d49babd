/**
 * The size-and-alignment arithmetic of `core::alloc::Layout` that the packed
 * buffer relies on: `from_size_align`, `array::<u8>` and `extend`, with the
 * overflow checks they perform on a 64-bit target.
 */
module Layouts {
  import opened Wrappers
  import opened Ints

  datatype Layout = Layout(size: nat, align: nat)

  datatype LayoutError = LayoutError

  predicate IsPowerOfTwo(a: nat)
    decreases a
  {
    a == 1 || (a > 1 && a % 2 == 0 && IsPowerOfTwo(a / 2))
  }

  /** What every `Layout` value satisfies: the size rounded up to the alignment fits in `isize`. */
  ghost predicate ValidLayout(l: Layout)
  {
    IsPowerOfTwo(l.align) && l.size + (l.align - 1) <= ISIZE_MAX
  }

  function Max(a: nat, b: nat): nat
  {
    if a < b then b else a
  }

  /** `size` rounded up to a multiple of `align`. */
  function RoundUp(size: nat, align: nat): nat
    requires align > 0
  {
    (size + align - 1) / align * align
  }

  lemma RoundUpBounds(size: nat, align: nat)
    requires align > 0
    ensures size <= RoundUp(size, align) < size + align
  {
  }

  /** `Layout::from_size_align` */
  function FromSizeAlign(size: nat, align: nat): (r: Result<Layout, LayoutError>)
    ensures r.Ok? <==> ValidLayout(Layout(size, align))
    ensures r.Ok? ==> r.value == Layout(size, align)
  {
    if !IsPowerOfTwo(align) then Err(LayoutError)
    else if size > ISIZE_MAX - (align - 1) then Err(LayoutError)
    else Ok(Layout(size, align))
  }

  /** `Layout::array::<u8>(n)`: `n` bytes of alignment 1. */
  function ByteArray(n: usize): (r: Result<Layout, LayoutError>)
    ensures r.Ok? <==> n as nat <= ISIZE_MAX
    ensures r.Ok? ==> r.value == Layout(n as nat, 1)
  {
    // size_of::<u8>() * n cannot overflow
    FromSizeAlign(1 * n as nat, 1)
  }

  /**
   * `Layout::extend`: `next` placed after `l` at the first offset aligned for
   * it; the result carries that offset.
   */
  function Extend(l: Layout, next: Layout): (r: Result<(Layout, nat), LayoutError>)
    requires IsPowerOfTwo(l.align) && IsPowerOfTwo(next.align)
    requires l.size <= USIZE_MAX && next.size <= USIZE_MAX
    ensures r.Ok? <==> RoundUp(l.size, next.align) + next.size + (Max(l.align, next.align) - 1) <= ISIZE_MAX
    ensures r.Ok? ==> ValidLayout(r.value.0) && r.value.1 == RoundUp(l.size, next.align)
    ensures r.Ok? ==> r.value.0.align == Max(l.align, next.align)
    ensures r.Ok? ==> l.size <= r.value.1 && r.value.0.size == r.value.1 + next.size
  {
    var newAlign := Max(l.align, next.align);
    RoundUpBounds(l.size, next.align);
    var pad := RoundUp(l.size, next.align) - l.size;
    var offset := l.size + pad;
    if offset > USIZE_MAX then Err(LayoutError)
    else
      var newSize := offset + next.size;
      if newSize > USIZE_MAX then Err(LayoutError)
      else match FromSizeAlign(newSize, newAlign)
        case Err(e) => Err(e)
        case Ok(layout) => Ok((layout, offset))
  }
}
