/**
 * The global allocator as the packed buffer sees it: `alloc(layout)` hands out
 * a fresh region of `layout.size` bytes or fails (a null pointer), and
 * `dealloc(ptr, layout)` takes back a live region, which is only sound with the
 * layout it was allocated with. The ghost state records every live region with
 * its allocation layout, which party currently holds it, and every region that
 * has been freed.
 */
module Memory {
  import opened Wrappers
  import opened Ints
  import opened Layouts

  /** A pointer to the start of an allocation; the allocation's bytes are the array's elements. */
  type Ptr = array<u8>

  /** Who is responsible for freeing a live region: an owning value, or whoever holds the raw pointer. */
  datatype Holder = Owner(value: object) | Raw

  class Allocator {
    /** Bytes the allocator can still hand out; a request above it is refused. */
    var available: nat
    ghost var live: map<Ptr, Layout>
    ghost var holder: map<Ptr, Holder>
    ghost var freed: set<Ptr>

    ghost predicate Valid()
      reads this
    {
      && holder.Keys == live.Keys
      && live.Keys !! freed
      && (forall p :: p in live ==> p.Length == live[p].size)
    }

    constructor (capacity: nat)
      ensures Valid()
      ensures available == capacity && live == map[] && holder == map[] && freed == {}
    {
      available := capacity;
      live, holder, freed := map[], map[], {};
    }

    /** `alloc(layout)`; `None` is the null pointer. */
    method Alloc(layout: Layout) returns (r: Option<Ptr>)
      requires Valid() && ValidLayout(layout) && layout.size > 0
      modifies this
      ensures Valid()
      ensures r.None? <==> layout.size > old(available)
      ensures r.None? ==> available == old(available) && live == old(live) && holder == old(holder)
      ensures r.Some? ==> fresh(r.value) && r.value.Length == layout.size
      ensures r.Some? ==> available == old(available) - layout.size
      ensures r.Some? ==> live == old(live)[r.value := layout] && holder == old(holder)[r.value := Raw]
      ensures freed == old(freed)
    {
      if layout.size > available {
        return None;
      }
      var p := new u8[layout.size];
      available := available - layout.size;
      live := live[p := layout];
      holder := holder[p := Raw];
      r := Some(p);
    }

    /** `dealloc(p, layout)`: only a live region, and only with its allocation layout. */
    method Dealloc(p: Ptr, layout: Layout)
      requires Valid() && p in live && live[p] == layout
      modifies this
      ensures Valid()
      ensures live == old(live) - {p} && holder == old(holder) - {p} && freed == old(freed) + {p}
      ensures available == old(available) + layout.size
    {
      available := available + layout.size;
      live := live - {p};
      holder := holder - {p};
      freed := freed + {p};
    }

    /** Hands responsibility for a live region from one party to another. */
    ghost method Transfer(p: Ptr, from: Holder, to: Holder)
      requires Valid() && p in holder && holder[p] == from
      modifies this
      ensures Valid()
      ensures holder == old(holder)[p := to]
      ensures live == old(live) && freed == old(freed) && available == old(available)
    {
      holder := holder[p := to];
    }
  }
}
