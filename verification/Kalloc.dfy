/**
  The allocator of physical pages (kernel/kalloc.c): a list threaded through the free pages.
 */
module Kalloc {
  import opened PageTable
  import opened PageSteps

  const PHYSTOP: nat := 0x8800_0000

  /** The first page that starts at or above address a. */
  function PageUp(a: nat): (n: nat)
    ensures a <= n * 4096 < a + 4096
  {
    (a + PGSIZE - 1) / PGSIZE
  }

  function RoundUp(a: nat): nat { PageUp(a) * PGSIZE }

  class Memory {
    var pages: map<nat, Page>
    var freelist: nat              // page number of the first free page, 0 for none
    ghost var stack: seq<nat>
    ghost var owner: map<nat, Role>
    const end: nat                 // first address after the kernel

    ghost function View(): State
      reads this
    {
      State(pages, freelist, stack, owner)
    }

    ghost predicate Range()
      reads this
    {
      0 < end && forall n :: n in owner <==> end <= n * PGSIZE < PHYSTOP
    }

    ghost predicate Valid()
      reads this
    {
      Range() && Inv(View())
    }

    /** kfree(); true stands for the panic. */
    method Kfree(pa: nat) returns (panicked: bool)
      requires Range() && FreeList(View())
      requires pa / PGSIZE in owner ==> !owner[pa / PGSIZE].Free?
      modifies this
      ensures panicked <==> pa % PGSIZE != 0 || pa < end || pa >= PHYSTOP
      ensures panicked ==> View() == old(View())
      ensures !panicked ==> pa / PGSIZE in old(owner) && View() == FreePage(old(View()), pa / PGSIZE)
      ensures Range() && FreeList(View())
    {
      if pa % PGSIZE != 0 || pa < end || pa >= PHYSTOP {
        return true;
      }
      var r := pa / PGSIZE;
      assert r * PGSIZE == pa;
      FreePageList(View(), r);
      pages := pages[r := Junk(1)];
      pages := pages[r := Run(freelist)];
      freelist := r;
      owner := owner[r := Free(|stack|)];
      stack := stack + [r];
      return false;
    }

    /** kalloc(): the address of a page filled with junk, or 0. */
    method Kalloc() returns (pa: nat)
      requires Valid()
      modifies this
      ensures Valid() && SameMaps(old(View()), View())
      ensures old(stack) == [] ==> pa == 0 && View() == old(View())
      ensures old(stack) != [] ==> pa == Top(old(stack)) * PGSIZE != 0 && View() == Alloc(old(View()))
      ensures pa != 0 ==> pa / PGSIZE in owner && owner[pa / PGSIZE].Held? && old(owner)[pa / PGSIZE].Free?
    {
      hide Inv, SameMaps;
      TopFacts(View());
      var r := freelist;
      if r != 0 {
        AllocKeeps(View());
        freelist := pages[r].next;
        pages := pages[r := Junk(5)];
        stack := stack[..|stack| - 1];
        owner := owner[r := Held];
      } else {
        SameMapsRefl(View());
      }
      return r * PGSIZE;
    }

    /** freerange(): hand every whole page of the range to kfree, which panics on the first one that is
        not managed. */
    method Freerange(start: nat, stop: nat) returns (panicked: bool)
      requires Range() && FreeList(View())
      requires forall n :: n in owner && PageUp(start) <= n < stop / PGSIZE ==> !owner[n].Free?
      modifies this
      ensures panicked <==> PageUp(start) < stop / PGSIZE && (PageUp(start) * PGSIZE < end || stop / PGSIZE * PGSIZE > PHYSTOP)
      ensures Range() && FreeList(View())
      ensures forall n :: n in old(owner) ==>
        n in owner &&
        if PageUp(start) * PGSIZE >= end && PageUp(start) <= n < stop / PGSIZE then owner[n].Free?
        else owner[n] == old(owner)[n] && n in pages && n in old(pages) && pages[n] == old(pages)[n]
    {
      hide FreeList, PageUp;
      assert forall n :: n in owner ==> n in pages by { SameKeys(View()); }
      var p := RoundUp(start);
      ghost var q := PageUp(start);
      while p + PGSIZE <= stop
        invariant p == q * PGSIZE && PageUp(start) <= q
        invariant q > PageUp(start) ==> PageUp(start) * PGSIZE >= end && q <= stop / PGSIZE && p <= PHYSTOP
        invariant Range() && FreeList(View())
        invariant forall n :: n in old(owner) ==>
          n in owner &&
          if PageUp(start) * PGSIZE >= end && PageUp(start) <= n < q then owner[n].Free?
          else owner[n] == old(owner)[n] && n in pages && n in old(pages) && pages[n] == old(pages)[n]
      {
        assert p / PGSIZE == q && p % PGSIZE == 0 && q < stop / PGSIZE;
        panicked := Kfree(p);
        if panicked {
          return;
        }
        p, q := p + PGSIZE, q + 1;
      }
      return false;
    }

    /** kinit(): with no page in use yet, every page from the end of the kernel up is free. */
    constructor (end: nat, initial: map<nat, Page>)
      requires 0 < end && forall n :: n in initial <==> end <= n * PGSIZE < PHYSTOP
      ensures Valid() && this.end == end && forall n :: n in owner ==> owner[n].Free?
    {
      this.end := end;
      pages := initial;
      freelist := 0;
      stack := [];
      owner := map n | n in initial :: Held;
      new;
      var panicked := Freerange(end, PHYSTOP);
      AllFree(View());
    }
  }

  lemma SameKeys(s: State)
    requires FreeList(s)
    ensures s.pages.Keys == s.owner.Keys
  {
  }

  lemma AllFree(s: State)
    requires FreeList(s) && forall n :: n in s.owner ==> s.owner[n].Free?
    ensures Inv(s)
  {
  }
}
