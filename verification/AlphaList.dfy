/**
  The heap-linked list of the memory-leak demo: two allocators with a static counter each,
  called in turn, append at the tail; deallocation takes the head.
 */
module AlphaList {
  class Alpha {
    var attr: int
    var next: Alpha?

    constructor (a: int)
      ensures attr == a && next == null
    {
      attr, next := a, null;
    }
  }

  /** Allocations d, d + 1, .. n - 1: the k-th allocation overall carries k / 2. */
  function Window(d: nat, n: nat): (w: seq<int>)
    requires d <= n
    ensures |w| == n - d
  {
    if d == n then [] else Window(d, n - 1) + [(n - 1) / 2]
  }

  lemma {:induction false} WindowAt(d: nat, n: nat, i: nat)
    requires d + i < n
    ensures Window(d, n)[i] == (d + i) / 2
  {
    if d + i < n - 1 {
      WindowAt(d, n - 1, i);
    }
  }

  lemma {:induction false} WindowShrinks(d: nat, n: nat)
    requires d < n
    ensures Window(d, n)[1..] == Window(d + 1, n)
  {
    if d + 1 < n {
      WindowShrinks(d, n - 1);
      assert Window(d, n)[1..] == Window(d, n - 1)[1..] + [(n - 1) / 2];
    }
  }

  /** What a root pointer leads to. */
  class List {
    var root: Alpha?
    /** The cells in order, their attributes, and how many cells were freed. */
    ghost var cells: seq<Alpha>
    ghost var attrs: seq<int>
    ghost var freed: nat

    constructor ()
      ensures Linked() && cells == [] && freed == 0
    {
      root, cells, attrs, freed := null, [], [], 0;
    }

    /** cells is the chain from root to null, without repetition. */
    ghost predicate Linked()
      reads this`root, this`cells, this`attrs, cells
    {
      && (if cells == [] then root == null else root == cells[0] && cells[|cells| - 1].next == null)
      && (forall i, j :: 0 <= i && j == i + 1 < |cells| ==> cells[i].next == cells[j])
      && (forall i, j :: 0 <= i < j < |cells| ==> cells[i] != cells[j])
      && |attrs| == |cells| && (forall i :: 0 <= i < |cells| ==> cells[i].attr == attrs[i])
    }

    ghost predicate GrewFrom(before: seq<Alpha>)
      reads this`cells
    {
      |cells| == |before| + 1 && cells[..|before|] == before
    }

    /** The common part of alloc1 and alloc2; the search for the tail ends because the
        cells are finitely many and none occurs twice. */
    method Append(attr: int)
      requires Linked()
      modifies this`root, this`cells, this`attrs, cells
      ensures Linked() && attrs == old(attrs) + [attr]
      ensures GrewFrom(old(cells)) && fresh(cells[|old(cells)|])
    {
      var ele := new Alpha(attr);
      if root == null {
        root := ele;
      } else {
        var n: Alpha := root;
        ghost var i := 0;
        while n.next != null
          invariant 0 <= i < |cells| && n == cells[i]
          invariant i + 1 < |cells| ==> n.next == cells[i + 1]
          decreases |cells| - i
        {
          n := n.next;
          i := i + 1;
        }
        n.next := ele;
      }
      cells, attrs := cells + [ele], attrs + [attr];
    }

    method Dealloc()
      requires Linked()
      modifies this
      ensures Linked()
      ensures freed == old(freed) + if old(cells) == [] then 0 else 1
      ensures cells == if old(cells) == [] then [] else old(cells)[1..]
      ensures attrs == if old(cells) == [] then [] else old(attrs)[1..]
    {
      if root != null {
        root := root.next;
        cells, attrs := cells[1..], attrs[1..];
        freed := freed + 1;
      }
    }
  }

  /** With counters in step, the allocator whose turn it is gives the next attribute. */
  lemma Turn(x: nat, cnt1: nat, cnt2: nat, d: nat)
    requires x <= 1 && x == cnt1 - cnt2 && d <= cnt1 + cnt2
    ensures (x + 1) % 2 == 1 - x
    ensures Window(d, cnt1 + cnt2 + 1) == Window(d, cnt1 + cnt2) + [if x == 0 then cnt1 else cnt2]
  {
    assert (cnt1 + cnt2) / 2 == if x == 0 then cnt1 else cnt2;
  }

  /** The static variables of alloc, alloc1 and alloc2. */
  class Allocator {
    var cnt1: nat
    var cnt2: nat
    var x: nat
    /** How many cells were ever allocated. */
    ghost var made: nat

    ghost predicate Valid()
      reads this
    {
      made == cnt1 + cnt2 && x == cnt1 - cnt2 && x <= 1
    }

    constructor ()
      ensures Valid() && made == 0
    {
      cnt1, cnt2, x, made := 0, 0, 0, 0;
    }

    /** The list holds, in order, what was allocated and not yet freed. */
    ghost predicate Feeds(list: List)
      reads this, list, list.cells
    {
      Valid() && list.Linked() && list.freed <= made && list.attrs == Window(list.freed, made)
    }

    method Alloc1(list: List)
      requires list.Linked()
      modifies this`cnt1, list`root, list`cells, list`attrs, list.cells
      ensures list.Linked() && list.attrs == old(list.attrs) + [old(cnt1)] && cnt1 == old(cnt1) + 1
      ensures list.GrewFrom(old(list.cells)) && fresh(list.cells[|old(list.cells)|])
    {
      list.Append(cnt1);
      cnt1 := cnt1 + 1;
    }

    method Alloc2(list: List)
      requires list.Linked()
      modifies this`cnt2, list`root, list`cells, list`attrs, list.cells
      ensures list.Linked() && list.attrs == old(list.attrs) + [old(cnt2)] && cnt2 == old(cnt2) + 1
      ensures list.GrewFrom(old(list.cells)) && fresh(list.cells[|old(list.cells)|])
    {
      list.Append(cnt2);
      cnt2 := cnt2 + 1;
    }

    method Alloc(list: List)
      requires Feeds(list)
      modifies this, list`root, list`cells, list`attrs, list.cells
      ensures Feeds(list) && made == old(made) + 1
      ensures list.GrewFrom(old(list.cells)) && fresh(list.cells[|old(list.cells)|])
    {
      Turn(x, cnt1, cnt2, list.freed);
      if x == 0 {
        Alloc1(list);
      } else {
        Alloc2(list);
      }
      assert list.attrs == Window(list.freed, made + 1);
      x := (x + 1) % 2;
      assert x == 1 - old(x);
      made := made + 1;
    }

    method Dealloc(list: List)
      requires Feeds(list)
      modifies list
      ensures Feeds(list) && made == old(made)
      ensures list.freed == old(list.freed) + if old(list.cells) == [] then 0 else 1
    {
      if list.freed < made {
        WindowShrinks(list.freed, made);
      }
      list.Dealloc();
    }
  }
}
