// internal/fec/expiry_heap.go and the sifting of container/heap: deadlines in an
// array, with the position of each entry kept beside it.
module ExpiryHeap {
  datatype Entry = Entry(id: nat, deadline: int) {
    // Less; the Session is the same for all entries.
    predicate Less(e: Entry) {
      deadline < e.deadline || (deadline == e.deadline && id < e.id)
    }
  }

  predicate IsLeast(e: Entry, entries: set<Entry>) {
    e in entries && forall x :: x in entries && x != e ==> e.Less(x)
  }

  function Parent(i: int): int
    requires i > 0
  {
    (i - 1) / 2
  }

  // Slot i is in order with its parent.
  predicate InOrder(s: seq<Entry>, i: int)
    requires 0 < i < |s|
  {
    !s[i].Less(s[Parent(i)])
  }

  // Among the first n slots all are in order, except perhaps slot `up` with its
  // parent and the children of slot `down`.
  predicate OrderedBut(s: seq<Entry>, n: nat, up: int, down: int)
    requires n <= |s|
  {
    forall i :: 0 < i < n && i != up && Parent(i) != down ==> InOrder(s, i)
  }

  // The children of slot i are in order with the parent of slot i.
  predicate Bridged(s: seq<Entry>, n: nat, i: int)
    requires n <= |s|
  {
    0 < i < n ==> forall c :: 0 < c < n && Parent(c) == i ==> !s[c].Less(s[Parent(i)])
  }

  predicate Ordered(s: seq<Entry>) {
    OrderedBut(s, |s|, -1, -1)
  }

  predicate Indexed(s: seq<Entry>, index: map<nat, int>) {
    && (forall i :: 0 <= i < |s| ==> s[i].id in index && index[s[i].id] == i)
    && (forall id :: id in index && index[id] >= 0 ==> index[id] < |s| && s[index[id]].id == id)
  }

  function Swapped(s: seq<Entry>, i: int, j: int): (r: seq<Entry>)
    requires 0 <= i < |s| && 0 <= j < |s|
    ensures |r| == |s|
  {
    s[i := s[j]][j := s[i]]
  }

  function Elements(s: seq<Entry>): set<Entry> {
    set e | e in s
  }

  lemma SwapKeeps(s: seq<Entry>, i: int, j: int)
    requires 0 <= i < |s| && 0 <= j < |s|
    ensures Elements(Swapped(s, i, j)) == Elements(s)
  {
    var r := Swapped(s, i, j);
    forall e
      ensures e in s <==> e in r
    {
      if e in s {
        var k :| 0 <= k < |s| && s[k] == e;
        assert r[if k == i then j else if k == j then i else k] == e;
      }
      if e in r {
        var k :| 0 <= k < |r| && r[k] == e;
        assert s[if k == i then j else if k == j then i else k] == e;
      }
    }
  }

  /** The root of an ordered array is less than every other entry. */
  lemma {:induction false} RootIsLeast(s: seq<Entry>, i: int)
    requires Ordered(s) && 0 <= i < |s|
    ensures !s[i].Less(s[0])
    decreases i
  {
    if i > 0 {
      RootIsLeast(s, Parent(i));
      assert InOrder(s, i);
    }
  }

  lemma RootIsLeastOf(s: seq<Entry>, index: map<nat, int>)
    requires Ordered(s) && Indexed(s, index) && s != []
    ensures IsLeast(s[0], Elements(s))
  {
    forall x | x in Elements(s) && x != s[0]
      ensures s[0].Less(x)
    {
      var i :| 0 <= i < |s| && s[i] == x;
      RootIsLeast(s, i);
    }
  }

  // Sifting up: slot j trades places with its parent.
  lemma RisesInOrder(s: seq<Entry>, n: nat, j: int)
    requires n <= |s| && 0 < j < n && OrderedBut(s, n, j, -1) && Bridged(s, n, j) && s[j].Less(s[Parent(j)])
    ensures var r := Swapped(s, Parent(j), j);
      OrderedBut(r, n, Parent(j), -1) && Bridged(r, n, Parent(j))
  {
    var p := Parent(j);
    var r := Swapped(s, p, j);
    forall i | 0 < i < n && i != p
      ensures InOrder(r, i)
    {
      assert i != j ==> InOrder(s, i);
      assert Parent(i) == j ==> !s[i].Less(s[p]);
    }
    if p > 0 {
      assert InOrder(s, p);
      forall c | 0 < c < n && Parent(c) == p
        ensures !r[c].Less(r[Parent(p)])
      {
        assert c != j ==> InOrder(s, c);
      }
    }
  }

  // The child that slot i trades places with when it sinks.
  function Child(s: seq<Entry>, i: nat, n: nat): nat
    requires n <= |s| && 2 * i + 1 < n
  {
    if 2 * i + 2 < n && s[2 * i + 2].Less(s[2 * i + 1]) then 2 * i + 2 else 2 * i + 1
  }

  lemma SinksInOrder(s: seq<Entry>, n: nat, i: nat, up: int)
    requires n <= |s| && 2 * i + 1 < n && OrderedBut(s, n, up, i) && Bridged(s, n, i) && up <= i
    requires s[Child(s, i, n)].Less(s[i])
    ensures var j := Child(s, i, n);
      var r := Swapped(s, i, j);
      OrderedBut(r, n, if up == i then -1 else up, j) && Bridged(r, n, j) && r[..i] == s[..i]
  {
    var j := Child(s, i, n);
    var r := Swapped(s, i, j);
    var left := if up == i then -1 else up;
    assert Parent(j) == i;
    forall k | 0 < k < n && k != left && Parent(k) != j
      ensures InOrder(r, k)
    {
      if k == i {
        assert Parent(j) == i ==> !s[j].Less(s[Parent(i)]);
      } else if Parent(k) != i {
        assert InOrder(s, k);
      }
    }
    forall c | 0 < c < n && Parent(c) == j
      ensures !r[c].Less(r[i])
    {
      assert InOrder(s, c);
    }
  }

  class Heap {
    var slots: seq<Entry>
    // The index field of each entry; -1 once it has left.
    var index: map<nat, int>

    ghost predicate Valid()
      reads this
    {
      Indexed(slots, index) && Ordered(slots)
    }

    ghost function Entries(): set<Entry>
      reads this
    {
      Elements(slots)
    }

    constructor ()
      ensures Valid() && Entries() == {}
    {
      slots, index := [], map[];
    }

    method Swap(i: nat, j: nat)
      requires i < |slots| && j < |slots| && Indexed(slots, index)
      modifies this
      ensures slots == Swapped(old(slots), i, j) && Indexed(slots, index) && Entries() == old(Entries())
      ensures index.Keys == old(index).Keys
    {
      SwapKeeps(slots, i, j);
      slots := slots[i := slots[j]][j := slots[i]];
      index := index[slots[i].id := i];
      index := index[slots[j].id := j];
    }

    // Lifts slot start among the first n.
    method Up(start: nat, n: nat)
      requires start < n <= |slots| && Indexed(slots, index) && OrderedBut(slots, n, start, -1) && Bridged(slots, n, start)
      modifies this
      ensures |slots| == |old(slots)| && index.Keys == old(index).Keys && slots[n..] == old(slots)[n..]
      ensures Indexed(slots, index) && OrderedBut(slots, n, -1, -1) && Entries() == old(Entries())
    {
      hide Indexed, Elements, OrderedBut, Bridged;
      var j := start;
      while j > 0
        invariant 0 <= j < n <= |slots| == |old(slots)| && Indexed(slots, index) && Entries() == old(Entries())
        invariant OrderedBut(slots, n, j, -1) && Bridged(slots, n, j)
        invariant index.Keys == old(index).Keys && slots[n..] == old(slots)[n..]
        decreases j
      {
        var i := (j - 1) / 2;
        if !slots[j].Less(slots[i]) {
          break;
        }
        RisesInOrder(slots, n, j);
        TailKept(slots, i, j, n);
        Swap(i, j);
        j := i;
      }
      Settles(slots, n, j);
    }

    // Sinks slot i0 among the first n; up is i0 when it may be out of order with its
    // parent too.
    method Down(i0: nat, n: nat) returns (moved: bool)
      requires i0 <= n <= |slots| && Indexed(slots, index) && OrderedBut(slots, n, i0, i0) && Bridged(slots, n, i0)
      modifies this
      ensures Indexed(slots, index) && Entries() == old(Entries()) && |slots| == |old(slots)| && index.Keys == old(index).Keys
      ensures slots[n..] == old(slots)[n..]
      ensures moved ==> OrderedBut(slots, n, -1, -1)
      ensures !moved ==> slots == old(slots) && OrderedBut(slots, n, i0, -1)
    {
      hide Indexed, Elements, InOrder, OrderedBut, Bridged, Child;
      var i := i0;
      ghost var up: int := i0;
      while 2 * i + 1 < n
        invariant i0 <= i <= n <= |slots| == |old(slots)| && Indexed(slots, index) && Entries() == old(Entries())
        invariant index.Keys == old(index).Keys && slots[n..] == old(slots)[n..]
        invariant OrderedBut(slots, n, up, i) && Bridged(slots, n, i)
        invariant if i == i0 then slots == old(slots) && up == i0 else up == -1
        decreases n - i
      {
        var j := 2 * i + 1;
        if j + 1 < n && slots[j + 1].Less(slots[j]) {
          j := j + 1;
        }
        IsChild(slots, i, n, j);
        if !slots[j].Less(slots[i]) {
          Rests(slots, n, i, up);
          return i > i0;
        }
        SinksInOrder(slots, n, i, up);
        TailKept(slots, i, j, n);
        Swap(i, j);
        up := -1;
        i := j;
      }
      IsLeaf(slots, n, i, up);
      moved := i > i0;
    }

    // The array is dropped.
    method Clear()
      modifies this
      ensures Valid() && slots == [] && Entries() == {}
    {
      slots, index := [], map[];
    }

    // heap.Push
    method Push(e: Entry)
      requires Valid() && (e.id in index ==> index[e.id] < 0)
      modifies this
      ensures Valid() && Entries() == old(Entries()) + {e} && index.Keys == old(index).Keys + {e.id}
    {
      Appended(slots, index, e);
      index := index[e.id := |slots|];
      slots := slots + [e];
      Up(|slots| - 1, |slots|);
    }

    // Pop of the last slot.
    method DropLast() returns (e: Entry)
      requires slots != [] && Indexed(slots, index)
      modifies this
      ensures e == old(slots)[|old(slots)| - 1] && slots == old(slots)[..|old(slots)| - 1] && Indexed(slots, index)
      ensures Entries() == old(Entries()) - {e} && e.id in old(index) && index == old(index)[e.id := -1]
    {
      var last := |slots| - 1;
      e := slots[last];
      Shortened(slots, index);
      index := index[e.id := -1];
      slots := slots[..last];
    }

    // heap.Pop: the least entry.
    method Pop() returns (e: Entry)
      requires Valid() && slots != []
      modifies this
      ensures Valid() && IsLeast(e, old(Entries())) && Entries() == old(Entries()) - {e}
      ensures index.Keys == old(index).Keys && e.id in index && index[e.id] == -1
    {
      RootIsLeastOf(slots, index);
      var n := |slots| - 1;
      Misplaced(slots, 0);
      Swap(0, n);
      var _ := Down(0, n);
      RootSettles(slots, n);
      e := DropLast();
    }

    // heap.Remove of the entry at slot i.
    method Remove(i: nat) returns (e: Entry)
      requires Valid() && i < |slots|
      modifies this
      ensures Valid() && e == old(slots)[i] && Entries() == old(Entries()) - {e}
      ensures index.Keys == old(index).Keys && e.id in index && index[e.id] == -1
    {
      hide Indexed, Elements, InOrder, OrderedBut, Bridged;
      var n := |slots| - 1;
      Misplaced(slots, i);
      if n != i {
        Swap(i, n);
        var moved := Down(i, n);
        if !moved {
          assert slots == Swapped(old(slots), i, n);
          Up(i, n);
        }
      }
      LastStays(slots, n);
      e := DropLast();
    }
  }

  /** Every entry's index is the slot that holds it, after any push, pop or removal. */
  lemma EveryIndexIsTrue(h: Heap)
    requires h.Valid()
    ensures forall e :: e in h.Entries() ==> e.id in h.index && 0 <= h.index[e.id] < |h.slots| && h.slots[h.index[e.id]] == e
    ensures forall id :: id in h.index && h.index[id] >= 0 ==> exists e :: e in h.Entries() && e.id == id
    ensures h.slots != [] ==> IsLeast(h.slots[0], h.Entries())
  {
    if h.slots != [] {
      RootIsLeastOf(h.slots, h.index);
    }
    forall id | id in h.index && h.index[id] >= 0
      ensures exists e :: e in h.Entries() && e.id == id
    {
      assert h.slots[h.index[id]] in h.Entries();
    }
  }

  lemma Settles(s: seq<Entry>, n: nat, j: nat)
    requires j < n <= |s| && OrderedBut(s, n, j, -1) && (j > 0 ==> InOrder(s, j))
    ensures OrderedBut(s, n, -1, -1)
  {
  }

  lemma RootSettles(s: seq<Entry>, n: nat)
    requires n <= |s| && (OrderedBut(s, n, 0, -1) || OrderedBut(s, n, -1, -1))
    ensures OrderedBut(s, n, -1, -1) && Ordered(s[..n])
  {
    assert forall i :: 0 < i < n ==> (InOrder(s, i) <==> InOrder(s[..n], i));
  }

  lemma LastStays(s: seq<Entry>, n: nat)
    requires n + 1 == |s| && (OrderedBut(s, n, -1, -1))
    ensures Ordered(s[..n])
  {
    assert forall i :: 0 < i < n ==> (InOrder(s, i) <==> InOrder(s[..n], i));
  }

  lemma IsChild(s: seq<Entry>, i: nat, n: nat, j: nat)
    requires n <= |s| && 2 * i + 1 < n
    requires j == if 2 * i + 2 < n && s[2 * i + 2].Less(s[2 * i + 1]) then 2 * i + 2 else 2 * i + 1
    ensures j == Child(s, i, n) < n && i < j
  {
  }

  // A slot that is in order with its lesser child is in order with both.
  lemma Rests(s: seq<Entry>, n: nat, i: nat, up: int)
    requires n <= |s| && 2 * i + 1 < n && OrderedBut(s, n, up, i) && !s[Child(s, i, n)].Less(s[i])
    ensures OrderedBut(s, n, up, -1)
  {
    forall k | 0 < k < n && k != up
      ensures InOrder(s, k)
    {
      assert Parent(k) == i ==> k == 2 * i + 1 || k == 2 * i + 2;
    }
  }

  lemma IsLeaf(s: seq<Entry>, n: nat, i: nat, up: int)
    requires n <= |s| && 2 * i + 1 >= n && OrderedBut(s, n, up, i)
    ensures OrderedBut(s, n, up, -1)
  {
  }

  lemma TailKept(s: seq<Entry>, i: nat, j: nat, n: nat)
    requires i < n <= |s| && j < n
    ensures Swapped(s, i, j)[n..] == s[n..]
  {
  }

  // The last slot has taken the place of slot i.
  lemma Misplaced(s: seq<Entry>, i: nat)
    requires Ordered(s) && i < |s|
    ensures var n := |s| - 1;
      var r := Swapped(s, i, n);
      OrderedBut(r, n, i, i) && Bridged(r, n, i) && (i == n ==> OrderedBut(s, n, -1, -1))
  {
    var n := |s| - 1;
    var r := Swapped(s, i, n);
    assert forall k :: 0 < k < n ==> InOrder(s, k);
    assert forall k :: 0 < k < n && k != i && Parent(k) != i ==> InOrder(r, k);
    if 0 < i < n {
      forall c | 0 < c < n && Parent(c) == i
        ensures !r[c].Less(r[Parent(i)])
      {
        assert InOrder(s, c) && InOrder(s, i);
      }
    }
  }

  lemma Appended(s: seq<Entry>, index: map<nat, int>, e: Entry)
    requires Indexed(s, index) && Ordered(s) && (e.id in index ==> index[e.id] < 0)
    ensures Indexed(s + [e], index[e.id := |s|]) && Elements(s + [e]) == Elements(s) + {e}
    ensures OrderedBut(s + [e], |s| + 1, |s|, -1) && Bridged(s + [e], |s| + 1, |s|)
  {
    assert forall i :: 0 < i < |s| ==> InOrder(s, i);
    assert forall i :: 0 < i < |s| ==> InOrder(s + [e], i);
  }

  lemma Shortened(s: seq<Entry>, index: map<nat, int>)
    requires s != [] && Indexed(s, index)
    ensures var last := |s| - 1;
      && Indexed(s[..last], index[s[last].id := -1]) && Elements(s[..last]) == Elements(s) - {s[last]}
      && s[last].id in index
  {
    var last := |s| - 1;
    assert forall i :: 0 <= i < last ==> s[i].id != s[last].id;
    assert forall e :: e in s <==> e in s[..last] || e == s[last];
  }
}
