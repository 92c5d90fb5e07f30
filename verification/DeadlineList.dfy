// The doubly linked expiry list that original reassembly and the group table
// thread through the keys of a map; ID 0 stands for no neighbour.
module DeadlineList {
  import opened Words

  datatype Link = Link(previous: U64, next: U64)

  // The k-th ID of the list, or 0 past either end.
  function IdAt(order: seq<U64>, k: int): U64 {
    if 0 <= k < |order| then order[k] else 0
  }

  predicate Distinct(order: seq<U64>) {
    && 0 !in order
    && forall j, k :: 0 <= j < k < |order| ==> order[j] != order[k]
  }

  predicate LinkedAt(links: map<U64, Link>, order: seq<U64>, k: nat)
    requires k < |order|
  {
    order[k] in links && links[order[k]] == Link(IdAt(order, k - 1), IdAt(order, k + 1))
  }

  // The links, read forwards or backwards, enumerate `order` and nothing else.
  ghost predicate Linked(links: map<U64, Link>, head: U64, tail: U64, order: seq<U64>) {
    && Distinct(order)
    && (forall id :: id in links <==> id in order)
    && head == IdAt(order, 0) && tail == IdAt(order, |order| - 1)
    && forall k :: 0 <= k < |order| ==> LinkedAt(links, order, k)
  }

  function IndexOf(order: seq<U64>, id: U64): (k: nat)
    requires id in order
    ensures k < |order| && order[k] == id
  {
    if order[0] == id then 0 else 1 + IndexOf(order[1..], id)
  }

  function Without(order: seq<U64>, id: U64): seq<U64>
    requires id in order
  {
    order[..IndexOf(order, id)] + order[IndexOf(order, id) + 1..]
  }

  lemma WithoutKeeps(order: seq<U64>, id: U64)
    requires Distinct(order) && id in order
    ensures Distinct(Without(order, id)) && |Without(order, id)| == |order| - 1
    ensures forall x :: x in Without(order, id) <==> x in order && x != id
  {
    var k, rest := IndexOf(order, id), Without(order, id);
    assert forall j :: 0 <= j < |rest| ==> rest[j] == order[if j < k then j else j + 1];
    assert forall j :: 0 <= j < |order| && j != k ==> order[j] == rest[if j < k then j else j - 1];
    assert forall j :: 0 <= j < |order| && order[j] == id ==> j == k;
  }

  // The k-th ID of the shortened list.
  lemma WithoutAt(order: seq<U64>, id: U64, k: nat)
    requires Distinct(order) && id in order && k < |order| - 1
    ensures var j := if k < IndexOf(order, id) then k else k + 1;
      |Without(order, id)| == |order| - 1 && Without(order, id)[k] == order[j] && order[j] != id && order[j] != 0
  {
  }

  // The list after its new last element was linked in.
  function Appended(links: map<U64, Link>, tail: U64, id: U64): map<U64, Link>
    requires tail != 0 ==> tail in links
  {
    var m := if tail == 0 then links else links[tail := links[tail].(next := id)];
    m[id := Link(tail, 0)]
  }

  lemma AppendedIsLinked(links: map<U64, Link>, head: U64, tail: U64, order: seq<U64>, id: U64)
    requires Linked(links, head, tail, order) && id != 0 && id !in order
    ensures tail != 0 ==> tail in links
    ensures Linked(Appended(links, tail, id), if tail == 0 then id else head, id, order + [id])
  {
    var n, next := |order|, order + [id];
    assert n > 0 ==> LinkedAt(links, order, n - 1);
    forall k | 0 <= k < |next|
      ensures LinkedAt(Appended(links, tail, id), next, k)
    {
      assert k < n ==> LinkedAt(links, order, k);
    }
    assert forall x :: x in next <==> x in order || x == id;
  }

  // The list after an element was spliced out between its neighbours.
  function Spliced(links: map<U64, Link>, id: U64): (rest: map<U64, Link>)
    requires id in links
    requires links[id].previous != 0 ==> links[id].previous in links
    requires links[id].next != 0 ==> links[id].next in links
    ensures rest.Keys == links.Keys - {id}
  {
    var a := links[id];
    var m := if a.previous == 0 then links else links[a.previous := links[a.previous].(next := a.next)];
    var r := if a.next == 0 then m else m[a.next := m[a.next].(previous := a.previous)];
    r - {id}
  }

  lemma NeighboursLinked(links: map<U64, Link>, head: U64, tail: U64, order: seq<U64>, id: U64)
    requires Linked(links, head, tail, order) && id in order
    ensures id in links && id != 0
    ensures links[id] == Link(IdAt(order, IndexOf(order, id) - 1), IdAt(order, IndexOf(order, id) + 1))
    ensures links[id].previous != 0 ==> links[id].previous in links && links[id].previous != id
    ensures links[id].next != 0 ==> links[id].next in links && links[id].next != id
    ensures links[id].previous == 0 <==> IndexOf(order, id) == 0
    ensures links[id].next == 0 <==> IndexOf(order, id) == |order| - 1
    ensures links[id].next != links[id].previous || links[id].next == 0
  {
    assert LinkedAt(links, order, IndexOf(order, id));
  }

  // Who stands beside the k-th ID of the shortened list.
  lemma NeighboursWithout(order: seq<U64>, id: U64, k: nat)
    requires Distinct(order) && id in order && k < |order| - 1
    ensures |Without(order, id)| == |order| - 1
    ensures var i: int, j: int := IndexOf(order, id), if k < IndexOf(order, id) then k else k + 1;
      && order[j] != id && order[j] != 0 && Without(order, id)[k] == order[j]
      && (order[j] == IdAt(order, i + 1) <==> j == i + 1)
      && (order[j] == IdAt(order, i - 1) <==> j == i - 1)
      && IdAt(Without(order, id), k - 1) == IdAt(order, if j == i + 1 then i - 1 else j - 1)
      && IdAt(Without(order, id), k + 1) == IdAt(order, if j == i - 1 then i + 1 else j + 1)
  {
    hide Distinct, Without, IndexOf, IdAt;
    var i: int, j: int := IndexOf(order, id), if k < IndexOf(order, id) then k else k + 1;
    WithoutAt(order, id, k);
    OnlyThere(order, j, i + 1);
    OnlyThere(order, j, i - 1);
    BesideWithout(order, id, k - 1);
    BesideWithout(order, id, k + 1);
  }

  lemma OnlyThere(order: seq<U64>, j: nat, i: int)
    requires Distinct(order) && j < |order|
    ensures order[j] == IdAt(order, i) <==> j == i
  {
  }

  lemma BesideWithout(order: seq<U64>, id: U64, k: int)
    requires Distinct(order) && id in order && -1 <= k <= |order| - 1
    ensures IdAt(Without(order, id), k) == IdAt(order, if k < IndexOf(order, id) then k else k + 1)
  {
    hide Distinct, IndexOf, Without;
    if 0 <= k < |order| - 1 {
      WithoutAt(order, id, k);
    } else {
      WithoutKeeps(order, id);
    }
  }

  lemma SplicedLink(links: map<U64, Link>, id: U64, x: U64)
    requires id in links && x in links && x != id && x != 0
    requires links[id].previous != 0 ==> links[id].previous in links
    requires links[id].next != 0 ==> links[id].next in links
    ensures Spliced(links, id)[x] == Link(
      if x == links[id].next then links[id].previous else links[x].previous,
      if x == links[id].previous then links[id].next else links[x].next)
  {
  }

  lemma SplicedAt(links: map<U64, Link>, head: U64, tail: U64, order: seq<U64>, id: U64, k: nat)
    requires Linked(links, head, tail, order) && id in order && k < |order| - 1
    requires id in links && (links[id].previous != 0 ==> links[id].previous in links)
    requires links[id].next != 0 ==> links[id].next in links
    ensures LinkedAt(Spliced(links, id), Without(order, id), k)
  {
    hide Spliced, Without, IdAt;
    var j := if k < IndexOf(order, id) then k else k + 1;
    NeighboursLinked(links, head, tail, order, id);
    NeighboursWithout(order, id, k);
    assert LinkedAt(links, order, j);
    SplicedLink(links, id, order[j]);
  }

  lemma EndsWithout(order: seq<U64>, id: U64)
    requires id in order
    ensures IdAt(Without(order, id), 0) == if IndexOf(order, id) == 0 then IdAt(order, 1) else order[0]
    ensures IdAt(Without(order, id), |order| - 2)
      == if IndexOf(order, id) == |order| - 1 then IdAt(order, |order| - 2) else order[|order| - 1]
  {
  }

  lemma SplicedIsLinked(links: map<U64, Link>, head: U64, tail: U64, order: seq<U64>, id: U64)
    requires Linked(links, head, tail, order) && id in order
    requires id in links && (links[id].previous != 0 ==> links[id].previous in links)
    requires links[id].next != 0 ==> links[id].next in links
    ensures Linked(
      Spliced(links, id), if links[id].previous == 0 then links[id].next else head,
      if links[id].next == 0 then links[id].previous else tail, Without(order, id))
  {
    hide Spliced, LinkedAt, Distinct, Without, IndexOf;
    var rest := Without(order, id);
    NeighboursLinked(links, head, tail, order, id);
    WithoutKeeps(order, id);
    EndsWithout(order, id);
    forall k | 0 <= k < |rest|
      ensures LinkedAt(Spliced(links, id), rest, k)
    {
      SplicedAt(links, head, tail, order, id, k);
    }
    forall x
      ensures x in Spliced(links, id) <==> x in rest
    {
      assert x in Spliced(links, id) <==> x in links && x != id;
    }
  }
}
