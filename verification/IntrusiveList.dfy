/**
 * include/list.h: circular doubly linked lists threaded through the nodes.  A list is a
 * ring of distinct nodes, the list head first and then the items in order; a node that is
 * in no list has null links.
 */
module IntrusiveList {

  class Node {
    var prev: Node?
    var next: Node?

    /** LIST_INITIAL_CLEARED_VALUE */
    constructor ()
      ensures prev == null && next == null
    {
      prev, next := null, null;
    }
  }

  /** The index after `i` in a ring of `n`. */
  function After(i: int, n: int): int {
    if i + 1 == n then 0 else i + 1
  }

  /** Neighbours point at each other all around the ring. */
  ghost predicate Ring(r: seq<Node>)
    reads r
  {
    && |r| > 0
    && (forall i, j :: 0 <= i < j < |r| ==> r[i] != r[j])
    && (forall i :: 0 <= i < |r| ==> r[i].next == r[After(i, |r|)] && r[After(i, |r|)].prev == r[i])
  }

  /** list_initialize */
  method Initialize(list: Node)
    modifies list
    ensures Ring([list])
  {
    list.prev, list.next := list, list;
  }

  /** list_in_list */
  predicate InList(item: Node)
    reads item
  {
    !(item.prev == null && item.next == null)
  }

  /** Every node of a ring is in a list, as its links say. */
  lemma RingInList(r: seq<Node>, i: nat)
    requires Ring(r) && i < |r|
    ensures InList(r[i])
  {
    assert r[i].next == r[After(i, |r|)];
  }

  function Insert(r: seq<Node>, k: nat, item: Node): seq<Node>
    requires k <= |r|
  {
    r[..k] + [item] + r[k..]
  }

  /** list_add_head, and list_add_after for an entry that is not the list head: `item` comes after `list`. */
  method AddHead(list: Node, item: Node, ghost r: seq<Node>, ghost i: nat)
    requires Ring(r) && i < |r| && list == r[i] && item !in r
    modifies r, item
    ensures Ring(Insert(r, i + 1, item)) && InList(item)
  {
    assert list.next == r[After(i, |r|)];
    Distinct(r);
    item.next := list.next;
    item.prev := list;
    list.next.prev := item;
    list.next := item;
    Inserted(r, i, item);
  }

  /** Around the place of the insertion the links are new, elsewhere as in a ring. */
  lemma Inserted(r: seq<Node>, i: nat, item: Node)
    requires i < |r| && item !in r && forall k, l :: 0 <= k < l < |r| ==> r[k] != r[l]
    requires r[i].next == item && item.prev == r[i] && item.next == r[After(i, |r|)] && r[After(i, |r|)].prev == item
    requires forall k :: 0 <= k < |r| && k != i ==> r[k].next == r[After(k, |r|)] && r[After(k, |r|)].prev == r[k]
    ensures Ring(Insert(r, i + 1, item))
  {
    var r' := Insert(r, i + 1, item);
    var n := |r'|;
    forall k | 0 <= k < n
      ensures r'[k].next == r'[After(k, n)] && r'[After(k, n)].prev == r'[k]
    {
      if k <= i {
        assert r'[k] == r[k];
      } else if k > i + 1 {
        assert r'[k] == r[k - 1];
      }
    }
    assert forall k :: 0 <= k < |r| ==> r[k] in r;
  }

  lemma Distinct(r: seq<Node>)
    requires Ring(r)
    ensures forall k, l :: 0 <= k < |r| && 0 <= l < |r| && k != l ==> r[k] != r[l]
    ensures forall k :: 0 <= k < |r| ==> r[k] in r
  {
  }

  /** The index before `i` in a ring of `n`. */
  function Before(i: int, n: int): int {
    if i == 0 then n - 1 else i - 1
  }

  /** list_add_tail, and list_add_before for an entry that is not the list head: `item` comes before `list`. */
  method AddTail(list: Node, item: Node, ghost r: seq<Node>, ghost i: nat)
    requires Ring(r) && i < |r| && list == r[i] && item !in r
    modifies r, item
    ensures Ring(Insert(r, Before(i, |r|) + 1, item)) && InList(item)
    ensures Insert(r, Before(i, |r|) + 1, item) == if i == 0 then r + [item] else Insert(r, i, item)
  {
    ghost var j := Before(i, |r|);
    assert After(j, |r|) == i && r[j].next == list && list.prev == r[j];
    Distinct(r);
    item.prev := list.prev;
    item.next := list;
    list.prev.next := item;
    list.prev := item;
    Inserted(r, j, item);
  }

  function Without(r: seq<Node>, i: nat): seq<Node>
    requires i < |r|
  {
    r[..i] + r[i + 1..]
  }

  /** list_delete of the item at index `i`: it is in no list afterwards. */
  method Delete(item: Node, ghost r: seq<Node>, ghost i: nat)
    requires Ring(r) && 0 < i < |r| && item == r[i]
    modifies r
    ensures Ring(Without(r, i)) && !InList(item) && item !in Without(r, i)
  {
    assert r[i - 1].next == item && item.prev == r[i - 1];
    assert item.next == r[After(i, |r|)];
    Distinct(r);
    item.next.prev := item.prev;
    item.prev.next := item.next;
    item.prev, item.next := null, null;
    Deleted(r, i);
  }

  lemma Deleted(r: seq<Node>, i: nat)
    requires 0 < i < |r| && forall k, l :: 0 <= k < l < |r| ==> r[k] != r[l]
    requires r[i - 1].next == r[After(i, |r|)] && r[After(i, |r|)].prev == r[i - 1]
    requires forall k :: 0 <= k < |r| && k != i && k != i - 1 ==> r[k].next == r[After(k, |r|)] && r[After(k, |r|)].prev == r[k]
    ensures Ring(Without(r, i)) && r[i] !in Without(r, i)
  {
    var r' := Without(r, i);
    var n := |r'|;
    forall k | 0 <= k < n
      ensures r'[k].next == r'[After(k, n)] && r'[After(k, n)].prev == r'[k]
    {
      assert r'[k] == r[if k < i then k else k + 1];
    }
  }

  /** list_remove_head */
  method RemoveHead(list: Node, ghost r: seq<Node>) returns (item: Node?)
    requires Ring(r) && list == r[0]
    modifies r
    ensures |r| == 1 ==> item == null && Ring(r)
    ensures |r| > 1 ==> item == r[1] && Ring([r[0]] + r[2..]) && !InList(item) && item !in [r[0]] + r[2..]
  {
    assert list.next == r[After(0, |r|)];
    Distinct(r);
    if list.next != list {
      item := list.next;
      Delete(item, r, 1);
      assert Without(r, 1) == [r[0]] + r[2..];
    } else {
      item := null;
    }
  }

  /** list_remove_tail */
  method RemoveTail(list: Node, ghost r: seq<Node>) returns (item: Node?)
    requires Ring(r) && list == r[0]
    modifies r
    ensures |r| == 1 ==> item == null && Ring(r)
    ensures |r| > 1 ==> item == r[|r| - 1] && Ring(r[..|r| - 1]) && !InList(item) && item !in r[..|r| - 1]
  {
    assert After(|r| - 1, |r|) == 0 && r[0].prev == r[|r| - 1];
    Distinct(r);
    if list.prev != list {
      item := list.prev;
      Delete(item, r, |r| - 1);
      assert Without(r, |r| - 1) == r[..|r| - 1];
    } else {
      item := null;
    }
  }

  /** list_peek_head */
  method PeekHead(list: Node, ghost r: seq<Node>) returns (item: Node?)
    requires Ring(r) && list == r[0]
    ensures item == if |r| == 1 then null else r[1]
  {
    assert list.next == r[After(0, |r|)];
    Distinct(r);
    if list.next != list {
      item := list.next;
    } else {
      item := null;
    }
  }

  /** list_length: the number of items */
  method Length(list: Node, ghost r: seq<Node>) returns (cnt: nat)
    requires Ring(r) && list == r[0]
    ensures cnt == |r| - 1
  {
    cnt := 0;
    var node := list.next;
    assert node == r[After(0, |r|)];
    Distinct(r);
    while node != list
      invariant cnt < |r| && node == r[After(cnt, |r|)]
      decreases |r| - cnt
    {
      assert r[cnt + 1].next == r[After(cnt + 1, |r|)];
      cnt := cnt + 1;
      node := node.next;
    }
  }

  /** The links determine the order: two rings with the same head are the same sequence. */
  lemma {:induction false} SameOrder(r: seq<Node>, s: seq<Node>, k: nat)
    requires Ring(r) && Ring(s) && r[0] == s[0] && k < |r| && k < |s|
    ensures r[k] == s[k]
  {
    if k > 0 {
      SameOrder(r, s, k - 1);
      assert r[k - 1].next == r[After(k - 1, |r|)];
    }
  }

  lemma RingUnique(r: seq<Node>, s: seq<Node>)
    requires Ring(r) && Ring(s) && r[0] == s[0]
    ensures r == s
  {
    var n := if |r| <= |s| then |r| else |s|;
    forall k | 0 <= k < n
      ensures r[k] == s[k]
    {
      SameOrder(r, s, k);
    }
    assert r[n - 1].next == r[After(n - 1, |r|)] && s[n - 1].next == s[After(n - 1, |s|)];
    Distinct(r);
    Distinct(s);
  }
}
