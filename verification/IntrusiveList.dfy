/** The intrusive circular doubly linked list of libusbi.h. A list is a head node plus the nodes
    reached from it by following `next`; a node carries the entry it is embedded in, which is what
    the list_entry macro recovers. */
module IntrusiveList {
  datatype Option<+T> = None | Some(value: T)

  class ListHead<T> {
    var container: Option<T>
    var prev: ListHead?<T>
    var next: ListHead?<T>

    constructor (container: Option<T>)
      ensures this.container == container && prev == null && next == null
    {
      this.container := container;
      prev, next := null, null;
    }
  }

  ghost predicate Distinct<T>(s: seq<T>) {
    forall i, j :: 0 <= i < j < |s| ==> s[i] != s[j]
  }

  /** The first and the last node of a list, the head standing in for both when it is empty. */
  ghost function First<T>(head: ListHead<T>, nodes: seq<ListHead<T>>): ListHead<T> {
    if nodes == [] then head else nodes[0]
  }

  ghost function Last<T>(head: ListHead<T>, nodes: seq<ListHead<T>>): ListHead<T> {
    if nodes == [] then head else nodes[|nodes| - 1]
  }

  ghost function NodeOrHead<T>(head: ListHead<T>, nodes: seq<ListHead<T>>, k: int): ListHead<T> {
    if 0 <= k < |nodes| then nodes[k] else head
  }

  /** `head` is the head of a circular list: following `next` from it visits exactly the distinct
      nodes of `nodes`, first to last, and comes back; following `prev` visits them backwards. */
  ghost predicate IsList<T>(head: ListHead<T>, nodes: seq<ListHead<T>>)
    reads head`prev, head`next, nodes`prev, nodes`next
  {
    && head !in nodes
    && Distinct(nodes)
    && head.next == First(head, nodes)
    && head.prev == Last(head, nodes)
    && (forall i {:trigger nodes[i].next} :: 0 <= i < |nodes| ==> nodes[i].next == NodeOrHead(head, nodes, i + 1))
    && (forall i {:trigger nodes[i].prev} :: 0 <= i < |nodes| ==> nodes[i].prev == NodeOrHead(head, nodes, i - 1))
  }

  /** The list_empty macro. */
  predicate ListEmpty<T>(head: ListHead<T>)
    reads head`next
  {
    head.next == head
  }

  lemma {:induction false} EmptyMeansNoNodes<T>(head: ListHead<T>, nodes: seq<ListHead<T>>)
    requires IsList(head, nodes)
    ensures ListEmpty(head) <==> nodes == []
  {
    if nodes != [] {
      assert nodes[0] in nodes;
    }
  }

  lemma {:induction false} InsertedAt<T>(s: seq<T>, k: nat, x: T, s': seq<T>)
    requires Distinct(s) && x !in s && k <= |s| && s' == s[..k] + [x] + s[k..]
    ensures |s'| == |s| + 1 && Distinct(s')
    ensures forall i :: 0 <= i < k ==> s'[i] == s[i]
    ensures s'[k] == x
    ensures forall i :: k < i < |s'| ==> s'[i] == s[i - 1]
  {
  }

  lemma {:induction false} RemovedAt<T>(s: seq<T>, k: nat, s': seq<T>)
    requires Distinct(s) && k < |s| && s' == s[..k] + s[k + 1..]
    ensures |s'| == |s| - 1 && Distinct(s') && s[k] !in s'
    ensures forall i :: 0 <= i < k ==> s'[i] == s[i]
    ensures forall i :: k <= i < |s'| ==> s'[i] == s[i + 1]
  {
  }

  lemma {:induction false} Joined<T>(s: seq<T>, t: seq<T>)
    requires Distinct(s) && Distinct(t) && forall x :: x in s ==> x !in t
    ensures Distinct(s + t)
  {
    forall i, j | 0 <= i < j < |s + t|
      ensures (s + t)[i] != (s + t)[j]
    {
      if i < |s| <= j {
        assert s[i] in s && t[j - |s|] in t;
      }
    }
  }

  method ListInit<T>(entry: ListHead<T>)
    modifies entry`prev, entry`next
    ensures IsList(entry, [])
  {
    entry.prev, entry.next := entry, entry;
  }

  /** list_add: insert at the front. */
  method ListAdd<T>(entry: ListHead<T>, head: ListHead<T>, ghost nodes: seq<ListHead<T>>)
    requires IsList(head, nodes) && entry != head && entry !in nodes
    modifies entry`prev, entry`next, head`next, First(head, nodes)`prev
    ensures IsList(head, [entry] + nodes)
  {
    entry.next := head.next;
    entry.prev := head;

    head.next.prev := entry;
    head.next := entry;
  }

  /** list_add_tail: insert before any node of the list. `at` is the k-th node, or the head itself to
      append (k == |nodes|). */
  method ListAddTail<T>(entry: ListHead<T>, at: ListHead<T>, ghost head: ListHead<T>, ghost nodes: seq<ListHead<T>>,
        ghost k: nat)
    requires IsList(head, nodes) && entry != head && entry !in nodes
    requires k <= |nodes| && at == NodeOrHead(head, nodes, k)
    modifies entry`prev, entry`next, at`prev, NodeOrHead(head, nodes, k - 1)`next
    ensures IsList(head, nodes[..k] + [entry] + nodes[k..])
  {
    ghost var nodes' := nodes[..k] + [entry] + nodes[k..];
    InsertedAt(nodes, k, entry, nodes');
    ghost var before := NodeOrHead(head, nodes, k - 1);
    assert at.prev == before;
    forall i | 0 <= i < |nodes'|
      ensures nodes'[i] != head && (nodes'[i] == entry <==> i == k)
      ensures (nodes'[i] == at <==> i == k + 1) && (nodes'[i] == before <==> i == k - 1)
    {
    }
    entry.next := at;
    entry.prev := at.prev;

    at.prev.next := entry;
    at.prev := entry;
  }

  /** list_del: unlink a node and clear its pointers. */
  method ListDel<T>(entry: ListHead<T>, ghost head: ListHead<T>, ghost nodes: seq<ListHead<T>>, ghost k: nat)
    requires IsList(head, nodes) && k < |nodes| && nodes[k] == entry
    modifies entry`prev, entry`next, NodeOrHead(head, nodes, k + 1)`prev, NodeOrHead(head, nodes, k - 1)`next
    ensures IsList(head, nodes[..k] + nodes[k + 1..])
    ensures entry.next == null && entry.prev == null
  {
    ghost var before, after := NodeOrHead(head, nodes, k - 1), NodeOrHead(head, nodes, k + 1);
    assert entry.next == after && entry.prev == before;
    ghost var nodes' := nodes[..k] + nodes[k + 1..];
    RemovedAt(nodes, k, nodes');
    assert forall i :: 0 <= i < |nodes'| ==>
           nodes'[i] != entry && (nodes'[i] == before <==> i == k - 1) && (nodes'[i] == after <==> i == k);
    entry.next.prev := entry.prev;
    entry.prev.next := entry.next;
    entry.next, entry.prev := null, null;
  }

  /** list_cut: move every entry of `head` to the list headed by `list`, which need not be
      initialised; `head` is left empty. */
  method ListCut<T>(list: ListHead<T>, head: ListHead<T>, ghost nodes: seq<ListHead<T>>)
    requires IsList(head, nodes) && list != head && list !in nodes
    modifies list`prev, list`next, head`prev, head`next, First(head, nodes)`prev, Last(head, nodes)`next
    ensures IsList(list, nodes) && IsList(head, [])
  {
    EmptyMeansNoNodes(head, nodes);
    if ListEmpty(head) {
      ListInit(list);
      return;
    }

    list.next := head.next;
    list.next.prev := list;
    list.prev := head.prev;
    list.prev.next := list;

    ListInit(head);
  }

  /** list_splice_front: put the entries of `list` in front of those of `head`. The code does so
      exactly when `list` is not empty; given an empty `list` it leaves `head` pointing at `list`. */
  method ListSpliceFront<T>(list: ListHead<T>, head: ListHead<T>, ghost front: seq<ListHead<T>>,
        ghost nodes: seq<ListHead<T>>)
    requires IsList(list, front) && IsList(head, nodes)
    requires list != head && list !in nodes && head !in front && (forall n :: n in front ==> n !in nodes)
    modifies head`next, First(head, nodes)`prev, First(list, front)`prev, Last(list, front)`next
    ensures IsList(head, front + nodes) <==> front != []
  {
    ghost var all := front + nodes;
    if front == [] {
      assert all == nodes;
    } else {
      assert Last(list, front) in front && First(list, front) in front;
      Joined(front, nodes);
      forall i | 0 <= i < |all|
        ensures all[i] != head && all[i] != list
        ensures all[i] == First(list, front) <==> i == 0
        ensures all[i] == Last(list, front) <==> i == |front| - 1
        ensures nodes != [] ==> (all[i] == First(head, nodes) <==> i == |front|)
      {
        if i < |front| {
          assert all[i] == front[i] && all[i] in front;
        } else {
          assert all[i] == nodes[i - |front|] && all[i] in nodes;
        }
      }
    }
    list.next.prev := head;
    list.prev.next := head.next;
    head.next.prev := list.prev;
    head.next := list.next;
  }
}
