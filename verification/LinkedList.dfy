/** The doubly linked list: heap nodes, kept in agreement with a sequence of items. */
module LinkedList {

  const SUCCESS: int := 1
  const ELEM_NOT_FOUND: int := -2

  datatype Option<+T> = None | Some(value: T)

  /** The first position whose item the checker finds equal to `item`, or the length. */
  function FirstEqual<T>(s: seq<T>, equals: (T, T) -> bool, item: T): (k: nat)
    ensures k <= |s|
    ensures k < |s| ==> equals(s[k], item)
    ensures forall j :: 0 <= j < k ==> !equals(s[j], item)
  {
    if s == [] || equals(s[0], item) then 0 else 1 + FirstEqual(s[1..], equals, item)
  }

  function Without<T>(s: seq<T>, k: int): seq<T> {
    if 0 <= k < |s| then s[..k] + s[k + 1..] else s
  }

  class Node<T> {
    var item: T
    var next: Node?<T>
    var prev: Node?<T>
    ghost const owner: List<T>

    constructor (item: T, ghost owner: List<T>)
      ensures this.item == item && this.owner == owner
    {
      this.item := item;
      this.owner := owner;
    }
  }

  class List<T> {
    var size: int
    var head: Node?<T>
    var tail: Node?<T>
    var equals: (T, T) -> bool

    ghost var nodes: seq<Node<T>>
    ghost var items: seq<T>

    /** `nodes` is the chain from head to tail, `prev` inverts `next`, and `items` is what it holds. */
    ghost predicate Valid()
      reads this, nodes
    {
      && size == |nodes| == |items|
      && Chained(nodes, items)
      && (forall n :: n in nodes ==> n.owner == this)
      && head == (if nodes == [] then null else nodes[0])
      && tail == (if nodes == [] then null else nodes[|nodes| - 1])
    }

    static ghost predicate Chained(ns: seq<Node<T>>, its: seq<T>)
      requires |ns| == |its|
      reads ns
    {
      && (forall i, j :: 0 <= i < j < |ns| ==> ns[i] != ns[j])
      && (forall i {:trigger ns[i].item} :: 0 <= i < |ns| ==> ns[i].item == its[i])
      && (forall i {:trigger ns[i].next} :: 0 <= i < |ns| ==>
            ns[i].next == if i + 1 < |ns| then ns[i + 1] else null)
      && (forall i {:trigger ns[i].prev} :: 0 <= i < |ns| ==>
            ns[i].prev == if 0 < i then ns[i - 1] else null)
    }

    ghost function At(i: int): Node?<T>
      reads this
    {
      if 0 <= i < |nodes| then nodes[i] else null
    }

    /** llist_init, with the equality checker that it or llist_set_equality_checker installs. */
    constructor (equals: (T, T) -> bool)
      ensures Valid() && items == [] && nodes == [] && this.equals == equals
    {
      head, tail, size := null, null, 0;
      this.equals := equals;
      nodes, items := [], [];
    }

    method Append(item: T) returns (r: int)
      requires Valid()
      modifies this, nodes
      ensures Valid() && r == SUCCESS && equals == old(equals)
      ensures items == old(items) + [item]
      ensures |nodes| == |old(nodes)| + 1 && nodes[..|old(nodes)|] == old(nodes) && fresh(nodes[|old(nodes)|])
    {
      var newElem := new Node(item, this);
      size := size + 1;
      if head == null {
        head, tail := newElem, newElem;
        head.next, head.prev := null, null;
      } else {
        tail.next := newElem;
        newElem.next := null;
        newElem.prev := tail;
        tail := newElem;
      }
      ExtensionKeepsChain(nodes, items, newElem);
      hide Chained;
      nodes, items := nodes + [newElem], items + [item];
      return SUCCESS;
    }

    /** A chain whose last node points on to a new one is a chain with that node added. */
    lemma ExtensionKeepsChain(ns: seq<Node<T>>, its: seq<T>, n: Node<T>)
      requires |ns| == |its| && n !in ns && n.next == null
      requires forall j, k :: 0 <= j < k < |ns| ==> ns[j] != ns[k]
      requires forall k {:trigger ns[k].item} :: 0 <= k < |ns| ==> ns[k].item == its[k]
      requires forall k {:trigger ns[k].next} :: 0 <= k < |ns| ==>
                 ns[k].next == if k + 1 < |ns| then ns[k + 1] else n
      requires forall k {:trigger ns[k].prev} :: 0 <= k < |ns| ==>
                 ns[k].prev == if 0 < k then ns[k - 1] else null
      requires n.prev == if ns == [] then null else ns[|ns| - 1]
      ensures Chained(ns + [n], its + [n.item])
    {
      var ms, jts := ns + [n], its + [n.item];
      forall k | 0 <= k < |ms|
        ensures ms[k].item == jts[k]
        ensures ms[k].next == if k + 1 < |ms| then ms[k + 1] else null
        ensures ms[k].prev == if 0 < k then ms[k - 1] else null
      {
        assert k < |ns| ==> ms[k] == ns[k];
      }
    }

    method Get(index: int) returns (r: Option<T>)
      requires Valid()
      ensures r == if 0 <= index < |items| then Some(items[index]) else None
    {
      var i, cur := 0, head;
      while cur != null
        invariant 0 <= i <= |nodes| && cur == At(i) && (0 <= index ==> i <= index)
        decreases |nodes| - i
      {
        if i == index {
          return Some(cur.item);
        }
        i, cur := i + 1, cur.next;
      }
      return None;
    }

    method GetPos(item: T) returns (r: int)
      requires Valid()
      ensures var k := FirstEqual(items, equals, item);
              r == if k < |items| then k else ELEM_NOT_FOUND
    {
      var i, cur := 0, head;
      while cur != null
        invariant 0 <= i <= |nodes| && cur == At(i)
        invariant forall j :: 0 <= j < i ==> !equals(items[j], item)
        decreases |nodes| - i
      {
        if equals(cur.item, item) {
          return i;
        }
        i, cur := i + 1, cur.next;
      }
      return ELEM_NOT_FOUND;
    }

    /** llist_requeue: the first item becomes the last. */
    method Requeue()
      requires Valid()
      modifies this, nodes
      ensures Valid() && equals == old(equals)
      ensures items == if |old(items)| < 2 then old(items) else old(items)[1..] + [old(items)[0]]
      ensures nodes == if |old(nodes)| < 2 then old(nodes) else old(nodes)[1..] + [old(nodes)[0]]
    {
      if size == 0 || size == 1 {
        return;
      }
      var first := head;
      head := head.next;
      head.prev := null;
      tail.next := first;
      first.prev := tail;
      tail := first;
      tail.next := null;
      nodes, items := nodes[1..] + [nodes[0]], items[1..] + [items[0]];
    }

    /** llist_remove_at: takes out the item at `index`; any other index changes nothing. */
    method RemoveAt(index: int) returns (r: Option<T>)
      requires Valid()
      modifies this, nodes
      ensures Valid() && equals == old(equals)
      ensures r == if 0 <= index < |old(items)| then Some(old(items)[index]) else None
      ensures items == Without(old(items), index) && nodes == Without(old(nodes), index)
    {
      var i, cur := 0, head;
      while cur != null
        invariant 0 <= i <= |nodes| && cur == At(i) && (0 <= index ==> i <= index)
        decreases |nodes| - i
      {
        if i == index {
          r := Some(cur.item);
          Unlink(cur, i);
          return;
        }
        i, cur := i + 1, cur.next;
      }
      return None;
    }

    /** The pointer surgery of llist_remove_at, case by case. */
    method Unlink(cur: Node<T>, ghost i: nat)
      requires Valid() && i < |nodes| && cur == nodes[i]
      modifies this, nodes
      ensures Valid() && equals == old(equals)
      ensures items == Without(old(items), i) && nodes == Without(old(nodes), i)
    {
      size := size - 1;
      if cur == head {
        assert i == 0;
        UnlinkHead(cur);
      } else if cur == tail {
        assert i == |nodes| - 1;
        UnlinkTail(cur);
      } else {
        UnlinkMiddle(cur, i);
      }
    }

    /** Valid, but for a size that already counts one item less. */
    ghost predicate Counted()
      reads this, nodes
    {
      && |nodes| == |items| == size + 1 && size >= 0
      && Chained(nodes, items) && head == nodes[0] && tail == nodes[|nodes| - 1]
      && (forall n :: n in nodes ==> n.owner == this)
    }

    method UnlinkHead(cur: Node<T>)
      requires Counted() && cur == head
      modifies this, nodes
      ensures Valid() && equals == old(equals)
      ensures items == old(items)[1..] && nodes == old(nodes)[1..]
    {
      if size == 0 {
        head, tail := null, null;
      } else {
        if cur.next != null {
          cur.next.prev := null;
        }
        head := cur.next;
      }
      nodes, items := nodes[1..], items[1..];
    }

    method UnlinkTail(cur: Node<T>)
      requires Counted() && cur == tail != head
      modifies this, nodes
      ensures Valid() && equals == old(equals)
      ensures items == old(items)[..|old(items)| - 1] && nodes == old(nodes)[..|old(nodes)| - 1]
    {
      tail := tail.prev;
      if tail != null {
        tail.next := null;
      }
      nodes, items := nodes[..size], items[..size];
    }

    method UnlinkMiddle(cur: Node<T>, ghost i: nat)
      requires Counted() && 0 < i < |nodes| - 1 && cur == nodes[i]
      modifies this, nodes
      ensures Valid() && equals == old(equals)
      ensures items == Without(old(items), i) && nodes == Without(old(nodes), i)
    {
      if cur.prev != null {
        cur.prev.next := cur.next;
      }
      if cur.next != null {
        cur.next.prev := cur.prev;
      }
      BypassKeepsChain(nodes, items, i);
      nodes, items := Without(nodes, i), Without(items, i);
    }

    /** A chain whose links skip position `i` is the chain without that position. */
    lemma BypassKeepsChain(ns: seq<Node<T>>, its: seq<T>, i: nat)
      requires |ns| == |its| && 0 < i < |ns| - 1
      requires forall j, k :: 0 <= j < k < |ns| ==> ns[j] != ns[k]
      requires forall k {:trigger ns[k].item} :: 0 <= k < |ns| ==> ns[k].item == its[k]
      requires forall k {:trigger ns[k].next} :: 0 <= k < |ns| && k != i ==>
                 ns[k].next == if k == i - 1 then ns[i + 1] else if k + 1 < |ns| then ns[k + 1] else null
      requires forall k {:trigger ns[k].prev} :: 0 <= k < |ns| && k != i ==>
                 ns[k].prev == if k == i + 1 then ns[i - 1] else if 0 < k then ns[k - 1] else null
      ensures Chained(Without(ns, i), Without(its, i))
    {
      var ms, jts := Without(ns, i), Without(its, i);
      forall k | 0 <= k < |ms|
        ensures ms[k].item == jts[k]
        ensures ms[k].next == if k + 1 < |ms| then ms[k + 1] else null
        ensures ms[k].prev == if 0 < k then ms[k - 1] else null
      {
        assert ms[k] == ns[if k < i then k else k + 1];
      }
    }

    method Size() returns (r: int)
      requires Valid()
      ensures r == |items|
    {
      return size;
    }

    method Pop() returns (r: Option<T>)
      requires Valid()
      modifies this, nodes
      ensures Valid() && equals == old(equals)
      ensures r == if old(items) == [] then None else Some(old(items)[0])
      ensures items == Without(old(items), 0) && nodes == Without(old(nodes), 0)
    {
      if size == 0 {
        return None;
      }
      r := Some(head.item);
      if size == 1 {
        head, tail := null, null;
      } else {
        head := head.next;
        head.prev := null;
      }
      size := size - 1;
      nodes, items := nodes[1..], items[1..];
    }

    /** llist_remove: takes out the first item equal to `item`, if there is one. */
    method Remove(item: T) returns (r: int)
      requires Valid()
      modifies this, nodes
      ensures Valid() && equals == old(equals)
      ensures var k := FirstEqual(old(items), old(equals), item);
              && r == (if k < |old(items)| then SUCCESS else ELEM_NOT_FOUND)
              && items == Without(old(items), k) && nodes == Without(old(nodes), k)
    {
      var i, cur := 0, head;
      while cur != null
        invariant 0 <= i <= |nodes| && cur == At(i)
        invariant forall j :: 0 <= j < i ==> !equals(items[j], item)
        decreases |nodes| - i
      {
        if equals(cur.item, item) {
          var taken := RemoveAt(i);
          return SUCCESS;
        }
        i, cur := i + 1, cur.next;
      }
      return ELEM_NOT_FOUND;
    }

    method Destroy()
      requires Valid()
      modifies this, nodes
      ensures Valid() && items == [] && nodes == [] && head == null && tail == null
    {
      while size > 0
        invariant Valid() && |nodes| <= |old(nodes)| && nodes == old(nodes)[|old(nodes)| - |nodes|..]
        decreases size
      {
        var taken := RemoveAt(0);
      }
    }
  }
}
