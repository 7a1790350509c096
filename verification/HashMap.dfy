/** The bucketed hash table over doubly linked lists, on the heap. */
module HashMap {
  import opened LinkedList
  import opened HashChains

  const DEFAULT_MAP_SIZE: nat := 1000

  class Elem<V> {
    var key: int
    var value: V
    // where the element lies: elements are only ever appended, so this never changes
    ghost const bucket: int
    ghost const place: int

    constructor (key: int, value: V, ghost bucket: int, ghost place: int)
      ensures this.key == key && this.value == value && this.bucket == bucket && this.place == place
    {
      this.key, this.value := key, value;
      this.bucket, this.place := bucket, place;
    }
  }

  class Table<V> {
    var head: array<List?<Elem<V>>>
    var size: int

    ghost var Repr: set<object>
    ghost var chains: Chains<V>

    /** The buckets are valid lists that share no node and no element, and hold the entries of `chains`. */
    ghost predicate Valid()
      reads this, Repr
      ensures Valid() ==> this in Repr && chains != [] && WellPlaced(chains)
    {
      && this in Repr && head in Repr && size == head.Length == |chains| > 0
      && (forall b :: 0 <= b < size ==> head[b] != null && head[b] in Repr && Within(head[b], Repr))
      && (forall b, c :: 0 <= b < c < size ==> head[b] != head[c])
      && (forall b :: 0 <= b < size ==> Agrees(head[b], chains[b], b))
      && WellPlaced(chains)
    }

    static ghost predicate Within(list: List<Elem<V>>, repr: set<object>)
      reads list
    {
      && (forall i :: 0 <= i < |list.nodes| ==> list.nodes[i] in repr)
      && (forall i :: 0 <= i < |list.items| ==> list.items[i] in repr)
    }

    /** The list of bucket `b` is valid and holds the entries `c`. */
    static ghost predicate Agrees(list: List<Elem<V>>, c: seq<Entry<V>>, b: int)
      reads list, list.nodes, list.items
    {
      && list.Valid() && |list.items| == |c|
      && forall i :: 0 <= i < |c| ==>
           var e := list.items[i];
           c[i] == Entry(e.key, e.value) && e.bucket == b && e.place == i
    }

    /** The lists share no node. */
    static ghost predicate Apart(a: List<Elem<V>>, b: List<Elem<V>>)
      reads a, b
    {
      a != b && forall n :: n in a.nodes ==> n !in b.nodes
    }

    /** hmap_init. */
    constructor (mSize: nat)
      ensures Valid() && fresh(Repr)
      ensures chains == EmptyTable(if mSize == 0 then 1000 else mSize)
    {
      var mapSize := if mSize == 0 then DEFAULT_MAP_SIZE else mSize;
      size := mapSize;
      head := new List?<Elem<V>>[mapSize];
      chains := EmptyTable(mapSize);
      new;
      hide WellPlaced;
      EmptyIsPlaced<V>(mapSize);
      ghost var lists := InitBuckets(head);
      Repr := {this, head} + lists;
    }

    /** The loop of hmap_init: a new list for every bucket. */
    static method InitBuckets(head: array<List?<Elem<V>>>) returns (ghost lists: set<object>)
      modifies head
      ensures fresh(lists)
      ensures forall b :: 0 <= b < head.Length ==> head[b] != null && head[b] in lists
      ensures forall b :: 0 <= b < head.Length ==> head[b].Valid() && head[b].nodes == [] && head[b].items == []
      ensures forall b, c :: 0 <= b < c < head.Length ==> head[b] != head[c]
    {
      hide LinkedList.List.Valid;
      lists := {};
      var i := 0;
      while i < head.Length
        invariant 0 <= i <= head.Length && fresh(lists)
        invariant forall b :: 0 <= b < i ==> head[b] != null && head[b] in lists
        invariant forall b :: 0 <= b < i ==> head[b].Valid() && head[b].nodes == [] && head[b].items == []
        invariant forall b, c :: 0 <= b < c < i ==> head[b] != head[c]
      {
        var list := new List<Elem<V>>((a, b) => a == b);
        head[i] := list;
        lists := lists + {list};
        i := i + 1;
      }
    }

    /** The walk along a bucket that put, get and remove share: the first element with the key. */
    method Walk(key: nat) returns (temp: Elem?<V>)
      requires Valid()
      ensures var c := chains[Bucket(chains, key)]; var f := Find(c, key);
              temp == if f < |c| then head[Bucket(chains, key)].items[f] else null
    {
      var index := key % size;
      var list := head[index];
      var cur := list.head;
      ghost var i := 0;
      while cur != null
        invariant 0 <= i <= |list.nodes| && cur == list.At(i)
        invariant forall j :: 0 <= j < i ==> chains[index][j].key != key
        decreases |list.nodes| - i
      {
        temp := cur.item;
        if temp.key == key {
          FindIs(chains[index], key, i);
          return;
        }
        cur, i := cur.next, i + 1;
      }
      FindIs(chains[index], key, i);
      return null;
    }

    method Put(key: nat, value: V)
      requires Valid()
      modifies Repr
      ensures Valid() && fresh(Repr - old(Repr))
      ensures chains == HashChains.Put(old(chains), key, value)
    {
      hide WellPlaced;
      PutKeepsPlaces(chains, key, value);
      var temp := Walk(key);
      if temp != null {
        SetValue(temp, value, Bucket(chains, key), Find(chains[Bucket(chains, key)], key));
      } else {
        var list := head[key % size];
        var newElem := new Elem(key, value, key % size, |list.items|);
        AppendTo(list, newElem, key % size);
      }
    }

    /** The element at place `f` of bucket `b` gets a new value. */
    method SetValue(temp: Elem<V>, value: V, ghost b: nat, ghost f: nat)
      requires Valid() && b < size && f < |chains[b]| && temp == head[b].items[f]
      requires WellPlaced(chains[b := chains[b][f := Entry(temp.key, value)]])
      modifies `chains, temp
      ensures Valid() && chains == old(chains[b := chains[b][f := Entry(temp.key, value)]])
    {
      hide WellPlaced;
      temp.value := value;
      chains := chains[b := chains[b][f := Entry(temp.key, value)]];
      forall c | 0 <= c < size
        ensures Within(head[c], Repr) && Agrees(head[c], chains[c], c)
      {
        assert old(Agrees(head[c], chains[c], c) && Agrees(head[b], chains[b], b));
      }
    }

    /** A bucket that holds the entries `c` gets one more element. */
    static method Extend(list: List<Elem<V>>, elem: Elem<V>, ghost c: seq<Entry<V>>, ghost b: nat)
      requires Agrees(list, c, b) && elem.bucket == b && elem.place == |list.items|
      modifies list, list.nodes
      ensures Agrees(list, c + [Entry(elem.key, elem.value)], b)
      ensures list.items == old(list.items) + [elem]
      ensures |list.nodes| == |old(list.nodes)| + 1 && list.nodes[..|old(list.nodes)|] == old(list.nodes)
      ensures fresh(list.nodes[|old(list.nodes)|])
    {
      var appended := list.Append(elem);
    }

    lemma BucketsApart(b: nat)
      requires Valid() && b < size
      ensures forall c :: 0 <= c < size && c != b ==> Apart(head[c], head[b])
    {
      hide WellPlaced;
      forall c | 0 <= c < size && c != b
        ensures Apart(head[c], head[b])
      {
        assert Agrees(head[b], chains[b], b) && Agrees(head[c], chains[c], c);
      }
    }

    /** The end of hmap_put_abs: the new element is appended to its bucket. */
    method AppendTo(list: List<Elem<V>>, elem: Elem<V>, ghost b: nat)
      requires Valid() && b < size && list == head[b]
      requires elem !in Repr && elem.bucket == b && elem.place == |list.items|
      requires WellPlaced(chains[b := chains[b] + [Entry(elem.key, elem.value)]])
      modifies this, list, list.nodes
      ensures Valid() && fresh(Repr - old(Repr) - {elem})
      ensures chains == old(chains)[b := old(chains)[b] + [Entry(elem.key, elem.value)]]
    {
      hide WellPlaced;
      BucketsApart(b);
      hide LinkedList.List.Valid;
      Extend(list, elem, chains[b], b);
      Repr := Repr + {elem, list.nodes[|list.nodes| - 1]};
      chains := chains[b := chains[b] + [Entry(elem.key, elem.value)]];
      forall c | 0 <= c < size && c != b
        ensures Within(head[c], Repr) && Agrees(head[c], chains[c], c)
      {
        var other := head[c];
        assert old(Agrees(other, chains[c], c) && Within(other, Repr) && Apart(other, list));
        forall i | 0 <= i < |other.nodes|
          ensures unchanged(other.nodes[i])
        {
          assert other.nodes[i] in other.nodes;
        }
      }
      assert Within(list, Repr);
    }

    method Get(key: nat) returns (r: Option<V>)
      requires Valid()
      ensures r == Lookup(chains, key)
    {
      var temp := Walk(key);
      r := if temp == null then None else Some(temp.value);
    }

    /** hmap_remove_abs: the entry stays in its chain, with its key rewritten to 0. */
    method Remove(key: nat)
      requires Valid()
      modifies Repr
      ensures Valid() && Repr == old(Repr)
      ensures chains == Drop(old(chains), key)
    {
      hide WellPlaced;
      DropKeepsPlaces(chains, key);
      var temp := Walk(key);
      if temp != null {
        SpendKey(temp, Bucket(chains, key), Find(chains[Bucket(chains, key)], key));
      }
    }

    /** The element at place `f` of bucket `b` loses its key. */
    method SpendKey(temp: Elem<V>, ghost b: nat, ghost f: nat)
      requires Valid() && b < size && f < |chains[b]| && temp == head[b].items[f]
      requires WellPlaced(chains[b := chains[b][f := Entry(0, temp.value)]])
      modifies `chains, temp
      ensures Valid() && chains == old(chains[b := chains[b][f := Entry(0, temp.value)]])
    {
      hide WellPlaced;
      temp.key := 0;
      chains := chains[b := chains[b][f := Entry(0, temp.value)]];
      forall c | 0 <= c < size
        ensures Within(head[c], Repr) && Agrees(head[c], chains[c], c)
      {
        assert old(Agrees(head[c], chains[c], c) && Agrees(head[b], chains[b], b));
      }
    }
  }

  /** One operation of a history on the heap table. */
  method Perform<V>(h: Table<V>, op: TableOp<V>) returns (answer: seq<Option<V>>)
    requires h.Valid()
    modifies h.Repr
    ensures h.Valid() && fresh(h.Repr - old(h.Repr))
    ensures h.chains == TableStep(old(h.chains), op)
    ensures answer == TableAnswer(old(h.chains), op)
  {
    answer := [];
    match op
    case PutOp(key, value) =>
      h.Put(key, value);
    case GetOp(key) =>
      var r := h.Get(key);
      answer := [r];
    case RemoveOp(key) =>
      h.Remove(key);
  }

  lemma AnswersStep<V>(t: Chains<V>, ops: seq<TableOp<V>>, i: nat, goal: seq<Option<V>>, answers: seq<Option<V>>)
    requires t != [] && i < |ops| && goal == answers + TableAnswers(t, ops[i..])
    ensures goal == answers + TableAnswer(t, ops[i]) + TableAnswers(TableStep(t, ops[i]), ops[i + 1..])
  {
    assert ops[i..][0] == ops[i] && ops[i..][1..] == ops[i + 1..];
  }

  /**
   * A new table and then any history on it, on the heap: it gives the answers of a finite map if
   * the history removes no multiple of the table size.
   */
  method RunHistory<V(!new)>(mSize: nat, ops: seq<TableOp<V>>) returns (answers: seq<Option<V>>)
    ensures var size := if mSize == 0 then DEFAULT_MAP_SIZE else mSize;
            && answers == TableAnswers(EmptyTable<V>(size), ops)
            && (NoMultiples(size, ops) ==> answers == MapAnswers(map[], ops))
  {
    var h := new Table<V>(mSize);
    ghost var start := h.chains;
    answers := [];
    assert ops[0..] == ops;
    hide TableAnswers, TableAnswer, TableStep, MapAnswers, NoMultiples, Table.Valid;
    if NoMultiples(|start|, ops) {
      FreshTableIsMap(|start|, ops);
    }
    for i := 0 to |ops|
      invariant h.Valid() && fresh(h.Repr) && TableAnswers(start, ops) == answers + TableAnswers(h.chains, ops[i..])
    {
      AnswersStep(h.chains, ops, i, TableAnswers(start, ops), answers);
      var answer := Perform(h, ops[i]);
      answers := answers + answer;
    }
    NothingLeft(h.chains, ops[|ops|..]);
  }

  lemma NothingLeft<V>(t: Chains<V>, ops: seq<TableOp<V>>)
    requires t != [] && ops == []
    ensures TableAnswers(t, ops) == []
  {
  }
}
