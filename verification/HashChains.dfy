/**
 * What the hash table stores, as values: one chain of (key, value) entries per bucket. Removal
 * keeps the entry and rewrites its key to 0; this module proves when that is a deletion.
 */
module HashChains {
  import opened LinkedList

  datatype Entry<V> = Entry(key: int, value: V)

  /** The first position with this key, or the length. */
  function Find<V>(c: seq<Entry<V>>, key: int): (f: nat)
    ensures f <= |c| && (f < |c| ==> c[f].key == key)
    ensures forall i :: 0 <= i < f ==> c[i].key != key
  {
    if c == [] || c[0].key == key then 0 else 1 + Find(c[1..], key)
  }

  lemma {:induction false} FindIs<V>(c: seq<Entry<V>>, key: int, f: nat)
    requires f <= |c| && (f < |c| ==> c[f].key == key)
    requires forall i :: 0 <= i < f ==> c[i].key != key
    ensures Find(c, key) == f
  {
    if f > 0 {
      FindIs(c[1..], key, f - 1);
    }
  }

  type Chains<V> = seq<seq<Entry<V>>>

  function Bucket<V>(t: Chains<V>, key: nat): (b: nat)
    requires t != []
    ensures b < |t|
  {
    key % |t|
  }

  function Lookup<V>(t: Chains<V>, key: nat): Option<V>
    requires t != []
  {
    var c := t[Bucket(t, key)];
    var f := Find(c, key);
    if f < |c| then Some(c[f].value) else None
  }

  function PutChain<V>(c: seq<Entry<V>>, key: int, value: V): seq<Entry<V>> {
    var f := Find(c, key);
    if f < |c| then c[f := Entry(key, value)] else c + [Entry(key, value)]
  }

  function DropChain<V>(c: seq<Entry<V>>, key: int): seq<Entry<V>> {
    var f := Find(c, key);
    if f < |c| then c[f := c[f].(key := 0)] else c
  }

  function Put<V>(t: Chains<V>, key: nat, value: V): (u: Chains<V>)
    requires t != []
    ensures |u| == |t|
  {
    t[Bucket(t, key) := PutChain(t[Bucket(t, key)], key, value)]
  }

  function Drop<V>(t: Chains<V>, key: nat): (u: Chains<V>)
    requires t != []
    ensures |u| == |t|
  {
    t[Bucket(t, key) := DropChain(t[Bucket(t, key)], key)]
  }

  // ----- the table invariant

  /** Each live entry lies in its own bucket, and no two share a key; entries with key 0 are spent. */
  ghost predicate WellPlaced<V>(t: Chains<V>) {
    && t != []
    && (forall b, i :: 0 <= b < |t| && 0 <= i < |t[b]| ==>
          t[b][i].key == 0 || (t[b][i].key > 0 && t[b][i].key % |t| == b))
    && (forall b, i, j :: 0 <= b < |t| && 0 <= i < j < |t[b]| && t[b][i].key == t[b][j].key ==>
          t[b][i].key == 0)
  }

  lemma PutKeepsPlaces<V>(t: Chains<V>, key: nat, value: V)
    requires WellPlaced(t)
    ensures WellPlaced(Put(t, key, value))
  {
  }

  lemma DropKeepsPlaces<V>(t: Chains<V>, key: nat)
    requires WellPlaced(t)
    ensures WellPlaced(Drop(t, key))
  {
  }

  // ----- the table as a map

  lemma PutChainLookup<V>(c: seq<Entry<V>>, key: int, value: V, k: int)
    ensures var d := PutChain(c, key, value); var f := Find(d, k);
            if k == key then f < |d| && d[f].value == value
            else if Find(c, k) < |c| then f == Find(c, k) && d[f] == c[f]
            else f == |d|
  {
    var d := PutChain(c, key, value);
    FindIs(d, k, if k == key then Find(c, key) else if Find(c, k) < |c| then Find(c, k) else |d|);
  }

  /** hmap_put_abs is a map update, whatever the table holds. */
  lemma PutIsUpdate<V>(t: Chains<V>, key: nat, value: V, k: nat)
    requires t != []
    ensures Lookup(Put(t, key, value), k) == if k == key then Some(value) else Lookup(t, k)
  {
    PutChainLookup(t[Bucket(t, key)], key, value, k);
  }

  /** Unless the key is 0, removal takes its mapping away; every other key but 0 keeps its own. */
  lemma DropOthers<V>(t: Chains<V>, key: nat, k: nat)
    requires WellPlaced(t) && k != 0
    ensures Lookup(Drop(t, key), k) == if k == key then None else Lookup(t, k)
  {
    var b := Bucket(t, key);
    var c := t[b];
    if Bucket(t, k) == b {
      FindIs(DropChain(c, key), k, if k == key then |c| else Find(c, k));
    }
  }

  /** What removal does to key 0: nothing, unless it turns the first entry with key 0 in bucket 0. */
  lemma DropAtZero<V>(t: Chains<V>, key: nat)
    requires WellPlaced(t)
    ensures var c := t[0]; var f := Find(c, key);
            Lookup(Drop(t, key), 0) ==
            if Bucket(t, key) == 0 && f < |c| && f < Find(c, 0) then Some(c[f].value) else Lookup(t, 0)
  {
    var c := t[0];
    var f := Find(c, key);
    if Bucket(t, key) == 0 && f < |c| {
      FindIs(DropChain(c, key), 0, if f < Find(c, 0) then f else Find(c, 0));
    }
  }

  /** Removal behaves as a map deletion of `key`. */
  ghost predicate DropIsDeletion<V(!new)>(t: Chains<V>, key: nat)
    requires t != []
  {
    forall k: nat :: Lookup(Drop(t, key), k) == if k == key then None else Lookup(t, k)
  }

  /** A mapping of key 0 that turning this key's entry to 0 would not disturb. */
  predicate ZeroShadows<V(==)>(t: Chains<V>, key: nat)
    requires t != []
  {
    key != 0 && Lookup(t, 0).Some? && (Find(t[0], 0) < Find(t[0], key) || Lookup(t, 0) == Lookup(t, key))
  }

  predicate CleanRemoval<V(==)>(t: Chains<V>, key: nat)
    requires t != []
  {
    Lookup(t, key).None? || key % |t| != 0 || ZeroShadows(t, key)
  }

  /**
   * hmap_remove_abs is a deletion exactly when the key is absent, or is not a multiple of the table
   * size, or key 0 is mapped already and the new key-0 entry does not change that mapping.
   */
  lemma RemoveExactly<V(!new)>(t: Chains<V>, key: nat)
    requires WellPlaced(t)
    ensures DropIsDeletion(t, key) <==> CleanRemoval(t, key)
  {
    forall k: nat | k != 0
      ensures Lookup(Drop(t, key), k) == if k == key then None else Lookup(t, k)
    {
      DropOthers(t, key, k);
    }
    DropAtZero(t, key);
    assert DropIsDeletion(t, key) <==> Lookup(Drop(t, key), 0) == if key == 0 then None else Lookup(t, 0);
  }

  // ----- whole histories

  datatype TableOp<V> = PutOp(key: nat, value: V) | GetOp(key: nat) | RemoveOp(key: nat)

  function TableStep<V>(t: Chains<V>, op: TableOp<V>): (u: Chains<V>)
    requires t != []
    ensures |u| == |t|
  {
    match op
    case PutOp(k, v) => Put(t, k, v)
    case GetOp(k) => t
    case RemoveOp(k) => Drop(t, k)
  }

  /** What one operation returns: gets have a result. */
  function TableAnswer<V>(t: Chains<V>, op: TableOp<V>): seq<Option<V>>
    requires t != []
  {
    if op.GetOp? then [Lookup(t, op.key)] else []
  }

  /** What the gets of a history return, run on the table. */
  function TableAnswers<V>(t: Chains<V>, ops: seq<TableOp<V>>): seq<Option<V>>
    requires t != []
    decreases |ops|
  {
    if ops == [] then []
    else TableAnswer(t, ops[0]) + TableAnswers(TableStep(t, ops[0]), ops[1..])
  }

  function MapStep<V>(m: map<nat, V>, op: TableOp<V>): map<nat, V> {
    match op
    case PutOp(k, v) => m[k := v]
    case GetOp(k) => m
    case RemoveOp(k) => m - {k}
  }

  function MapLookup<V>(m: map<nat, V>, k: nat): Option<V> {
    if k in m then Some(m[k]) else None
  }

  /** The same on a finite map. */
  function MapAnswers<V>(m: map<nat, V>, ops: seq<TableOp<V>>): seq<Option<V>>
    decreases |ops|
  {
    if ops == [] then []
    else (if ops[0].GetOp? then [MapLookup(m, ops[0].key)] else []) + MapAnswers(MapStep(m, ops[0]), ops[1..])
  }

  ghost predicate Holds<V>(t: Chains<V>, m: map<nat, V>)
    requires t != []
  {
    forall k: nat :: Lookup(t, k) == MapLookup(m, k)
  }

  /** Every removal of the history is clean when it happens. */
  predicate CleanHistory<V(==)>(t: Chains<V>, ops: seq<TableOp<V>>)
    requires t != []
    decreases |ops|
  {
    ops == [] ||
    ((ops[0].RemoveOp? ==> CleanRemoval(t, ops[0].key)) && CleanHistory(TableStep(t, ops[0]), ops[1..]))
  }

  /** No multiple of the table size is removed. */
  predicate NoMultiples<V>(size: nat, ops: seq<TableOp<V>>)
    requires size > 0
  {
    forall i :: 0 <= i < |ops| && ops[i].RemoveOp? ==> ops[i].key % size != 0
  }

  /** That is the simplest way to keep every removal clean. */
  lemma {:induction false} NoMultiplesIsClean<V>(t: Chains<V>, ops: seq<TableOp<V>>)
    requires t != [] && NoMultiples(|t|, ops)
    ensures CleanHistory(t, ops)
    decreases |ops|
  {
    if ops != [] {
      NoMultiplesIsClean(TableStep(t, ops[0]), ops[1..]);
    }
  }

  lemma StepKeepsHolds<V(!new)>(t: Chains<V>, m: map<nat, V>, op: TableOp<V>)
    requires WellPlaced(t) && Holds(t, m) && (op.RemoveOp? ==> CleanRemoval(t, op.key))
    ensures WellPlaced(TableStep(t, op)) && Holds(TableStep(t, op), MapStep(m, op))
  {
    hide WellPlaced, Lookup, Drop, CleanRemoval, Put;
    match op
    case PutOp(key, v) =>
      PutKeepsPlaces(t, key, v);
      forall k: nat
        ensures Lookup(Put(t, key, v), k) == MapLookup(m[key := v], k)
      {
        PutIsUpdate(t, key, v, k);
      }
    case GetOp(key) =>
    case RemoveOp(key) =>
      DropKeepsPlaces(t, key);
      RemoveExactly(t, key);
  }

  /** The table answers every history as a map does, if its removals are clean. */
  lemma {:induction false} TableRefinesMap<V(!new)>(t: Chains<V>, m: map<nat, V>, ops: seq<TableOp<V>>)
    requires WellPlaced(t) && Holds(t, m)
    requires CleanHistory(t, ops)
    ensures TableAnswers(t, ops) == MapAnswers(m, ops)
    decreases |ops|
  {
    assert t != [];
    hide WellPlaced, Lookup, TableStep, MapStep;
    if ops != [] {
      StepKeepsHolds(t, m, ops[0]);
      TableRefinesMap(TableStep(t, ops[0]), MapStep(m, ops[0]), ops[1..]);
    }
  }

  function EmptyTable<V>(size: nat): Chains<V> {
    seq(size, _ => [])
  }

  lemma EmptyIsPlaced<V>(size: nat)
    requires size > 0
    ensures WellPlaced(EmptyTable<V>(size)) && forall k: nat :: Lookup(EmptyTable<V>(size), k) == None
  {
  }

  /** From the fresh table on, every history that removes no multiple of its size is answered as by a map. */
  lemma FreshTableIsMap<V(!new)>(size: nat, ops: seq<TableOp<V>>)
    requires size > 0 && NoMultiples(size, ops)
    ensures TableAnswers(EmptyTable<V>(size), ops) == MapAnswers(map[], ops)
  {
    EmptyIsPlaced<V>(size);
    NoMultiplesIsClean(EmptyTable<V>(size), ops);
    TableRefinesMap(EmptyTable<V>(size), map[], ops);
  }

  /** A removal that is not clean shows: removing the table size itself leaves its value behind at key 0. */
  lemma RemovedValueReappears<V>(size: nat, v: V)
    requires size > 0
    ensures var ops := [PutOp(size, v), RemoveOp(size), GetOp(0)];
            TableAnswers(EmptyTable(size), ops) == [Some(v)] && MapAnswers(map[], ops) == [Option<V>.None]
  {
    var t: Chains<V> := EmptyTable(size);
    var u := Put(t, size, v);
    assert u[0] == [Entry(size, v)];
    var w := Drop(u, size);
    assert w[0] == [Entry(0, v)];
    var ops := [PutOp(size, v), RemoveOp(size), GetOp(0)];
    var ops1, ops2 := ops[1..], ops[1..][1..];
    assert ops1 == [RemoveOp(size), GetOp(0)] && ops2 == [GetOp(0)];
    var m: map<nat, V> := map[];
    assert TableAnswers(w, ops2) == [Some(v)] && MapAnswers(m, ops2) == [None];
    assert m[size := v] - {size} == m;
    assert TableAnswers(u, ops1) == TableAnswers(w, ops2);
    assert MapAnswers(m[size := v], ops1) == MapAnswers(m, ops2);
  }
}
