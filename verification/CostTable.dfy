/** The cost table: the hash table that init_func_times fills and update_stub consults. */
module CostTable {
  import opened LinkedList
  import opened HashChains
  import opened HashMap
  import opened RoundProtocol
  import opened WorkerPrograms

  /** The table gives 50 for exactly the keys of these names. */
  ghost predicate Registers(t: Chains<nat>, hash: string -> nat, names: set<string>) {
    t != [] && forall k: nat :: Lookup(t, k) == if exists fn :: fn in names && hash(fn) == k then Some(50) else None
  }

  lemma RegisterOne(t: Chains<nat>, hash: string -> nat, names: set<string>, fn: string)
    requires Registers(t, hash, names)
    ensures Registers(HashChains.Put(t, hash(fn), 50), hash, names + {fn})
  {
    hide Lookup, HashChains.Put;
    var u := HashChains.Put(t, hash(fn), 50);
    forall k: nat
      ensures Lookup(u, k) == if exists g :: g in names + {fn} && hash(g) == k then Some(50) else None
    {
      PutIsUpdate(t, hash(fn), 50, k);
      if k == hash(fn) {
        assert fn in names + {fn};
      }
    }
  }

  lemma EmptyRegisters(size: nat, hash: string -> nat)
    requires size > 0
    ensures Registers(EmptyTable<nat>(size), hash, {})
  {
    EmptyIsPlaced<nat>(size);
  }

  /** One hmap_put_abs of init_func_times. */
  method Register(h: Table<nat>, hash: string -> nat, fn: string, ghost names: set<string>)
    returns (ghost more: set<string>)
    requires h.Valid() && Registers(h.chains, hash, names)
    modifies h.Repr
    ensures h.Valid() && fresh(h.Repr - old(h.Repr))
    ensures more == names + {fn} && Registers(h.chains, hash, more)
  {
    RegisterOne(h.chains, hash, names, fn);
    h.Put(hash(fn), 50);
    more := names + {fn};
  }

  method RegisterSocketCalls(h: Table<nat>, hash: string -> nat) returns (ghost names: set<string>)
    requires h.Valid() && Registers(h.chains, hash, {})
    modifies h.Repr
    ensures h.Valid() && fresh(h.Repr - old(h.Repr)) && Registers(h.chains, hash, names)
    ensures names == {"recvfrom", "rawSocket", "setPromisc", "intf_name_to_sock_idx"}
  {
    hide Registers, HashMap.Table.Valid;
    names := Register(h, hash, "recvfrom", {});
    names := Register(h, hash, "rawSocket", names);
    names := Register(h, hash, "setPromisc", names);
    names := Register(h, hash, "intf_name_to_sock_idx", names);
  }

  method RegisterLoopCalls(h: Table<nat>, hash: string -> nat, ghost before: set<string>) returns (ghost names: set<string>)
    requires h.Valid() && Registers(h.chains, hash, before)
    modifies h.Repr
    ensures h.Valid() && fresh(h.Repr - old(h.Repr)) && Registers(h.chains, hash, names)
    ensures names == before + {"get_dst_sock_idx", "send_packet", "poll", "flush_buffer"}
  {
    hide Registers, HashMap.Table.Valid;
    names := Register(h, hash, "get_dst_sock_idx", before);
    names := Register(h, hash, "send_packet", names);
    names := Register(h, hash, "poll", names);
    names := Register(h, hash, "flush_buffer", names);
  }

  /** init_func_times of the router, for any hash: its names, and whatever shares a key with them, cost 50. */
  method InitFuncTimes(hash: string -> nat) returns (h: Table<nat>)
    ensures h.Valid() && fresh(h.Repr) && Registers(h.chains, hash, ROUTER_COSTS.Keys)
  {
    hide Registers, HashMap.Table.Valid;
    h := new Table<nat>(1000);
    EmptyRegisters(1000, hash);
    ghost var names := RegisterSocketCalls(h, hash);
    names := RegisterLoopCalls(h, hash, names);
    RouterNames(names);
  }

  lemma RouterNames(names: set<string>)
    requires names == {"recvfrom", "rawSocket", "setPromisc", "intf_name_to_sock_idx"}
                      + {"get_dst_sock_idx", "send_packet", "poll", "flush_buffer"}
    ensures names == ROUTER_COSTS.Keys
  {
  }

  /** No name without a price shares a key with one that has one. */
  ghost predicate Unambiguous(hash: string -> nat, costs: Costs, fn: string) {
    fn !in costs ==> forall g :: g in costs ==> hash(g) != hash(fn)
  }

  /** The middle of update_stub: look the call up, and charge it in place if it has a cost. */
  method ChargeFromTable(h: Table<nat>, hash: string -> nat, fn: string, ghost s: State, left0: int, ghost next: nat)
    returns (left: int, finish: bool, charged: bool)
    requires h.Valid() && Registers(h.chains, hash, ROUTER_COSTS.Keys) && s.left == left0
    requires Unambiguous(hash, ROUTER_COSTS, fn)
    ensures var t := ChargeCall(ROUTER_COSTS, s, fn, next);
            && left == t.left && (finish <==> t.worker.Report?)
            && (charged <==> t.log.calls == s.log.calls + 1)
  {
    left, finish, charged := left0, false, false;
    assert fn in ROUTER_COSTS ==> ROUTER_COSTS[fn] == 50;
    var found := h.Get(hash(fn));
    if found == None {
      return;
    }
    var cost := h.Get(hash(fn));
    left := left - cost.value;
    charged := true;
    if left <= 0 {
      finish := true;
    }
  }
}
