/**
 * What `goto repeat` does to fairness: an input whose packets have no route cuts every turn short,
 * and the inputs behind it are never served.
 */
module Starvation {
  import opened Routing
  import opened Forwarding

  /** Whenever the loop polls, the packet at the head of input `f` has no route. */
  ghost predicate Flooded(c: Config, tr: seq<State>, f: nat)
    requires c.names != []
  {
    forall k :: 0 <= k < |tr| - 1 && tr[k].ctl.Poll? && tr[k + 1].ctl.Scan? ==> Repeats(c, tr[k].w, f)
  }

  /** Input `f` was found ready with such a packet, and the scan has not passed it. */
  predicate Ahead(c: Config, s: State, f: nat)
    requires c.names != []
  {
    match s.ctl
    case Poll => true
    case Scan(i, ready, _) => i <= f < |ready| && ready[f] && Repeats(c, s.w, f)
    case Got(i, ready, p) =>
      i <= f < |ready| && ready[f] && if i == f then p != [] && Verdict(c, p) == -1 else Repeats(c, s.w, f)
    case Routed(i, ready, p, dst) =>
      i <= f < |ready| && ready[f] && if i == f then dst == -1 else Repeats(c, s.w, f)
    case BlockPoll => false
  }

  /** No input behind `f` has been served. */
  predicate Unserved(w: World, f: nat) {
    forall j :: f < j < |w.taken| ==> w.taken[j] == 0
  }

  lemma ArrivalKeepsRepeats(c: Config, w: World, v: World, f: nat)
    requires Shaped(c, w) && Arrival(w, v) && Repeats(c, w, f)
    ensures Repeats(c, v, f)
  {
    hide Verdict;
    ArrivalGrows(c, w, v, f);
    assert Head(v, f) == Head(w, f);
  }

  lemma ArrivalKeepsAhead(c: Config, s: State, t: State, f: nat)
    requires Shaped(c, s.w) && Ahead(c, s, f) && Unserved(s.w, f) && t.ctl == s.ctl && Arrival(s.w, t.w)
    ensures Ahead(c, t, f) && Unserved(t.w, f)
  {
    ArrivalGrows(c, s.w, t.w, 0);
    if Repeats(c, s.w, f) {
      ArrivalKeepsRepeats(c, s.w, t.w, f);
    }
    hide Repeats, Arrival, Verdict;
  }

  lemma TakeKeepsRepeats(c: Config, w: World, i: nat, f: nat)
    requires Shaped(c, w) && Waiting(w, i) && i != f && Repeats(c, w, f)
    ensures Repeats(c, Take(w, i), f)
  {
    hide Verdict;
  }

  lemma SameQueuesRepeat(c: Config, w: World, v: World, f: nat)
    requires c.names != [] && Repeats(c, w, f) && v.arrived == w.arrived && v.taken == w.taken
    ensures Repeats(c, v, f)
  {
    hide Verdict;
  }

  lemma MoveKeepsAhead(c: Config, s: State, t: State, f: nat)
    requires Shaped(c, s.w) && Ahead(c, s, f) && Unserved(s.w, f) && Move(c, s, t)
    requires s.ctl.Poll? ==> Repeats(c, s.w, f)
    ensures Ahead(c, t, f) && Unserved(t.w, f)
  {
    hide SockIdx, DstText;
    if s.ctl.Poll? {
      PollSees(c, s.w, f);
    } else if s.ctl.Scan? && s.ctl.i < f && s.ctl.ready[s.ctl.i] {
      TakeKeepsRepeats(c, s.w, s.ctl.i, f);
    } else if Repeats(c, s.w, f) && t.w.taken == s.w.taken {
      SameQueuesRepeat(c, s.w, t.w, f);
    }
  }

  lemma PollSees(c: Config, w: World, f: nat)
    requires Shaped(c, w) && Repeats(c, w, f)
    ensures f < |Snapshot(w)| && Snapshot(w)[f]
  {
  }

  lemma {:induction false} StaysAhead(c: Config, tr: seq<State>, f: nat, k: nat)
    requires c.names != [] && IsRun(c, tr) && Flooded(c, tr, f) && k < |tr|
    ensures Ahead(c, tr[k], f) && Unserved(tr[k].w, f)
  {
    hide Ahead, Move, Arrival, Inv, Repeats;
    if k == 0 {
      StartsAhead(c, f);
    } else {
      StaysAhead(c, tr, f, k - 1);
      RunHolds(c, tr, k - 1);
      HoldsShape(c, tr[k - 1]);
      assert Step(c, tr[k - 1], tr[k - 1 + 1]);
      if Move(c, tr[k - 1], tr[k]) {
        PollMovesOn(c, tr[k - 1], tr[k]);
        MoveKeepsAhead(c, tr[k - 1], tr[k], f);
      } else if tr[k] != tr[k - 1] {
        ArrivalKeepsAhead(c, tr[k - 1], tr[k], f);
      }
    }
  }

  lemma StartsAhead(c: Config, f: nat)
    requires c.names != []
    ensures Ahead(c, Start(c), f) && Unserved(Start(c).w, f)
  {
  }

  lemma HoldsShape(c: Config, s: State)
    requires Inv(c, s)
    ensures Shaped(c, s.w)
  {
  }

  lemma PollMovesOn(c: Config, s: State, t: State)
    requires c.names != [] && Move(c, s, t)
    ensures s.ctl.Poll? ==> t.ctl.Scan?
  {
    hide SockIdx, DstText;
  }

  /** If every poll finds a packet without a route at the head of input `f`, no input behind it is ever served. */
  lemma FloodStarves(c: Config, tr: seq<State>, f: nat, k: nat, j: nat)
    requires c.names != [] && IsRun(c, tr) && Flooded(c, tr, f) && k < |tr| && f < j < |c.names|
    ensures Shaped(c, tr[k].w) && tr[k].w.taken[j] == 0
  {
    hide IsRun, Flooded, Ahead, Inv;
    RunHolds(c, tr, k);
    HoldsShape(c, tr[k]);
    StaysAhead(c, tr, f, k);
  }

  // ----- that does happen

  lemma FloodGrows(c: Config, tr: seq<State>, s: State, t: State, f: nat)
    requires c.names != [] && IsRun(c, tr) && Flooded(c, tr, f) && s == tr[|tr| - 1] && Step(c, s, t)
    requires s.ctl.Poll? && t.ctl.Scan? ==> Repeats(c, s.w, f)
    ensures IsRun(c, tr + [t]) && Flooded(c, tr + [t], f)
  {
    hide Step, Repeats;
    var more := tr + [t];
    forall k | 0 <= k < |more| - 1
      ensures Step(c, more[k], more[k + 1])
      ensures more[k].ctl.Poll? && more[k + 1].ctl.Scan? ==> Repeats(c, more[k].w, f)
    {
      assert k < |tr| - 1 ==> more[k] == tr[k] && more[k + 1] == tr[k + 1] && Step(c, tr[k], tr[k + 1]);
    }
  }

  lemma ArriveStep(c: Config, s: State, i: nat, p: Packet)
    requires c.names != [] && i < |s.w.arrived|
    ensures Step(c, s, s.(w := Arrive(s.w, i, p)))
  {
    hide Move;
    assert Arrival(s.w, Arrive(s.w, i, p));
  }

  /** One turn: a packet without a route comes in on input 0, is polled, taken and dropped. */
  lemma FloodTurn(c: Config, tr: seq<State>, s: State, p: Packet) returns (more: seq<State>)
    requires c.names != [] && IsRun(c, tr) && Flooded(c, tr, 0) && s == tr[|tr| - 1] && s.ctl.Poll? && Shaped(c, s.w)
    requires s.w.taken[0] == |s.w.arrived[0]| && p != [] && Verdict(c, p) == -1
    ensures IsRun(c, more) && Flooded(c, more, 0)
    ensures var t := more[|more| - 1];
            t.ctl.Poll? && Shaped(c, t.w) && t.w.taken == s.w.taken[0 := s.w.taken[0] + 1]
            && t.w.arrived == s.w.arrived[0 := s.w.arrived[0] + [p]]
  {
    var w := Arrive(s.w, 0, p);
    assert Repeats(c, w, 0) && Head(w, 0) == p;
    var ready := Snapshot(w);
    PollSees(c, w, 0);
    var v := Take(w, 0);
    var s1, s2, s3 := s.(w := w), State(w, Scan(0, ready, false)), State(v, Got(0, ready, p));
    var s4, s5 := State(v, Routed(0, ready, p, -1)), State(v.(lost := v.lost + [Lost(0, p)]), Poll);
    ArriveStep(c, s, 0, p);
    PollMoves(c, w);
    TakeMoves(c, w, 0, ready, false);
    RouteMoves(c, v, 0, ready, p);
    assert SockIdx(c.routes, c.names, DstText(p)) == -1;
    hide Move, SockIdx, DstText, Arrival, IsRun, Flooded, Snapshot, Repeats;
    FloodGrows(c, tr, s, s1, 0);
    FloodGrows(c, tr + [s1], s1, s2, 0);
    FloodGrows(c, tr + [s1] + [s2], s2, s3, 0);
    FloodGrows(c, tr + [s1] + [s2] + [s3], s3, s4, 0);
    FloodGrows(c, tr + [s1] + [s2] + [s3] + [s4], s4, s5, 0);
    more := tr + [s1] + [s2] + [s3] + [s4] + [s5];
  }

  /**
   * With any packet `p` without a route flooding input 0, a packet `q` on input 1 can wait through
   * any number of turns.
   */
  lemma {:induction false} FloodLasts(c: Config, p: Packet, q: Packet, n: nat) returns (tr: seq<State>)
    requires |c.names| >= 2 && p != [] && Verdict(c, p) == -1
    ensures IsRun(c, tr) && Flooded(c, tr, 0)
    ensures var s := tr[|tr| - 1];
            s.ctl.Poll? && Shaped(c, s.w) && s.w.taken[0] == |s.w.arrived[0]| == n
            && s.w.taken[1] == 0 && s.w.arrived[1] == [q]
  {
    if n == 0 {
      var s := Start(c);
      tr := [s];
      ArriveStep(c, s, 1, q);
      FloodGrows(c, tr, s, s.(w := Arrive(s.w, 1, q)), 0);
      tr := tr + [s.(w := Arrive(s.w, 1, q))];
    } else {
      hide IsRun, Flooded, Verdict;
      tr := FloodLasts(c, p, q, n - 1);
      tr := FloodTurn(c, tr, tr[|tr| - 1], p);
    }
  }
}
