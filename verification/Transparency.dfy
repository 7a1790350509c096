/**
 * Virtual time takes no behaviour away: whatever world the plain loop reaches, the instrumented
 * loop reaches on the same arrivals. Together with the simulation of the instrumented loop by the
 * plain one, the two reach the same worlds.
 */
module Transparency {
  import opened Routing
  import opened Forwarding
  import opened Instrumented

  predicate SomeWaiting(w: World) {
    exists i: nat :: i < |w.taken| && Waiting(w, i)
  }

  /**
   * The instrumented loop stands where the plain one does. A plain loop back from its blocking poll
   * is matched by one still in it that can wake, for the instrumented loop polls as it wakes.
   */
  predicate Matches(m: State, v: VState) {
    && v.w == m.w
    && match m.ctl
       case Poll => v.ctl.Top? || (v.ctl.Blocked? && SomeWaiting(m.w))
       case Scan(i, ready, runnable) => v.ctl == Scanning(i, ready, runnable)
       case Got(i, ready, p) => v.ctl == Received(i, ready, p)
       case Routed(i, ready, p, dst) => v.ctl == HasRoute(i, ready, p, dst)
       case BlockPoll => v.ctl.Blocked?
  }

  /** An instrumented run up to `v`. */
  ghost predicate RunTo(c: Config, vtr: seq<VState>, v: VState)
    requires c.names != []
  {
    IsVRun(c, vtr) && vtr[|vtr| - 1] == v
  }

  lemma Onward(c: Config, vtr: seq<VState>, v: VState, u: VState) returns (more: seq<VState>)
    requires c.names != [] && RunTo(c, vtr, v) && VStep(c, v, u)
    ensures RunTo(c, more, u)
  {
    hide VStep;
    more := vtr + [u];
    forall k | 0 <= k < |more| - 1
      ensures VStep(c, more[k], more[k + 1])
    {
      assert k < |vtr| - 1 ==> VStep(c, vtr[k], vtr[k + 1]);
    }
  }

  lemma MoveOnward(c: Config, vtr: seq<VState>, v: VState, u: VState) returns (more: seq<VState>)
    requires c.names != [] && RunTo(c, vtr, v) && VMove(c, v, u)
    ensures RunTo(c, more, u)
  {
    hide VMove, Arrival, RunTo;
    more := Onward(c, vtr, v, u);
  }

  /** A poll, from the top or out of the blocking poll. */
  lemma MatchPoll(c: Config, vtr: seq<VState>, v: VState, m: State) returns (more: seq<VState>)
    requires c.names != [] && RunTo(c, vtr, v) && Matches(m, v) && m.ctl.Poll?
    ensures RunTo(c, more, VState(m.w, Scanning(0, Snapshot(m.w), false)))
  {
    hide RunTo, Waiting, Snapshot;
    var ready := Snapshot(m.w);
    var done := VState(m.w, Scanning(0, ready, false));
    if v.ctl.Top? {
      var v1, v2 := v.(ctl := PollNow), v.(ctl := PollCharge(ready));
      more := MoveOnward(c, vtr, v, v1);
      more := MoveOnward(c, more, v1, v2);
      more := MoveOnward(c, more, v2, done);
    } else {
      var v1 := v.(ctl := Resuming(ready));
      more := MoveOnward(c, vtr, v, v1);
      more := MoveOnward(c, more, v1, done);
    }
  }

  /** A packet taken, with the charges before and after. */
  lemma MatchTake(c: Config, vtr: seq<VState>, v: VState, i: nat, ready: seq<bool>, runnable: bool)
    returns (more: seq<VState>)
    requires c.names != [] && RunTo(c, vtr, v) && v.ctl == Scanning(i, ready, runnable)
    requires i < |ready| && ready[i] && Waiting(v.w, i)
    ensures RunTo(c, more, VState(Take(v.w, i), Received(i, ready, Head(v.w, i))))
  {
    hide RunTo, Waiting, Take, Head;
    var v1, v2 := v.(ctl := FlushCharge(i, ready, runnable)), v.(ctl := Receiving(i, ready, runnable));
    var v3 := VState(Take(v.w, i), ReceiveCharge(i, ready, Head(v.w, i)));
    more := MoveOnward(c, vtr, v, v1);
    more := MoveOnward(c, more, v1, v2);
    more := MoveOnward(c, more, v2, v3);
    more := MoveOnward(c, more, v3, v3.(ctl := Received(i, ready, Head(v.w, i))));
  }

  /** A packet in hand is dropped as empty, or routed. */
  lemma MatchGot(c: Config, vtr: seq<VState>, v: VState, m: State, n: State)
    returns (more: seq<VState>, u: VState)
    requires c.names != [] && RunTo(c, vtr, v) && Matches(m, v) && m.ctl.Got? && Move(c, m, n)
    ensures RunTo(c, more, u) && Matches(n, u)
  {
    hide RunTo, SockIdx, DstText, Waiting;
    if m.ctl.pkt == [] {
      u := VState(n.w, Scanning(m.ctl.i + 1, m.ctl.ready, true));
      more := MoveOnward(c, vtr, v, u);
    } else {
      var v1 := v.(ctl := RouteCharge(m.ctl.i, m.ctl.ready, m.ctl.pkt, n.ctl.dst));
      u := v.(ctl := HasRoute(m.ctl.i, m.ctl.ready, m.ctl.pkt, n.ctl.dst));
      more := MoveOnward(c, vtr, v, v1);
      more := MoveOnward(c, more, v1, u);
    }
  }

  /** A routed packet is dropped, or sent and charged. */
  lemma MatchRouted(c: Config, vtr: seq<VState>, v: VState, m: State, n: State)
    returns (more: seq<VState>, u: VState)
    requires c.names != [] && RunTo(c, vtr, v) && Matches(m, v) && m.ctl.Routed? && Move(c, m, n)
    ensures RunTo(c, more, u) && Matches(n, u)
  {
    hide RunTo, Waiting;
    if m.ctl.dst == -1 {
      u := VState(n.w, Top);
      more := MoveOnward(c, vtr, v, u);
    } else {
      var v1 := VState(n.w, SendCharge(m.ctl.i, m.ctl.ready));
      u := VState(n.w, Scanning(m.ctl.i + 1, m.ctl.ready, true));
      more := MoveOnward(c, vtr, v, v1);
      more := MoveOnward(c, more, v1, u);
    }
  }

  lemma MatchScan(c: Config, vtr: seq<VState>, v: VState, m: State, n: State)
    returns (more: seq<VState>, u: VState)
    requires c.names != [] && RunTo(c, vtr, v) && Matches(m, v) && m.ctl.Scan? && Move(c, m, n)
    ensures RunTo(c, more, u) && Matches(n, u)
  {
    hide RunTo, Waiting, Take, Head;
    var i, ready, runnable := m.ctl.i, m.ctl.ready, m.ctl.runnable;
    if i < |ready| && ready[i] {
      more := MatchTake(c, vtr, v, i, ready, runnable);
      u := VState(n.w, Received(i, ready, Head(m.w, i)));
    } else {
      u := v.(ctl := if i < |ready| then Scanning(i + 1, ready, runnable) else if runnable then Top else Blocked);
      more := MoveOnward(c, vtr, v, u);
    }
  }

  lemma MatchMove(c: Config, vtr: seq<VState>, v: VState, m: State, n: State) returns (more: seq<VState>, u: VState)
    requires c.names != [] && RunTo(c, vtr, v) && Matches(m, v) && Move(c, m, n) && Shaped(c, m.w)
    ensures RunTo(c, more, u) && Matches(n, u)
  {
    if m.ctl.Poll? {
      hide RunTo, Waiting, Snapshot;
      u := VState(m.w, Scanning(0, Snapshot(m.w), false));
      more := MatchPoll(c, vtr, v, m);
    } else if m.ctl.Scan? {
      more, u := MatchScan(c, vtr, v, m, n);
    } else if m.ctl.Got? {
      more, u := MatchGot(c, vtr, v, m, n);
    } else if m.ctl.Routed? {
      more, u := MatchRouted(c, vtr, v, m, n);
    } else {
      more, u := vtr, v;
    }
  }

  lemma MatchArrival(c: Config, vtr: seq<VState>, v: VState, m: State, n: State) returns (more: seq<VState>, u: VState)
    requires c.names != [] && RunTo(c, vtr, v) && Matches(m, v) && Shaped(c, m.w)
    requires n.ctl == m.ctl && Arrival(m.w, n.w)
    ensures RunTo(c, more, u) && Matches(n, u)
  {
    u := v.(w := n.w);
    WaitingLasts(c, m.w, n.w);
    hide RunTo, Arrival, VMove, SomeWaiting;
    more := Onward(c, vtr, v, u);
  }

  lemma WaitingLasts(c: Config, w: World, v: World)
    requires Shaped(c, w) && Arrival(w, v)
    ensures SomeWaiting(w) ==> SomeWaiting(v)
  {
    if SomeWaiting(w) {
      var i: nat :| i < |w.taken| && Waiting(w, i);
      ArrivalGrows(c, w, v, i);
    }
  }

  /** Every plain run is matched, step by step, by an instrumented run on the same arrivals. */
  lemma {:induction false} Covers(c: Config, tr: seq<State>, k: nat) returns (vtr: seq<VState>, v: VState)
    requires c.names != [] && IsRun(c, tr) && k < |tr|
    ensures RunTo(c, vtr, v) && Matches(tr[k], v)
  {
    hide Move, Arrival, VMove, Inv;
    if k == 0 {
      v := VState(Start(c).w, Top);
      vtr := [v];
    } else {
      hide RunTo, Matches;
      vtr, v := Covers(c, tr, k - 1);
      RunHolds(c, tr, k - 1);
      ShapeHolds(c, tr[k - 1]);
      assert Step(c, tr[k - 1], tr[k - 1 + 1]);
      if Move(c, tr[k - 1], tr[k]) {
        vtr, v := MatchMove(c, vtr, v, tr[k - 1], tr[k]);
      } else if tr[k] != tr[k - 1] {
        vtr, v := MatchArrival(c, vtr, v, tr[k - 1], tr[k]);
      }
    }
  }

  lemma ShapeHolds(c: Config, s: State)
    requires Inv(c, s)
    ensures Shaped(c, s.w)
  {
  }

  // ----- the same worlds

  ghost predicate PlainReaches(c: Config, w: World)
    requires c.names != []
  {
    exists tr: seq<State> :: IsRun(c, tr) && tr[|tr| - 1].w == w
  }

  ghost predicate VirtualReaches(c: Config, w: World)
    requires c.names != []
  {
    exists vtr: seq<VState> :: IsVRun(c, vtr) && vtr[|vtr| - 1].w == w
  }

  /** The worlds that the router reaches under virtual time are exactly those that the plain router reaches. */
  lemma SameWorlds(c: Config, w: World)
    requires c.names != []
    ensures VirtualReaches(c, w) <==> PlainReaches(c, w)
  {
    hide Step, VStep;
    if VirtualReaches(c, w) {
      var vtr: seq<VState> :| IsVRun(c, vtr) && vtr[|vtr| - 1].w == w;
      var tr := Transparent(c, vtr);
      assert IsRun(c, tr) && tr[|tr| - 1].w == w;
    }
    if PlainReaches(c, w) {
      var tr: seq<State> :| IsRun(c, tr) && tr[|tr| - 1].w == w;
      var vtr, v := Covers(c, tr, |tr| - 1);
      assert IsVRun(c, vtr) && vtr[|vtr| - 1].w == w;
    }
  }
}
