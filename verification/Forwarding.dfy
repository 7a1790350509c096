/**
 * The forwarding loop of the plain router: poll all inputs, scan the readable ones, route each
 * packet, and start over. Packets arrive at any moment.
 */
module Forwarding {
  import opened Checksum
  import opened Routing

  type Packet = seq<byte>

  datatype Config = Config(routes: seq<Route>, names: seq<string>)

  datatype Sent = Sent(input: nat, output: int, pkt: Packet)
  datatype Lost = Lost(input: nat, pkt: Packet)

  /** Per input, all packets that have arrived and how many were taken; and the logs of the outcomes. */
  datatype World = World(arrived: seq<seq<Packet>>, taken: seq<nat>, sent: seq<Sent>, lost: seq<Lost>)

  datatype Ctl =
    | Poll                                                // at `repeat`
    | Scan(i: nat, ready: seq<bool>, runnable: bool)      // in the for loop
    | Got(i: nat, ready: seq<bool>, pkt: Packet)          // recvfrom returned
    | Routed(i: nat, ready: seq<bool>, pkt: Packet, dst: int)
    | BlockPoll                                           // in the blocking poll

  datatype State = State(w: World, ctl: Ctl)

  // ----- the world

  predicate Shaped(c: Config, w: World) {
    && c.names != [] && |w.arrived| == |w.taken| == |c.names|
    && forall i :: 0 <= i < |w.taken| ==> w.taken[i] <= |w.arrived[i]|
  }

  predicate Waiting(w: World, i: nat) {
    i < |w.taken| && i < |w.arrived| && w.taken[i] < |w.arrived[i]|
  }

  /** What a poll reports: the inputs with packets waiting at that moment. */
  function Snapshot(w: World): seq<bool> {
    seq(|w.taken|, i requires 0 <= i => Waiting(w, i))
  }

  function Head(w: World, i: nat): Packet
    requires Waiting(w, i)
  {
    w.arrived[i][w.taken[i]]
  }

  function Take(w: World, i: nat): World
    requires Waiting(w, i)
  {
    w.(taken := w.taken[i := w.taken[i] + 1])
  }

  function Arrive(w: World, i: nat, p: Packet): World
    requires i < |w.arrived|
  {
    w.(arrived := w.arrived[i := w.arrived[i] + [p]])
  }

  ghost predicate Arrival(w: World, v: World) {
    exists i: nat, p: Packet :: i < |w.arrived| && v == Arrive(w, i, p)
  }

  /** The output of a packet, or -1 if it has no route; empty packets are dropped without a look. */
  function Verdict(c: Config, p: Packet): (o: int)
    requires c.names != []
    ensures -1 <= o < |c.names|
  {
    if p == [] then -1 else SockIdx(c.routes, c.names, DstText(p))
  }

  // ----- the loop

  /** The loop's own next step; false where it has to wait. */
  ghost predicate Move(c: Config, s: State, t: State)
    requires c.names != []
  {
    match s.ctl
    case Poll =>
      t == s.(ctl := Scan(0, Snapshot(s.w), false))
    case Scan(i, ready, runnable) =>
      if i >= |ready| then t == s.(ctl := if runnable then Poll else BlockPoll)
      else if !ready[i] then t == s.(ctl := Scan(i + 1, ready, runnable))
      else Waiting(s.w, i) && t == State(Take(s.w, i), Got(i, ready, Head(s.w, i)))
    case Got(i, ready, p) =>
      if p == [] then t == State(s.w.(lost := s.w.lost + [Lost(i, p)]), Scan(i + 1, ready, true))
      else t == s.(ctl := Routed(i, ready, p, SockIdx(c.routes, c.names, DstText(p))))
    case Routed(i, ready, p, dst) =>
      if dst == -1 then t == State(s.w.(lost := s.w.lost + [Lost(i, p)]), Poll)
      else t == State(s.w.(sent := s.w.sent + [Sent(i, dst, p)]), Scan(i + 1, ready, true))
    case BlockPoll =>
      (exists i :: Waiting(s.w, i)) && t == s.(ctl := Poll)
  }

  /** Arrivals interleave with the loop; an interrupted poll is a step that changes nothing. */
  ghost predicate Step(c: Config, s: State, t: State)
    requires c.names != []
  {
    t == s || (t.ctl == s.ctl && Arrival(s.w, t.w)) || Move(c, s, t)
  }

  function Start(c: Config): State {
    State(World(seq(|c.names|, _ => []), seq(|c.names|, _ => 0), [], []), Poll)
  }

  ghost predicate IsPath(c: Config, tr: seq<State>)
    requires c.names != []
  {
    tr != [] && forall k :: 0 <= k < |tr| - 1 ==> Step(c, tr[k], tr[k + 1])
  }

  ghost predicate IsRun(c: Config, tr: seq<State>)
    requires c.names != []
  {
    IsPath(c, tr) && tr[0] == Start(c)
  }

  // ----- conservation and order

  /** What was sent from one input, in the order of sending. */
  function From(log: seq<Sent>, i: nat): seq<Sent> {
    if log == [] then []
    else From(log[..|log| - 1], i) + if log[|log| - 1].input == i then [log[|log| - 1]] else []
  }

  function LostFrom(log: seq<Lost>, i: nat): seq<Packet> {
    if log == [] then []
    else LostFrom(log[..|log| - 1], i) + if log[|log| - 1].input == i then [log[|log| - 1].pkt] else []
  }

  /** What must be sent for these packets of one input: those with a route, each to its own output. */
  function Forwarded(c: Config, i: nat, ps: seq<Packet>): seq<Sent>
    requires c.names != []
  {
    if ps == [] then []
    else
      var p := ps[|ps| - 1];
      Forwarded(c, i, ps[..|ps| - 1]) + if Verdict(c, p) != -1 then [Sent(i, Verdict(c, p), p)] else []
  }

  function Unroutable(c: Config, ps: seq<Packet>): seq<Packet>
    requires c.names != []
  {
    if ps == [] then []
    else
      var p := ps[|ps| - 1];
      Unroutable(c, ps[..|ps| - 1]) + if Verdict(c, p) == -1 then [p] else []
  }

  predicate InHand(ctl: Ctl, i: nat) {
    (ctl.Got? || ctl.Routed?) && ctl.i == i
  }

  /** The packets of an input that the loop is done with. */
  function Done(s: State, i: nat): seq<Packet>
    requires i < |s.w.arrived| && i < |s.w.taken| && s.w.taken[i] <= |s.w.arrived[i]|
  {
    if InHand(s.ctl, i) && s.w.taken[i] > 0 then s.w.arrived[i][..s.w.taken[i] - 1]
    else s.w.arrived[i][..s.w.taken[i]]
  }

  /** Each input marked ready and not yet scanned still has a packet waiting. */
  predicate ReadyHolds(s: State) {
    match s.ctl
    case Poll => true
    case BlockPoll => true
    case Scan(i, ready, _) => forall j :: i <= j < |ready| && ready[j] ==> Waiting(s.w, j)
    case Got(i, ready, _) => forall j :: i < j < |ready| && ready[j] ==> Waiting(s.w, j)
    case Routed(i, ready, _, _) => forall j :: i < j < |ready| && ready[j] ==> Waiting(s.w, j)
  }

  predicate HandHolds(c: Config, s: State)
    requires Shaped(c, s.w)
  {
    (s.ctl.Got? || s.ctl.Routed?) ==>
      && s.ctl.i < |s.w.taken| && s.w.taken[s.ctl.i] > 0
      && s.ctl.pkt == s.w.arrived[s.ctl.i][s.w.taken[s.ctl.i] - 1]
      && (s.ctl.Routed? ==> s.ctl.pkt != [] && s.ctl.dst == Verdict(c, s.ctl.pkt))
  }

  predicate LogsMatch(c: Config, w: World, i: nat, done: seq<Packet>)
    requires c.names != []
  {
    From(w.sent, i) == Forwarded(c, i, done) && LostFrom(w.lost, i) == Unroutable(c, done)
  }

  predicate Settled(c: Config, s: State, i: nat)
    requires Shaped(c, s.w) && i < |c.names|
  {
    LogsMatch(c, s.w, i, Done(s, i))
  }

  predicate Inv(c: Config, s: State) {
    && Shaped(c, s.w) && ReadyHolds(s) && HandHolds(c, s)
    && forall i :: 0 <= i < |c.names| ==> Settled(c, s, i)
  }

  lemma LogsMatchSame(c: Config, w: World, v: World, i: nat, done: seq<Packet>)
    requires c.names != [] && v.sent == w.sent && v.lost == w.lost && LogsMatch(c, w, i, done)
    ensures LogsMatch(c, v, i, done)
  {
  }

  /** What an arrival changes: one queue grows at its end. */
  lemma ArrivalGrows(c: Config, w: World, v: World, j: nat)
    requires Shaped(c, w) && Arrival(w, v) && j < |c.names|
    ensures Shaped(c, v) && v.taken == w.taken && v.sent == w.sent && v.lost == w.lost
    ensures w.arrived[j] <= v.arrived[j] && (Waiting(w, j) ==> Waiting(v, j))
  {
    var i: nat, p: Packet :| i < |w.arrived| && v == Arrive(w, i, p);
  }

  lemma ArrivalKeepsReady(c: Config, s: State, t: State)
    requires Shaped(c, s.w) && ReadyHolds(s) && t.ctl == s.ctl && Arrival(s.w, t.w)
    ensures ReadyHolds(t)
  {
    hide Shaped, Arrival, Waiting;
    forall j: nat | j < |c.names|
      ensures Waiting(s.w, j) ==> Waiting(t.w, j)
    {
      ArrivalGrows(c, s.w, t.w, j);
    }
    assert forall j: nat :: Waiting(s.w, j) ==> j < |c.names| by {
      WaitingInside(c, s.w);
    }
  }

  lemma WaitingInside(c: Config, w: World)
    requires Shaped(c, w)
    ensures forall j: nat :: Waiting(w, j) ==> j < |c.names|
  {
  }

  lemma ArrivalKeepsSettled(c: Config, s: State, t: State, j: nat)
    requires Shaped(c, s.w) && HandHolds(c, s) && j < |c.names| && Settled(c, s, j)
    requires t.ctl == s.ctl && Arrival(s.w, t.w)
    ensures Shaped(c, t.w) && Settled(c, t, j)
  {
    ArrivalGrows(c, s.w, t.w, j);
    hide Arrival, LogsMatch;
    assert Done(t, j) == Done(s, j);
    LogsMatchSame(c, s.w, t.w, j, Done(s, j));
  }

  lemma ArrivalKeepsHand(c: Config, s: State, t: State)
    requires Shaped(c, s.w) && HandHolds(c, s) && t.ctl == s.ctl && Arrival(s.w, t.w)
    ensures Shaped(c, t.w) && HandHolds(c, t)
  {
    ArrivalGrows(c, s.w, t.w, if s.ctl.Got? || s.ctl.Routed? then s.ctl.i else 0);
    hide Arrival, Verdict;
  }

  lemma ArrivalKeepsInv(c: Config, s: State, t: State)
    requires Inv(c, s) && t.ctl == s.ctl && Arrival(s.w, t.w)
    ensures Inv(c, t)
  {
    hide Arrival, Settled, ReadyHolds, HandHolds;
    ArrivalKeepsHand(c, s, t);
    ArrivalKeepsReady(c, s, t);
    forall j | 0 <= j < |c.names|
      ensures Settled(c, t, j)
    {
      ArrivalKeepsSettled(c, s, t, j);
    }
  }

  lemma LogsGrow(log: seq<Sent>, x: Sent, lost: seq<Lost>, y: Lost, i: nat)
    ensures From(log + [x], i) == From(log, i) + if x.input == i then [x] else []
    ensures LostFrom(lost + [y], i) == LostFrom(lost, i) + if y.input == i then [y.pkt] else []
  {
    assert (log + [x])[..|log|] == log && (lost + [y])[..|lost|] == lost;
  }

  lemma DoneGrows(c: Config, i: nat, ps: seq<Packet>, p: Packet)
    requires c.names != []
    ensures Forwarded(c, i, ps + [p]) ==
            Forwarded(c, i, ps) + if Verdict(c, p) != -1 then [Sent(i, Verdict(c, p), p)] else []
    ensures Unroutable(c, ps + [p]) == Unroutable(c, ps) + if Verdict(c, p) == -1 then [p] else []
  {
    assert (ps + [p])[..|ps|] == ps;
  }

  /** The world after packet `p` of input `k` is sent or dropped as its verdict says. */
  function Dispose(c: Config, w: World, k: nat, p: Packet): World
    requires c.names != []
  {
    if Verdict(c, p) == -1 then w.(lost := w.lost + [Lost(k, p)])
    else w.(sent := w.sent + [Sent(k, Verdict(c, p), p)])
  }

  lemma DisposeMatches(c: Config, w: World, k: nat, p: Packet, i: nat, done: seq<Packet>)
    requires c.names != [] && LogsMatch(c, w, i, done)
    ensures LogsMatch(c, Dispose(c, w, k, p), i, if i == k then done + [p] else done)
  {
    hide Verdict, From, LostFrom, Forwarded, Unroutable;
    LogsGrow(w.sent, Sent(k, Verdict(c, p), p), w.lost, Lost(k, p), i);
    DoneGrows(c, i, done, p);
  }

  predicate LettingGo(ctl: Ctl) {
    (ctl.Got? && ctl.pkt == []) || ctl.Routed?
  }

  lemma MoveDisposes(c: Config, s: State, t: State)
    requires Shaped(c, s.w) && HandHolds(c, s) && Move(c, s, t) && LettingGo(s.ctl)
    ensures t.w == Dispose(c, s.w, s.ctl.i, s.ctl.pkt) && (t.ctl.Poll? || t.ctl.Scan?)
  {
    hide SockIdx, DstText;
  }

  /** Letting go of the packet in hand, sent or lost, settles it. */
  lemma Settles(c: Config, s: State, t: State, i: nat)
    requires Shaped(c, s.w) && HandHolds(c, s) && i < |c.names| && Settled(c, s, i)
    requires Move(c, s, t) && LettingGo(s.ctl)
    ensures Shaped(c, t.w) && Settled(c, t, i)
  {
    hide Move, From, LostFrom, Forwarded, Unroutable, Verdict;
    MoveDisposes(c, s, t);
    DisposeMatches(c, s.w, s.ctl.i, s.ctl.pkt, i, Done(s, i));
    assert Done(t, i) == if i == s.ctl.i then Done(s, i) + [s.ctl.pkt] else Done(s, i);
  }

  /** Every other move leaves the logs alone, and what each input is done with. */
  lemma MoveKeepsSettled(c: Config, s: State, t: State, i: nat)
    requires Shaped(c, s.w) && i < |c.names| && Settled(c, s, i) && Move(c, s, t) && !LettingGo(s.ctl)
    ensures Shaped(c, t.w) && Settled(c, t, i)
  {
    hide LogsMatch, SockIdx, DstText;
    assert t.w.sent == s.w.sent && t.w.lost == s.w.lost && Done(t, i) == Done(s, i);
    assert LogsMatch(c, s.w, i, Done(s, i));
    LogsMatchSame(c, s.w, t.w, i, Done(s, i));
  }

  lemma MoveKeepsReady(c: Config, s: State, t: State)
    requires Shaped(c, s.w) && ReadyHolds(s) && Move(c, s, t)
    ensures Shaped(c, t.w) && ReadyHolds(t)
  {
    hide SockIdx, DstText;
  }

  lemma MoveKeepsHand(c: Config, s: State, t: State)
    requires Shaped(c, s.w) && HandHolds(c, s) && Move(c, s, t)
    ensures Shaped(c, t.w) && HandHolds(c, t)
  {
    hide SockIdx, DstText;
  }

  lemma MoveKeepsInv(c: Config, s: State, t: State)
    requires Inv(c, s) && Move(c, s, t)
    ensures Inv(c, t)
  {
    hide Move, Settled, ReadyHolds, HandHolds;
    MoveKeepsReady(c, s, t);
    MoveKeepsHand(c, s, t);
    forall i | 0 <= i < |c.names|
      ensures Settled(c, t, i)
    {
      if LettingGo(s.ctl) {
        Settles(c, s, t, i);
      } else {
        MoveKeepsSettled(c, s, t, i);
      }
    }
  }

  lemma StartHolds(c: Config)
    requires c.names != []
    ensures Inv(c, Start(c))
  {
  }

  lemma {:induction false} RunHolds(c: Config, tr: seq<State>, k: nat)
    requires c.names != [] && IsRun(c, tr) && k < |tr|
    ensures Inv(c, tr[k])
  {
    hide Inv, Move, Arrival;
    if k == 0 {
      StartHolds(c);
    } else {
      RunHolds(c, tr, k - 1);
      assert Step(c, tr[k - 1], tr[k - 1 + 1]);
      if Move(c, tr[k - 1], tr[k]) {
        MoveKeepsInv(c, tr[k - 1], tr[k]);
      } else if tr[k] != tr[k - 1] {
        ArrivalKeepsInv(c, tr[k - 1], tr[k]);
      }
    }
  }

  /** Outside the blocking poll the loop never waits: where it calls recvfrom, a packet is there. */
  lemma ScanNeverWaits(c: Config, tr: seq<State>, k: nat) returns (t: State)
    requires c.names != [] && IsRun(c, tr) && k < |tr| && !tr[k].ctl.BlockPoll?
    ensures Move(c, tr[k], t)
  {
    var s := tr[k];
    RunHolds(c, tr, k);
    hide SockIdx, DstText;
    match s.ctl
    case Poll =>
      t := s.(ctl := Scan(0, Snapshot(s.w), false));
    case Scan(i, ready, runnable) =>
      t := if i >= |ready| then s.(ctl := if runnable then Poll else BlockPoll)
           else if !ready[i] then s.(ctl := Scan(i + 1, ready, runnable))
           else State(Take(s.w, i), Got(i, ready, Head(s.w, i)));
    case Got(i, ready, p) =>
      t := if p == [] then State(s.w.(lost := s.w.lost + [Lost(i, p)]), Scan(i + 1, ready, true))
           else s.(ctl := Routed(i, ready, p, SockIdx(c.routes, c.names, DstText(p))));
    case Routed(i, ready, p, dst) =>
      t := if dst == -1 then State(s.w.(lost := s.w.lost + [Lost(i, p)]), Poll)
           else State(s.w.(sent := s.w.sent + [Sent(i, dst, p)]), Scan(i + 1, ready, true));
  }

  /** The packets of a log that went to one output. */
  function ToOutput(log: seq<Sent>, o: int): seq<Packet> {
    if log == [] then []
    else ToOutput(log[..|log| - 1], o) + if log[|log| - 1].output == o then [log[|log| - 1].pkt] else []
  }

  /** The packets among these that are routed to one output. */
  function RoutedTo(c: Config, ps: seq<Packet>, o: int): seq<Packet>
    requires c.names != []
  {
    if ps == [] then []
    else RoutedTo(c, ps[..|ps| - 1], o) + if Verdict(c, ps[|ps| - 1]) == o then [ps[|ps| - 1]] else []
  }

  lemma {:induction false} ForwardedToOutput(c: Config, i: nat, ps: seq<Packet>, o: nat)
    requires c.names != []
    ensures ToOutput(Forwarded(c, i, ps), o) == RoutedTo(c, ps, o)
    ensures |Forwarded(c, i, ps)| + |Unroutable(c, ps)| == |ps|
  {
    hide Verdict;
    if ps != [] {
      var init := ps[..|ps| - 1];
      ForwardedToOutput(c, i, init, o);
      var v := Verdict(c, ps[|ps| - 1]);
      if v != -1 {
        var log := Forwarded(c, i, init) + [Sent(i, v, ps[|ps| - 1])];
        assert log[..|log| - 1] == Forwarded(c, i, init);
      } else {
        assert Forwarded(c, i, init) + [] == Forwarded(c, i, init);
        assert RoutedTo(c, init, o) + [] == RoutedTo(c, init, o);
      }
    }
  }

  /**
   * Conservation and order, in every reachable state and for every input: the packets taken are the
   * ones sent, the ones dropped for lack of a route, and at most one in hand; and what went from
   * this input to an output is, in arrival order, what the routes send there.
   */
  lemma ConservationAndOrder(c: Config, tr: seq<State>, k: nat, i: nat, o: nat)
    requires c.names != [] && IsRun(c, tr) && k < |tr| && i < |c.names| && o < |c.names|
    ensures var s := tr[k];
            && Shaped(c, s.w)
            && s.w.taken[i] == |From(s.w.sent, i)| + |LostFrom(s.w.lost, i)| + (if InHand(s.ctl, i) then 1 else 0)
            && ToOutput(From(s.w.sent, i), o) == RoutedTo(c, Done(s, i), o)
            && LostFrom(s.w.lost, i) == RoutedTo(c, Done(s, i), -1)
            && Done(s, i) <= s.w.arrived[i]
  {
    var s := tr[k];
    RunHolds(c, tr, k);
    assert Settled(c, s, i);
    ForwardedToOutput(c, i, Done(s, i), o);
    UnroutableIsRoutedNowhere(c, Done(s, i));
  }

  lemma {:induction false} UnroutableIsRoutedNowhere(c: Config, ps: seq<Packet>)
    requires c.names != []
    ensures Unroutable(c, ps) == RoutedTo(c, ps, -1)
  {
    if ps != [] {
      UnroutableIsRoutedNowhere(c, ps[..|ps| - 1]);
    }
  }

  // ----- the loop as code

  /** Packets that come in one after the other, each with its input. */
  type Arrivals = seq<(nat, Packet)>

  function ArriveAll(w: World, ps: Arrivals): World
    decreases |ps|
  {
    if ps == [] then w
    else ArriveAll(if ps[0].0 < |w.arrived| then Arrive(w, ps[0].0, ps[0].1) else w, ps[1..])
  }

  lemma {:induction false} ArrivalsGrow(c: Config, w: World, ps: Arrivals)
    requires Shaped(c, w)
    ensures var v := ArriveAll(w, ps);
            && Shaped(c, v) && v.taken == w.taken && v.sent == w.sent && v.lost == w.lost
            && forall j :: 0 <= j < |c.names| ==> w.arrived[j] <= v.arrived[j]
    decreases |ps|
  {
    if ps != [] {
      ArrivalsGrow(c, if ps[0].0 < |w.arrived| then Arrive(w, ps[0].0, ps[0].1) else w, ps[1..]);
    }
  }

  /** A path of steps from one state to another. */
  ghost predicate Path(c: Config, path: seq<State>, s: State, t: State)
    requires c.names != []
  {
    IsPath(c, path) && path[0] == s && path[|path| - 1] == t
  }

  lemma PathSteps(c: Config, path: seq<State>, s: State, t: State, u: State)
    requires c.names != [] && Path(c, path, s, t) && Step(c, t, u)
    ensures Path(c, path + [u], s, u)
  {
    hide Step;
  }

  lemma PathMoves(c: Config, path: seq<State>, s: State, t: State, u: State)
    requires c.names != [] && Path(c, path, s, t) && Move(c, t, u)
    ensures Path(c, path + [u], s, u)
  {
    hide Move, Path;
    PathSteps(c, path, s, t, u);
  }

  /** The path of a loop that stands still while packets come in. */
  lemma {:induction false} ArrivalPath(c: Config, path: seq<State>, s: State, t: State, ps: Arrivals)
    returns (more: seq<State>)
    requires c.names != [] && Path(c, path, s, t)
    ensures Path(c, more, s, t.(w := ArriveAll(t.w, ps)))
    decreases |ps|
  {
    hide Move, Path;
    more := path;
    if ps != [] {
      var u := t.(w := if ps[0].0 < |t.w.arrived| then Arrive(t.w, ps[0].0, ps[0].1) else t.w);
      PathSteps(c, path, s, t, u);
      more := ArrivalPath(c, path + [u], s, u, ps[1..]);
    }
  }

  /** The packet at the head of input `i` has no route, so that taking it ends the scan. */
  predicate Repeats(c: Config, w: World, i: nat)
    requires c.names != []
  {
    Waiting(w, i) && Head(w, i) != [] && Verdict(c, Head(w, i)) == -1
  }

  /** The head of a queue stays what the poll saw, if nothing was taken from it. */
  lemma HeadStays(c: Config, w: World, v: World, i: nat)
    requires c.names != [] && i < |w.taken| && i < |v.taken| && i < |w.arrived| && i < |v.arrived|
    requires v.taken[i] == w.taken[i] && w.arrived[i] <= v.arrived[i]
    ensures Waiting(w, i) ==> Waiting(v, i) && (Repeats(c, v, i) <==> Repeats(c, w, i))
    ensures !Waiting(w, i) ==> !Repeats(c, w, i)
  {
    hide Verdict;
  }

  /** A turn that polls `w` gets as far as input `j`. */
  predicate Reaches(c: Config, w: World, j: nat)
    requires c.names != []
  {
    forall i: nat :: i < j ==> !Repeats(c, w, i)
  }

  /** The inputs below `k` that a poll of `w` reported have given up one packet each, the others none. */
  predicate TookReady(w: World, v: World, k: nat) {
    && |v.taken| == |w.taken|
    && forall j :: 0 <= j < |w.taken| ==> v.taken[j] == w.taken[j] + if j < k && Waiting(w, j) then 1 else 0
  }

  /** The loop body for an input that the poll reported; `again` is its `goto repeat`. */
  method Forward(c: Config, w: World, i: nat, ready: seq<bool>, ghost runnable: bool,
      ghost start: State, ghost path: seq<State>)
    returns (v: World, again: bool, ghost more: seq<State>)
    requires Shaped(c, w) && i < |ready| && ready[i] && Waiting(w, i)
    requires Path(c, path, start, State(w, Scan(i, ready, runnable)))
    ensures Path(c, more, start, State(v, if again then Poll else Scan(i + 1, ready, true)))
    ensures Shaped(c, v) && v.arrived == w.arrived && v.taken == w.taken[i := w.taken[i] + 1]
    ensures again <==> Repeats(c, w, i)
  {
    hide Move, SockIdx, DstText, Path;
    again := false;
    var p := Head(w, i);
    v := Take(w, i);
    TakeMoves(c, w, i, ready, runnable);
    ghost var s, t := State(w, Scan(i, ready, runnable)), State(v, Got(i, ready, p));
    PathMoves(c, path, start, s, t);
    more := path + [t];
    if p != [] {
      var dst := SockIdx(c.routes, c.names, DstText(p));
      RouteMoves(c, v, i, ready, p);
      s, t := t, State(v, Routed(i, ready, p, dst));
      PathMoves(c, more, start, s, t);
      more := more + [t];
      if dst != -1 {
        v := v.(sent := v.sent + [Sent(i, dst, p)]);
      } else {
        v := v.(lost := v.lost + [Lost(i, p)]);
        again := true;
      }
    } else {
      EmptyMoves(c, v, i, ready);
      v := v.(lost := v.lost + [Lost(i, p)]);
    }
    s, t := t, State(v, if again then Poll else Scan(i + 1, ready, true));
    PathMoves(c, more, start, s, t);
    more := more + [t];
  }

  /** The loop body for any input, after the packets `ps` have come in. */
  method Look(c: Config, w: World, ps: Arrivals, i: nat, ready: seq<bool>, ghost runnable: bool,
      ghost start: State, ghost path: seq<State>)
    returns (v: World, again: bool, ghost more: seq<State>)
    requires Shaped(c, w) && i < |ready| == |c.names| && (ready[i] ==> Waiting(w, i))
    requires Path(c, path, start, State(w, Scan(i, ready, runnable)))
    ensures Path(c, more, start, State(v, if again then Poll else Scan(i + 1, ready, runnable || ready[i])))
    ensures Shaped(c, v) && v.taken == if ready[i] then w.taken[i := w.taken[i] + 1] else w.taken
    ensures forall j :: 0 <= j < |c.names| ==> w.arrived[j] <= v.arrived[j]
    ensures again <==> ready[i] && Repeats(c, w, i)
  {
    hide Move, Path, ArriveAll, Repeats;
    ArrivalsGrow(c, w, ps);
    more := ArrivalPath(c, path, start, State(w, Scan(i, ready, runnable)), ps);
    v := ArriveAll(w, ps);
    HeadStays(c, w, v, i);
    again := false;
    if ready[i] {
      v, again, more := Forward(c, v, i, ready, runnable, start, more);
    } else {
      SkipMoves(c, v, i, ready, runnable);
      ghost var t := State(v, Scan(i + 1, ready, runnable));
      PathMoves(c, more, start, State(v, Scan(i, ready, runnable)), t);
      more := more + [t];
    }
  }

  /**
   * One turn of the outer loop; `arrivals[i]` comes in just before input `i` is looked at. The turn
   * is a path of the step relation. It serves input `j`, by one packet, exactly if the poll reported
   * it and no lower input had a packet without a route at its head; and it blocks exactly if the
   * poll reported none.
   */
  method Turn(c: Config, w: World, arrivals: seq<Arrivals>)
    returns (v: World, block: bool, ghost path: seq<State>)
    requires Shaped(c, w) && |arrivals| == |c.names|
    ensures Path(c, path, State(w, Poll), State(v, if block then BlockPoll else Poll))
    ensures |v.taken| == |w.taken| == |c.names|
    ensures forall j :: 0 <= j < |c.names| ==>
              v.taken[j] == w.taken[j] + if Waiting(w, j) && Reaches(c, w, j) then 1 else 0
    ensures block <==> forall i :: 0 <= i < |w.taken| ==> !Waiting(w, i)
  {
    ghost var start := State(w, Poll);
    var ready := Snapshot(w);
    var runnable := false;
    v := w;
    PollMoves(c, w);
    PathMoves(c, [start], start, start, State(w, Scan(0, ready, false)));
    path := [start] + [State(w, Scan(0, ready, false))];
    hide Move, Path, ArriveAll, Repeats;
    for i := 0 to |c.names|
      invariant Path(c, path, start, State(v, Scan(i, ready, runnable)))
      invariant Shaped(c, v) && TookReady(w, v, i)
      invariant forall j :: 0 <= j < |c.names| ==> w.arrived[j] <= v.arrived[j]
      invariant runnable <==> exists j :: 0 <= j < i && ready[j]
      invariant Reaches(c, w, i)
    {
      HeadStays(c, w, v, i);
      var again;
      v, again, path := Look(c, v, arrivals[i], i, ready, runnable, start, path);
      if again {
        return v, false, path;
      }
      runnable := runnable || ready[i];
    }
    EndMoves(c, v, ready, runnable);
    block := !runnable;
    ghost var t := State(v, if block then BlockPoll else Poll);
    PathMoves(c, path, start, State(v, Scan(|ready|, ready, runnable)), t);
    path := path + [t];
    assert forall j :: 0 <= j < |w.taken| ==> ready[j] == Waiting(w, j);
  }

  lemma PollMoves(c: Config, w: World)
    requires c.names != []
    ensures Move(c, State(w, Poll), State(w, Scan(0, Snapshot(w), false)))
  {
  }

  lemma TakeMoves(c: Config, w: World, i: nat, ready: seq<bool>, runnable: bool)
    requires c.names != [] && i < |ready| && ready[i] && Waiting(w, i)
    ensures Move(c, State(w, Scan(i, ready, runnable)), State(Take(w, i), Got(i, ready, Head(w, i))))
  {
  }

  lemma SkipMoves(c: Config, w: World, i: nat, ready: seq<bool>, runnable: bool)
    requires c.names != [] && i < |ready| && !ready[i]
    ensures Move(c, State(w, Scan(i, ready, runnable)), State(w, Scan(i + 1, ready, runnable)))
  {
  }

  lemma EndMoves(c: Config, w: World, ready: seq<bool>, runnable: bool)
    requires c.names != []
    ensures Move(c, State(w, Scan(|ready|, ready, runnable)), State(w, if runnable then Poll else BlockPoll))
  {
  }

  lemma EmptyMoves(c: Config, w: World, i: nat, ready: seq<bool>)
    requires c.names != []
    ensures Move(c, State(w, Got(i, ready, [])), State(w.(lost := w.lost + [Lost(i, [])]), Scan(i + 1, ready, true)))
  {
  }

  /** Routing the packet in hand, and then sending it or starting over. */
  lemma RouteMoves(c: Config, w: World, i: nat, ready: seq<bool>, p: Packet)
    requires c.names != [] && p != []
    ensures var dst := SockIdx(c.routes, c.names, DstText(p));
            var routed := State(w, Routed(i, ready, p, dst));
            && Move(c, State(w, Got(i, ready, p)), routed)
            && Move(c, routed, if dst == -1 then State(w.(lost := w.lost + [Lost(i, p)]), Poll)
                               else State(w.(sent := w.sent + [Sent(i, dst, p)]), Scan(i + 1, ready, true)))
  {
  }
}
