/** The command string that the time keeper hands to a controller: `|pid,count` items, or "STOP". */
module Command {
  import opened Decimal

  const DEFAULT_ADVANCE: int := 100

  /** Division by 1000 as C does it, towards zero. */
  function Thousandth(x: int): int {
    if x >= 0 then x / 1000 else -(-x / 1000)
  }

  /** The round length taken from a u32 instruction count: it passes through a signed int first. */
  function AdvanceOf(insns: nat): int {
    Thousandth(Wrap32(insns))
  }

  function Clamp(advance: int): int {
    if advance < 0 then DEFAULT_ADVANCE else advance
  }

  lemma {:induction false} RunEndInside(b: string, at: nat)
    requires CString(b) && at < |b|
    ensures RunEnd(b, at) < |b|
    decreases |b| - at
  {
    if IsDigit(b[at]) {
      RunEndInside(b, at + 1);
    }
  }

  predicate StopsAt(b: string, i: nat)
    requires CString(b) && i < |b|
  {
    b[i..|b| - 1] == "STOP"
  }

  /** The distance from `at` to the value after the next separator, or -1 at the end of the string. */
  function NextValue(b: string, at: nat): (r: int)
    requires CString(b) && at < |b| - 1
    ensures r == -1 || (2 <= r && at + r < |b| - 1)
  {
    RunEndInside(b, at + 1);
    var e := RunEnd(b, at + 1);
    if b[e] == '\0' || b[e + 1] == '\0' then -1 else e - at + 1
  }

  /** get_next_value. Every index read lies inside the string or on its terminator. */
  method GetNextValue(b: string, at: nat) returns (r: int)
    requires CString(b) && at < |b| - 1
    ensures r == NextValue(b, at)
  {
    var i := 1;
    while IsDigit(b[at + i])
      invariant 1 <= i && at + i < |b|
      invariant forall k :: at + 1 <= k < at + i ==> IsDigit(b[k])
      decreases |b| - i
    {
      i := i + 1;
    }
    RunEndUnique(b, at + 1, at + i);
    if b[at + i] == '\0' {
      return -1;
    }
    if b[at + i + 1] == '\0' {
      return -1;
    }
    return i + 1;
  }

  datatype Tuple = Tuple(resume: int, pid: int, insns: nat)

  /** One step of the parser, from resume point `i`. */
  function ParseTuple(b: string, i: nat): Tuple
    requires CString(b) && i < |b|
  {
    if StopsAt(b, i) then Tuple(-1, -1, 0)
    else if b[i] != '|' || NextValue(b, i) == -1 then Tuple(-1, 0, 0)
    else
      var nxt := i + NextValue(b, i);
      Tuple(nxt + NextValue(b, nxt) - 1, StrToI(b, i + 1), StrToI(b, nxt) % TWO32)
  }

  /** get_next_command_tuple. */
  method GetNextCommandTuple(b: string, resumePtr: nat) returns (resume: int, pid: int, insns: nat)
    requires CString(b) && resumePtr < |b|
    ensures Tuple(resume, pid, insns) == ParseTuple(b, resumePtr)
  {
    if b[resumePtr..|b| - 1] == "STOP" {
      return -1, -1, 0;
    }
    pid, insns := 0, 0;
    if b[resumePtr] != '|' || b[resumePtr] == '\0' {
      return -1, pid, insns;
    }
    pid := ReadInt(b, resumePtr + 1);
    var nxt := GetNextValue(b, resumePtr);
    if nxt == -1 {
      return -1, 0, 0;
    }
    nxt := nxt + resumePtr;
    var count := ReadInt(b, nxt);
    var step := GetNextValue(b, nxt);
    resume, insns := nxt + step - 1, count % TWO32;
  }

  /** A non-zero pid needs a digit, so the resume point moves on, even when it steps back by two. */
  lemma Progress(b: string, i: nat)
    requires CString(b) && i < |b|
    ensures var t := ParseTuple(b, i);
            && (t.resume == -1 ==> t.pid == 0 || (t.pid == -1 && StopsAt(b, i)))
            && (t.resume != -1 ==> i <= t.resume < |b| - 1)
            && (t.resume != -1 && t.pid != 0 ==> i < t.resume)
  {
    if !StopsAt(b, i) && b[i] == '|' && NextValue(b, i) == 2 {
      assert RunEnd(b, i + 1) == i + 1;
      assert b[i + 1..i + 1] == [];
    }
  }

  /** What the controller gets: the round length, and the (pid, count) pairs it accepted. */
  datatype Outcome = Outcome(advance: int, received: seq<(int, nat)>)

  function CommandLoop(b: string, tail: nat, advance: int): Outcome
    requires CString(b) && tail < |b|
    decreases |b| - tail
  {
    var t := ParseTuple(b, tail);
    Progress(b, tail);
    if t.resume == -1 && t.pid == -1 then Outcome(-1, [])
    else if t.pid == 0 then Outcome(Clamp(advance), [])
    else
      var rest := CommandLoop(b, t.resume, AdvanceOf(t.insns));
      Outcome(rest.advance, [(t.pid, t.insns)] + rest.received)
  }

  datatype Answer = Failed | Ok(command: string)

  /** What a fetch makes of the kernel's answer, read from the start of the string. */
  function Fetch(answer: Answer): Outcome
    requires answer.Ok? ==> CString(answer.command)
  {
    match answer
    case Failed => Outcome(DEFAULT_ADVANCE, [])
    case Ok(command) => CommandLoop(command, 0, DEFAULT_ADVANCE)
  }

  /** ack_and_get_next_command, given what the kernel call left in the buffer. */
  method AckAndGetNextCommand(answer: Answer) returns (result: int, received: seq<(int, nat)>)
    requires answer.Ok? ==> CString(answer.command)
    ensures Outcome(result, received) == Fetch(answer)
    ensures answer.Failed? ==> result == 100 && received == []
  {
    var advance := DEFAULT_ADVANCE;
    received := [];
    if answer.Ok? {
      var b := answer.command;
      var tail := 0;
      ghost var goal := CommandLoop(b, 0, DEFAULT_ADVANCE);
      while tail != -1
        invariant 0 <= tail < |b|
        invariant goal.advance == CommandLoop(b, tail, advance).advance
        invariant goal.received == received + CommandLoop(b, tail, advance).received
        decreases |b| - tail
      {
        Progress(b, tail);
        var pid, insns;
        tail, pid, insns := GetNextCommandTuple(b, tail);
        if tail == -1 && pid == -1 {
          return -1, received;
        }
        if pid == 0 {
          break;
        }
        received := received + [(pid, insns)];
        advance := AdvanceOf(insns);
      }
    }
    result := Clamp(advance);
  }

  /** The resume points that the loop reaches from `tail`. */
  ghost predicate Visits(b: string, tail: nat, k: nat)
    requires CString(b) && tail < |b|
    decreases |b| - tail
  {
    Progress(b, tail);
    var t := ParseTuple(b, tail);
    tail == k || (t.resume != -1 && t.pid != 0 && Visits(b, t.resume, k))
  }

  /** The controller is told to stop exactly when a resume point sees "STOP"; otherwise the round is a natural int. */
  lemma {:induction false} StopExactly(b: string, tail: nat, advance: int)
    requires CString(b) && tail < |b|
    ensures CommandLoop(b, tail, advance).advance == -1 <==>
            exists k: nat :: k < |b| && Visits(b, tail, k) && StopsAt(b, k)
    ensures CommandLoop(b, tail, advance).advance >= -1
    ensures advance < TWO31 ==> CommandLoop(b, tail, advance).advance < TWO31
    decreases |b| - tail
  {
    Progress(b, tail);
    var t := ParseTuple(b, tail);
    if StopsAt(b, tail) {
      assert Visits(b, tail, tail);
    } else if t.resume != -1 && t.pid != 0 {
      StopExactly(b, t.resume, AdvanceOf(t.insns));
      forall k: nat | k < |b| && Visits(b, t.resume, k)
        ensures Visits(b, tail, k)
      {
      }
    }
  }

  // ----- printing commands and reading them back

  function PrintItem(pid: nat, count: nat): string {
    "|" + Digits(pid) + "," + Digits(count)
  }

  function Print(cmds: seq<(int, nat)>): string
    requires forall c <- cmds :: c.0 >= 0
  {
    if cmds == [] then "" else PrintItem(cmds[0].0, cmds[0].1) + Print(cmds[1..])
  }

  predicate Printable(cmds: seq<(int, nat)>) {
    forall c <- cmds :: 0 < c.0 < TWO31 && c.1 < TWO32
  }

  lemma ReadDigits(b: string, at: nat, n: nat)
    requires at + |Digits(n)| < |b| && b[at..at + |Digits(n)|] == Digits(n)
    requires !IsDigit(b[at + |Digits(n)|])
    ensures RunEnd(b, at) == at + |Digits(n)| && StrToI(b, at) == Wrap32(n)
  {
    RunEndUnique(b, at, at + |Digits(n)|);
    ValueOfDigits(n);
  }

  /** Where the pieces of one printed item lie. */
  lemma ItemLayout(b: string, i: nat, p: string, c: string, rest: string)
    requires i < |b| && b[i..] == ("|" + p + "," + c) + rest && rest != []
    ensures var nxt := i + 2 + |p|;
            && nxt + |c| < |b| && b[i] == '|' && b[nxt - 1] == ','
            && b[i + 1..nxt - 1] == p && b[nxt..nxt + |c|] == c && b[nxt + |c|..] == rest
  {
    var s := b[i..];
    var nxt := i + 2 + |p|;
    assert |b| - i == |s| == 2 + |p| + |c| + |rest|;
    assert b[i] == s[0] && b[nxt - 1] == s[1 + |p|];
    assert b[i + 1..nxt - 1] == s[1..1 + |p|] == p;
    assert b[nxt..nxt + |c|] == s[2 + |p|..2 + |p| + |c|] == c;
    assert b[nxt + |c|..] == s[2 + |p| + |c|..] == rest;
  }

  lemma NextAfter(b: string, at: nat, e: nat)
    requires CString(b) && at < e < |b|
    requires AllDigits(b[at + 1..e]) && !IsDigit(b[e])
    ensures NextValue(b, at) == if b[e] == '\0' || b[e + 1] == '\0' then -1 else e - at + 1
  {
    RunEndUnique(b, at + 1, e);
  }

  lemma NotStop(b: string, i: nat)
    requires CString(b) && i < |b| && b[i] != 'S'
    ensures !StopsAt(b, i)
  {
    if i < |b| - 1 {
      assert b[i..|b| - 1][0] == b[i];
    }
  }

  lemma PidPart(b: string, i: nat, pid: nat, nxt: nat)
    requires CString(b) && nxt == i + 2 + |Digits(pid)| && nxt < |b| && pid < TWO31
    requires b[i + 1..nxt - 1] == Digits(pid) && b[nxt - 1] == ',' && IsDigit(b[nxt])
    ensures StrToI(b, i + 1) == pid && NextValue(b, i) == nxt - i && IsDigit(b[nxt - 2])
  {
    ReadDigits(b, i + 1, pid);
    NextAfter(b, i, nxt - 1);
    assert b[nxt - 2] == b[i + 1..nxt - 1][|Digits(pid)| - 1];
  }

  lemma CountPart(b: string, nxt: nat, count: nat, end: nat)
    requires CString(b) && end == nxt + |Digits(count)| && end < |b| && count < TWO32
    requires b[nxt..end] == Digits(count) && !IsDigit(b[end])
    ensures StrToI(b, nxt) % TWO32 == count && IsDigit(b[nxt]) && nxt < |b| - 1
    ensures NextValue(b, nxt) == if b[end] == '\0' || b[end + 1] == '\0' then -1 else end - nxt + 1
  {
    ReadDigits(b, nxt, count);
    UnsignedOfWrap(count);
    assert b[nxt] == b[nxt..end][0];
    assert b[nxt + 1..end] == Digits(count)[1..];
    NextAfter(b, nxt, end);
  }

  /** Parsing one printed item; `rest` is what follows it. */
  lemma ParseItem(b: string, i: nat, pid: nat, count: nat, rest: string)
    requires CString(b) && i < |b| && b[i..] == PrintItem(pid, count) + rest
    requires 0 < pid < TWO31 && count < TWO32
    requires rest == "\0" || (|rest| > 2 && !IsDigit(rest[0]))
    ensures var t := ParseTuple(b, i);
            && t.pid == pid && t.insns == count
            && 0 <= t.resume < |b|
            && (if rest == "\0" then IsDigit(b[t.resume]) else b[t.resume..] == rest)
  {
    hide Digits, Wrap32, NextValue, StrToI, StopsAt, RunEnd;
    var nxt := i + 2 + |Digits(pid)|;
    var end := nxt + |Digits(count)|;
    ItemLayout(b, i, Digits(pid), Digits(count), rest);
    assert b[end] == b[end..][0] && (|rest| > 1 ==> b[end + 1] == b[end..][1]);
    NotStop(b, i);
    CountPart(b, nxt, count, end);
    PidPart(b, i, pid, nxt);
  }

  lemma DigitEnds(b: string, i: nat)
    requires CString(b) && i < |b| && IsDigit(b[i])
    ensures ParseTuple(b, i) == Tuple(-1, 0, 0)
  {
    NotStop(b, i);
  }

  lemma LoopAtEnd(b: string, i: nat, end: string, advance: int)
    requires CString(b) && i < |b| && b[i..] == end && (end == "\0" || end == "STOP\0")
    ensures CommandLoop(b, i, advance) == Outcome(if end == "\0" then Clamp(advance) else -1, [])
  {
    assert b[i] == end[0];
    assert b[i..|b| - 1] == end[..|end| - 1];
  }

  lemma {:induction false} LoopOnPrinted(b: string, i: nat, cmds: seq<(int, nat)>, end: string, advance: int)
    requires CString(b) && i < |b| && Printable(cmds)
    requires end == "\0" || end == "STOP\0"
    requires b[i..] == Print(cmds) + end
    ensures CommandLoop(b, i, advance).received == cmds
    ensures CommandLoop(b, i, advance).advance ==
            if end == "STOP\0" then -1
            else if cmds == [] then Clamp(advance)
            else Clamp(AdvanceOf(cmds[|cmds| - 1].1))
    decreases |cmds|
  {
    hide Digits, ParseTuple, Wrap32, Thousandth;
    if cmds == [] {
      LoopAtEnd(b, i, end, advance);
    } else {
      var rest := Print(cmds[1..]) + end;
      assert b[i..] == PrintItem(cmds[0].0, cmds[0].1) + rest;
      if |cmds| > 1 {
        assert Print(cmds[1..]) == PrintItem(cmds[1].0, cmds[1].1) + Print(cmds[2..]);
      }
      ParseItem(b, i, cmds[0].0, cmds[0].1, rest);
      var t := ParseTuple(b, i);
      Progress(b, i);
      assert cmds == [cmds[0]] + cmds[1..];
      if rest == "\0" {
        DigitEnds(b, t.resume);
      } else {
        LoopOnPrinted(b, t.resume, cmds[1..], end, AdvanceOf(t.insns));
      }
    }
  }

  /** Every printed command list is read back pair by pair, in order; the last count sets the round. */
  lemma RoundTrip(cmds: seq<(int, nat)>)
    requires Printable(cmds) && cmds != []
    ensures CString(Print(cmds) + "\0")
    ensures CommandLoop(Print(cmds) + "\0", 0, DEFAULT_ADVANCE)
         == Outcome(Clamp(AdvanceOf(cmds[|cmds| - 1].1)), cmds)
  {
    var b := Print(cmds) + "\0";
    PrintHasNoNul(cmds);
    assert b[0..] == b;
    LoopOnPrinted(b, 0, cmds, "\0", DEFAULT_ADVANCE);
  }

  /** A list closed by "STOP" is read the same way, and then stops the experiment. */
  lemma RoundTripStop(cmds: seq<(int, nat)>)
    requires Printable(cmds)
    ensures CString(Print(cmds) + "STOP\0")
    ensures CommandLoop(Print(cmds) + "STOP\0", 0, DEFAULT_ADVANCE) == Outcome(-1, cmds)
  {
    var b := Print(cmds) + "STOP\0";
    PrintHasNoNul(cmds);
    assert b[0..] == b;
    LoopOnPrinted(b, 0, cmds, "STOP\0", DEFAULT_ADVANCE);
  }

  lemma {:induction false} PrintHasNoNul(cmds: seq<(int, nat)>)
    requires Printable(cmds)
    ensures forall k :: 0 <= k < |Print(cmds)| ==> Print(cmds)[k] != '\0'
  {
    if cmds != [] {
      PrintHasNoNul(cmds[1..]);
    }
  }

  /** The round is a thousandth of the u32 count exactly for counts that fit a signed int. */
  lemma AdvanceExactly(count: nat)
    requires count < TWO32
    ensures Clamp(AdvanceOf(count)) == count / 1000 <==> count < TWO31
  {
  }

  /** The round that a u32 count gives, over its whole range. */
  lemma RoundOfCount(count: nat)
    requires count < TWO32
    ensures Clamp(AdvanceOf(count)) ==
            if count < 0x8000_0000 then count / 1000 else if count <= 0x1_0000_0000 - 1000 then 100 else 0
  {
  }

  /** Division towards zero makes the round 0 for counts at both ends of the u32 range. */
  lemma ZeroAdvanceExactly(count: nat)
    requires count < TWO32
    ensures Clamp(AdvanceOf(count)) == 0 <==> count < 1000 || count > TWO32 - 1000
  {
  }

  /** On any string: unless it says stop, the last accepted count alone sets the round. */
  lemma {:induction false} LastCountDecides(b: string, tail: nat, advance: int)
    requires CString(b) && tail < |b|
    ensures var o := CommandLoop(b, tail, advance);
            && (forall c <- o.received :: c.0 != 0 && c.1 < TWO32)
            && (o.advance != -1 ==>
                  o.advance == Clamp(if o.received == [] then advance else AdvanceOf(o.received[|o.received| - 1].1)))
    decreases |b| - tail
  {
    hide Clamp, Thousandth, Wrap32, StrToI, NextValue;
    Progress(b, tail);
    var t := ParseTuple(b, tail);
    if t.resume != -1 && t.pid != 0 {
      LastCountDecides(b, t.resume, AdvanceOf(t.insns));
    }
  }

  /** A fetch gives a zero round exactly when it accepts a command and the last count is at an end of its range. */
  lemma ZeroRoundExactly(answer: Answer)
    requires answer.Ok? ==> CString(answer.command)
    ensures var o := Fetch(answer);
            o.advance == 0 <==>
            && o.advance != -1 && o.received != []
            && var count := o.received[|o.received| - 1].1; (count < 1000 || count > TWO32 - 1000)
  {
    if answer.Ok? {
      LastCountDecides(answer.command, 0, DEFAULT_ADVANCE);
      var o := Fetch(answer);
      if o.received != [] {
        var last := o.received[|o.received| - 1];
        assert last in o.received;
        ZeroAdvanceExactly(last.1);
      }
    }
  }
}
