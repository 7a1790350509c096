/** Reading the routing list: each line's first and last blank-separated fields. */
module RouteFile {
  import opened Decimal
  import opened LinkedList
  import opened Routing

  predicate IsBlank(c: char) {
    c == ' ' || c == '\t'
  }

  predicate IsSeparator(c: char) {
    IsBlank(c) || c == '\n'
  }

  /** A line as getline returns it: no NUL, and a newline at most at the end. */
  predicate IsLine(line: string) {
    && line != []
    && forall k :: 0 <= k < |line| ==> line[k] != '\0' && (line[k] == '\n' ==> k == |line| - 1)
  }

  function Body(line: string): string {
    if line != [] && line[|line| - 1] == '\n' then line[..|line| - 1] else line
  }

  function FirstBlank(s: string): (k: nat)
    ensures k <= |s| && (k < |s| ==> IsBlank(s[k]))
    ensures forall j :: 0 <= j < k ==> !IsBlank(s[j])
  {
    if s == [] || IsBlank(s[0]) then 0 else 1 + FirstBlank(s[1..])
  }

  /** The position behind the last blank, or 0. */
  function AfterLastBlank(s: string): (k: nat)
    ensures k <= |s| && (k > 0 ==> IsBlank(s[k - 1]))
    ensures forall j :: k <= j < |s| ==> !IsBlank(s[j])
  {
    if s == [] then 0 else if IsBlank(s[|s| - 1]) then |s| else AfterLastBlank(s[..|s| - 1])
  }

  /** The entry that populate_routing_list makes of a line. */
  function LineRoute(line: string): Route {
    var b := Body(line);
    Route(b[..FirstBlank(b)], b[AfterLastBlank(b)..])
  }

  // ----- in terms of tokens

  /** The non-empty pieces between blanks. */
  function Tokens(s: string): seq<string>
    decreases |s|
  {
    if s == [] then []
    else if IsBlank(s[0]) then Tokens(s[1..])
    else [s[..FirstBlank(s)]] + Tokens(s[FirstBlank(s)..])
  }

  lemma {:induction false} AfterLastBlankOfTail(s: string, k: nat)
    requires k <= AfterLastBlank(s)
    ensures AfterLastBlank(s[k..]) == AfterLastBlank(s) - k
    decreases |s|
  {
    if s != [] && k < |s| {
      assert s[k..][|s| - k - 1] == s[|s| - 1];
      if !IsBlank(s[|s| - 1]) {
        AfterLastBlankOfTail(s[..|s| - 1], k);
        assert s[k..][..|s| - k - 1] == s[..|s| - 1][k..];
      }
    }
  }

  lemma {:induction false} LastToken(s: string)
    requires s != [] && !IsBlank(s[|s| - 1])
    ensures Tokens(s) != [] && Tokens(s)[|Tokens(s)| - 1] == s[AfterLastBlank(s)..]
    decreases |s|
  {
    hide AfterLastBlank;
    var k := if IsBlank(s[0]) then 1 else FirstBlank(s);
    if k < |s| {
      assert s[k..][|s| - k - 1] == s[|s| - 1];
      LastToken(s[k..]);
      AfterLastBlankOfTail(s, k);
      assert s[k..][AfterLastBlank(s) - k..] == s[AfterLastBlank(s)..];
    } else {
      assert s[k..] == [] && s[..k] == s == s[0..];
      assert Tokens(s) == [s];
    }
  }

  lemma {:induction false} NoTokens(s: string)
    ensures Tokens(s) == [] <==> forall j :: 0 <= j < |s| ==> IsBlank(s[j])
    ensures forall t :: t in Tokens(s) ==> t != []
    decreases |s|
  {
    if s != [] {
      if IsBlank(s[0]) {
        NoTokens(s[1..]);
      } else {
        NoTokens(s[FirstBlank(s)..]);
      }
    }
  }

  /**
   * For a line that is not all blanks, the address is its first token exactly when the line does
   * not start with a blank, and the interface is its last token exactly when it does not end in one.
   */
  lemma FieldsExactly(line: string)
    requires IsLine(line) && Tokens(Body(line)) != []
    ensures var b, tokens := Body(line), Tokens(Body(line));
            && b != []
            && (LineRoute(line).ip == tokens[0] <==> !IsBlank(b[0]))
            && (LineRoute(line).intf == tokens[|tokens| - 1] <==> !IsBlank(b[|b| - 1]))
  {
    var b := Body(line);
    var tokens := Tokens(b);
    NoTokens(b);
    assert tokens[0] in tokens && tokens[|tokens| - 1] in tokens;
    if !IsBlank(b[|b| - 1]) {
      LastToken(b);
    }
  }

  // ----- printed entries read back

  /** A field: not empty, and free of spaces, tabs, newlines and NULs. */
  predicate IsField(s: string) {
    s != "" && forall k :: 0 <= k < |s| ==> s[k] != ' ' && s[k] != '\t' && s[k] != '\n' && s[k] != '\0'
  }

  /** What may stand between two fields: it starts and ends with a space or a tab. */
  predicate IsGap(m: string) {
    && m != "" && (m[0] == ' ' || m[0] == '\t') && (m[|m| - 1] == ' ' || m[|m| - 1] == '\t')
    && forall k :: 0 <= k < |m| ==> m[k] != '\n' && m[k] != '\0'
  }

  lemma {:induction false} FirstBlankIs(s: string, k: nat)
    requires k < |s| && (s[k] == ' ' || s[k] == '\t')
    requires forall j :: 0 <= j < k ==> s[j] != ' ' && s[j] != '\t'
    ensures FirstBlank(s) == k
  {
    if k > 0 {
      FirstBlankIs(s[1..], k - 1);
    }
  }

  lemma {:induction false} AfterLastBlankIs(s: string, k: nat)
    requires 0 < k <= |s| && (s[k - 1] == ' ' || s[k - 1] == '\t')
    requires forall j :: k <= j < |s| ==> s[j] != ' ' && s[j] != '\t'
    ensures AfterLastBlank(s) == k
    decreases |s|
  {
    if k < |s| {
      AfterLastBlankIs(s[..|s| - 1], k);
    }
  }

  lemma BodyIs(b: string, end: string)
    requires b != "" && b[|b| - 1] != '\n' && (end == "\n" || end == "")
    ensures Body(b + end) == b
  {
    assert end == "" ==> b + end == b;
    assert end == "\n" ==> (b + end)[|b|] == '\n' && (b + end)[..|b|] == b;
  }

  /** Two fields written with spaces or tabs between them are read back, before a newline or at the end of the file. */
  lemma EntryReadsBack(a: string, gap: string, b: string, end: string)
    requires IsField(a) && IsGap(gap) && IsField(b) && (end == "\n" || end == "")
    ensures IsLine(a + gap + b + end) && LineRoute(a + gap + b + end) == Route(a, b)
  {
    var s := a + gap + b;
    BodyIs(s, end);
    FirstBlankIs(s, |a|);
    AfterLastBlankIs(s, |a| + |gap|);
    assert s[..|a|] == a && s[|a| + |gap|..] == b;
    EntryIsLine(a, gap, b, end);
    hide FirstBlank, AfterLastBlank, Body;
  }

  lemma EntryIsLine(a: string, gap: string, b: string, end: string)
    requires IsField(a) && IsGap(gap) && IsField(b) && (end == "\n" || end == "")
    ensures IsLine(a + gap + b + end)
  {
    var s := a + gap + b;
    forall k | 0 <= k < |s|
      ensures s[k] != '\n' && s[k] != '\0'
    {
      assert s[k] == if k < |a| then a[k] else if k < |a| + |gap| then gap[k - |a|] else b[k - |a| - |gap|];
    }
    assert forall k :: 0 <= k < |s + end| ==> (s + end)[k] == if k < |s| then s[k] else end[k - |s|];
  }

  /** The form of the routing files that come with the router. */
  lemma ArrowReadsBack(a: string, b: string)
    requires IsField(a) && IsField(b)
    ensures LineRoute(a + "\t=>\t" + b + "\n") == Route(a, b)
  {
    EntryReadsBack(a, "\t=>\t", b, "\n");
  }

  // ----- the loops

  /** The C string in `s` from `at`. */
  function CStringAt(s: seq<char>, at: nat): string
    requires at <= |s|
    decreases |s| - at
  {
    if at < |s| && s[at] != '\0' then [s[at]] + CStringAt(s, at + 1) else ""
  }

  lemma {:induction false} CStringIs(s: seq<char>, at: nat, t: string)
    requires at + |t| < |s| && s[at + |t|] == '\0'
    requires forall k :: 0 <= k < |t| ==> s[at + k] == t[k] != '\0'
    ensures CStringAt(s, at) == t
    decreases |t|
  {
    if t != [] {
      assert s[at + 0] == t[0];
      forall k | 0 <= k < |t| - 1
        ensures s[at + 1 + k] == t[1..][k] != '\0'
      {
        assert s[at + (k + 1)] == t[k + 1];
      }
      CStringIs(s, at + 1, t[1..]);
    }
  }

  method FlushBuffer(buf: array<char>)
    modifies buf
    ensures forall k :: 0 <= k < buf.Length ==> buf[k] == '\0'
  {
    for i := 0 to buf.Length
      invariant forall k :: 0 <= k < i ==> buf[k] == '\0'
    {
      buf[i] := '\0';
    }
  }

  /** strncpy of a line into a zeroed buffer. */
  method CopyLine(buf: array<char>, line: string)
    requires |line| < buf.Length && forall k :: 0 <= k < buf.Length ==> buf[k] == '\0'
    modifies buf
    ensures forall k :: 0 <= k < buf.Length ==> buf[k] == if k < |line| then line[k] else '\0'
  {
    for i := 0 to |line|
      invariant forall k :: 0 <= k < buf.Length ==> buf[k] == if k < i then line[k] else '\0'
    {
      buf[i] := line[i];
    }
  }

  /** The buffer with the first `i` places of the line split at blanks and newlines. */
  predicate SplitUpTo(tmp: seq<char>, line: string, i: nat) {
    forall k :: 0 <= k < |tmp| ==>
      tmp[k] == if k < |line| && !(k < i && IsSeparator(line[k])) then line[k] else '\0'
  }

  lemma NextPrefix(line: string, i: nat)
    requires IsLine(line)
    ensures var b := Body(line);
            && (i < |b| ==> AfterLastBlank(b[..i + 1]) == if IsBlank(line[i]) then i + 1 else AfterLastBlank(b[..i]))
            && (i == |b| ==> b[..i] == b && (i < |line| ==> line[i] == '\n'))
            && |b| <= |line| <= |b| + 1 && (i < |b| ==> line[i] != '\n')
  {
    var b := Body(line);
    if i < |b| {
      assert b[..i + 1][..i] == b[..i] && b[..i + 1][i] == line[i];
    }
  }

  method SplitFields(tmp: array<char>, line: string, len: nat) returns (ifIdx: nat)
    requires IsLine(line) && |line| < len <= tmp.Length && SplitUpTo(tmp[..], line, 0)
    modifies tmp
    ensures SplitUpTo(tmp[..], line, len) && ifIdx == AfterLastBlank(Body(line))
  {
    ifIdx := 0;
    ghost var b := Body(line);
    assert AfterLastBlank(b[..0]) == 0;
    hide AfterLastBlank, Body, IsLine;
    for i := 0 to len
      invariant forall k :: 0 <= k < tmp.Length ==>
        tmp[k] == if k < |line| && !(k < i && IsSeparator(line[k])) then line[k] else '\0'
      invariant ifIdx == AfterLastBlank(if i <= |b| then b[..i] else b)
    {
      NextPrefix(line, i);
      assert tmp[i] == if i < |line| then line[i] else '\0';
      if tmp[i] == ' ' || tmp[i] == '\t' || tmp[i] == '\n' {
        if tmp[i] != '\n' {
          ifIdx := i + 1;
        }
        tmp[i] := '\0';
      }
    }
  }

  lemma SplitReads(tmp: seq<char>, line: string)
    requires IsLine(line) && |line| < |tmp| && SplitUpTo(tmp, line, |tmp|)
    ensures var b := Body(line);
            && CStringAt(tmp, 0) == b[..FirstBlank(b)]
            && CStringAt(tmp, AfterLastBlank(b)) == b[AfterLastBlank(b)..]
  {
    var b := Body(line);
    CStringIs(tmp, 0, b[..FirstBlank(b)]);
    CStringIs(tmp, AfterLastBlank(b), b[AfterLastBlank(b)..]);
  }

  /** The body of the loop in populate_routing_list; `len` is the capacity that getline reports. */
  method ParseLine(line: string, len: nat) returns (r: Route)
    requires IsLine(line) && |line| < len <= BUFSIZE
    ensures r == LineRoute(line)
  {
    var tmp := new char[BUFSIZE];
    FlushBuffer(tmp);
    CopyLine(tmp, line);
    var ifIdx := SplitFields(tmp, line, len);
    SplitReads(tmp[..], line);
    r := Route(CStringAt(tmp[..], 0), CStringAt(tmp[..], ifIdx));
  }

  function RoutesOf(lines: seq<string>): seq<Route> {
    if lines == [] then [] else RoutesOf(lines[..|lines| - 1]) + [LineRoute(lines[|lines| - 1])]
  }

  function RouteLine(r: Route): string {
    r.ip + "\t=>\t" + r.intf + "\n"
  }

  /** A routing list as the lines of a file. */
  function RouteLines(routes: seq<Route>): seq<string> {
    if routes == [] then [] else RouteLines(routes[..|routes| - 1]) + [RouteLine(routes[|routes| - 1])]
  }

  lemma OneMoreLine(lines: seq<string>, line: string)
    ensures RoutesOf(lines + [line]) == RoutesOf(lines) + [LineRoute(line)]
  {
    assert (lines + [line])[..|lines|] == lines;
  }

  /** Reading the lines of a written list gives the list. */
  lemma {:induction false} FileReadsBack(routes: seq<Route>)
    requires forall r <- routes :: IsField(r.ip) && IsField(r.intf)
    ensures RoutesOf(RouteLines(routes)) == routes
  {
    hide LineRoute, IsField;
    if routes != [] {
      var init, last := routes[..|routes| - 1], routes[|routes| - 1];
      FileReadsBack(init);
      assert last in routes;
      ArrowReadsBack(last.ip, last.intf);
      OneMoreLine(RouteLines(init), RouteLine(last));
      assert routes == init + [last];
    }
  }

  /** populate_routing_list, given the lines of the file and the capacity getline had for each. */
  method PopulateRoutingList(lines: seq<string>, lens: seq<nat>, routes: List<Route>)
    requires routes.Valid() && |lens| == |lines|
    requires forall k :: 0 <= k < |lines| ==> IsLine(lines[k]) && |lines[k]| < lens[k] <= BUFSIZE
    modifies routes, routes.nodes
    ensures routes.Valid() && routes.items == old(routes.items) + RoutesOf(lines)
  {
    hide IsLine, LineRoute;
    assert lines[..|lines|] == lines;
    for i := 0 to |lines|
      invariant routes.Valid()
      invariant routes.items == old(routes.items) + RoutesOf(lines[..i])
      invariant |old(routes.nodes)| <= |routes.nodes|
      invariant forall j :: 0 <= j < |routes.nodes| ==>
        if j < |old(routes.nodes)| then routes.nodes[j] == old(routes.nodes)[j] else fresh(routes.nodes[j])
    {
      assert lines[..i + 1][..i] == lines[..i];
      AtLeastOne(lines[i]);
      if lens[i] > 1 {
        var entry := ParseLine(lines[i], lens[i]);
        var appended := routes.Append(entry);
      }
    }
  }

  lemma AtLeastOne(line: string)
    requires IsLine(line)
    ensures |line| > 0
  {
  }
}
