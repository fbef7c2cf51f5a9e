// Reading the simulator's input files (Thread.cpp): the `strtok`
// tokenising and `atoi` the readers rely on, the comma-separated
// per-run parameter lists of the quality file, the line handling of the
// topology, workstation and algorithm files, and the zero case of
// `calculateDelay`. Opening and reading the files is left to the caller:
// a file is the sequence of its lines.

module Configuration {
  import opened Common
  import opened MessageLogging

  // ---------------------------------------------------------------------
  // strtok

  /** `s` without its leading delimiters. */
  function SkipDelims(s: seq<char>, delims: set<char>): (t: seq<char>)
    ensures |t| <= |s|
  {
    if s != [] && s[0] in delims then SkipDelims(s[1..], delims) else s
  }

  lemma {:induction false} SkipDelimsStops(s: seq<char>, delims: set<char>)
    ensures SkipDelims(s, delims) == [] || SkipDelims(s, delims)[0] !in delims
  {
    if s != [] && s[0] in delims {
      SkipDelimsStops(s[1..], delims);
    }
  }

  /** The length of the longest prefix of `s` free of delimiters. */
  function RunLength(s: seq<char>, delims: set<char>): (n: nat)
    ensures n <= |s|
  {
    if s == [] || s[0] in delims then 0 else 1 + RunLength(s[1..], delims)
  }

  /** A token and the text after its terminating delimiter. */
  datatype Split = Split(token: seq<char>, rest: seq<char>)

  /** One `strtok` call: skip the delimiters, take the longest run free of
      them, and resume after the one delimiter `strtok` overwrites. There
      is no token when only delimiters are left. */
  function Strtok(s: seq<char>, delims: set<char>): (r: Option<Split>)
    ensures r.Some? ==> |r.value.rest| < |s|
  {
    var t := SkipDelims(s, delims);
    if t == [] then None
    else
      var n := RunLength(t, delims);
      Some(Split(t[..n], if n < |t| then t[n + 1..] else []))
  }

  /** The tokens successive `strtok` calls return for one delimiter set. */
  function Tokens(s: seq<char>, delims: set<char>): seq<seq<char>>
    decreases |s|
  {
    match Strtok(s, delims)
    case None => []
    case Some(sp) => [sp.token] + Tokens(sp.rest, delims)
  }

  /** The text each successive `strtok` call finds its token at: the
      input past its leading delimiters, then, for each later call, the
      text after the delimiter the previous call overwrote, past its own
      leading delimiters. */
  function TokenStarts(s: seq<char>, delims: set<char>): (us: seq<seq<char>>)
    ensures forall i :: 0 <= i < |us| ==> us[i] != [] && us[i][0] !in delims
    decreases |s|
  {
    var t := SkipDelims(s, delims);
    SkipDelimsStops(s, delims);
    if t == [] then []
    else
      var n := RunLength(t, delims);
      [t] + TokenStarts(if n < |t| then t[n + 1..] else [], delims)
  }

  /** Each token is the delimiter-free run its call starts at. */
  lemma {:induction false} TokenStartsTokens(s: seq<char>, delims: set<char>)
    ensures |TokenStarts(s, delims)| == |Tokens(s, delims)|
    ensures forall i :: 0 <= i < |Tokens(s, delims)| ==>
              Tokens(s, delims)[i] == TokenStarts(s, delims)[i][..RunLength(TokenStarts(s, delims)[i], delims)]
    decreases |s|
  {
    var t := SkipDelims(s, delims);
    if t != [] {
      var n := RunLength(t, delims);
      var r := if n < |t| then t[n + 1..] else [];
      assert Strtok(s, delims) == Some(Split(t[..n], r));
      assert Tokens(s, delims) == [t[..n]] + Tokens(r, delims);
      assert TokenStarts(s, delims) == [t] + TokenStarts(r, delims);
      TokenStartsTokens(r, delims);
    }
  }

  /** The C string a reader finds at offset `p` of the text `u`, which
      starts with a token, once `calls` successive `strtok` calls (the one
      that returned this token first among them) have each overwritten the
      delimiter after their token with a terminator. An offset past the
      token runs on over the delimiters and into the next token.
      Reading past the line's own terminator has no value. */
  function CStringAt(u: seq<char>, delims: set<char>, p: nat, calls: nat): Option<seq<char>>
    decreases |u|
  {
    var n := RunLength(u, delims);
    if p <= n then Some(u[p..n])
    else if n == |u| then None
    else
      var rest := u[n + 1..];
      var q := p - n - 1;
      var t := SkipDelims(rest, delims);
      if calls <= 1 || t == [] then (if q <= |rest| then Some(rest[q..]) else None)
      else if q < |rest| - |t| then Some(rest[q..|rest| - |t|] + t[..RunLength(t, delims)])
      else CStringAt(t, delims, q - (|rest| - |t|), calls - 1)
  }

  /** An offset within the token reads the rest of the token. */
  lemma CStringAtToken(u: seq<char>, delims: set<char>, p: nat, calls: nat)
    requires p <= RunLength(u, delims)
    ensures CStringAt(u, delims, p, calls) == Some(u[..RunLength(u, delims)][p..])
  {
  }

  /** An offset past the token, when the next token follows its one
      delimiter at once, reads on in that next token. */
  lemma CStringAtNext(u: seq<char>, delims: set<char>, p: nat, calls: nat)
    requires RunLength(u, delims) < p && RunLength(u, delims) + 1 < |u| && 1 < calls
    requires u[RunLength(u, delims) + 1] !in delims
    ensures CStringAt(u, delims, p, calls) ==
            CStringAt(u[RunLength(u, delims) + 1..], delims, p - RunLength(u, delims) - 1, calls - 1)
  {
    var rest := u[RunLength(u, delims) + 1..];
    assert SkipDelims(rest, delims) == rest;
  }

  /** The tokens joined with one delimiter between neighbours. */
  function Join(ts: seq<seq<char>>, d: char): seq<char>
  {
    if |ts| == 0 then []
    else if |ts| == 1 then ts[0]
    else ts[0] + [d] + Join(ts[1..], d)
  }

  lemma {:induction false} DelimitedRun(a: seq<char>, tail: seq<char>, delims: set<char>)
    requires forall i :: 0 <= i < |a| ==> a[i] !in delims
    requires tail == [] || tail[0] in delims
    ensures RunLength(a + tail, delims) == |a|
  {
    if a != [] {
      assert (a + tail)[1..] == a[1..] + tail;
      DelimitedRun(a[1..], tail, delims);
    }
  }

  /** `strtok` on a token followed by the delimiter and more text, and on
      a token alone. */
  lemma StrtokToken(a: seq<char>, rest: seq<char>, d: char)
    requires a != [] && d !in a
    ensures Strtok(a + [d] + rest, {d}) == Some(Split(a, rest))
    ensures Strtok(a, {d}) == Some(Split(a, []))
  {
    var s := a + [d] + rest;
    assert s[0] == a[0];
    DelimitedRun(a, [d] + rest, {d});
    assert s == a + ([d] + rest);
    assert s[..|a|] == a && s[|a| + 1..] == rest;
    DelimitedRun(a, [], {d});
    assert a + [] == a;
  }

  /** `strtok` splits a joined list back into its tokens, provided none
      is empty or holds the delimiter. */
  lemma {:induction false} TokensOfJoin(ts: seq<seq<char>>, d: char)
    requires forall i :: 0 <= i < |ts| ==> ts[i] != [] && d !in ts[i]
    ensures Tokens(Join(ts, d), {d}) == ts
  {
    if |ts| == 1 {
      StrtokToken(ts[0], [], d);
      assert Strtok([], {d}) == None;
    } else if |ts| > 1 {
      StrtokToken(ts[0], Join(ts[1..], d), d);
      TokensOfJoin(ts[1..], d);
    }
  }

  // ---------------------------------------------------------------------
  // atoi

  /** `isspace` in the C locale: blank, tab, newline, vertical tab, form
      feed and carriage return. */
  predicate IsSpace(c: char)
  {
    c == ' ' || 9 <= c as int <= 13
  }

  predicate IsDecimal(c: char)
  {
    '0' <= c <= '9'
  }

  function DropSpaces(s: seq<char>): (t: seq<char>)
    ensures |t| <= |s|
  {
    if s != [] && IsSpace(s[0]) then DropSpaces(s[1..]) else s
  }

  /** The number of leading decimal digits of `s`. */
  function LeadingDecimals(s: seq<char>): (n: nat)
    ensures n <= |s|
  {
    if s != [] && IsDecimal(s[0]) then 1 + LeadingDecimals(s[1..]) else 0
  }

  /** `atoi`: leading white space, an optional sign, then the decimal
      digits up to the first other character; 0 when there are none. */
  function Atoi(s: seq<char>): int
  {
    var u := DropSpaces(s);
    var signed := u != [] && (u[0] == '-' || u[0] == '+');
    var body := if signed then u[1..] else u;
    var m: int := FromDigits(body[..LeadingDecimals(body)], 10);
    if signed && u[0] == '-' then -m else m
  }

  lemma {:induction false} AllDecimals(s: seq<char>)
    requires forall i :: 0 <= i < |s| ==> IsDecimal(s[i])
    ensures LeadingDecimals(s) == |s|
  {
    if s != [] {
      AllDecimals(s[1..]);
    }
  }

  /** `atoi` of a digit string, with or without a minus sign. */
  lemma AtoiDecimals(d: seq<char>)
    requires d != [] && forall i :: 0 <= i < |d| ==> IsDecimal(d[i])
    ensures Atoi(d) == FromDigits(d, 10) && Atoi("-" + d) == -(FromDigits(d, 10) as int)
  {
    AllDecimals(d);
    assert d[..|d|] == d;
    assert DropSpaces(d) == d;
    var n := "-" + d;
    assert DropSpaces(n) == n && n[1..] == d;
  }

  /** `atoi` reads back what `itoa` writes in base 10. */
  lemma AtoiItoa(v: int)
    ensures Atoi(ItoaText(v, 10)) == v
  {
    var d := Digits(Abs(v), 10);
    DigitsInBase(Abs(v), 10);
    assert forall i :: 0 <= i < |d| ==> IsDecimal(d[i]);
    AtoiDecimals(d);
    DigitsRoundTrip(Abs(v), 10);
    assert ItoaText(v, 10) == (if v < 0 then "-" + d else d);
  }

  // ---------------------------------------------------------------------
  // getKthParameterInt and getKthParameterFloat

  /** The value a parameter reader returns (`None` when the source
      returns an uninitialised local) and the new `maxRunCount`. */
  datatype Selection<T> = Selection(value: Option<T>, maxRunCount: nat)

  function Max(a: nat, b: nat): nat
  {
    if a >= b then a else b
  }

  /** `getKthParameterInt` as written (Thread.cpp:1511-1537): a value
      without a comma is read whole; in a list the selected token is
      found but `atoi(f)` reads the start of the whole list, which is the
      first token, and `maxRunCount` rises to the number of tokens. */
  function KthIntAsWritten(f: seq<char>, runCount: nat, maxRunCount: nat): Selection<int>
  {
    if ',' !in f then Selection(Some(Atoi(f)), maxRunCount)
    else
      var ts := Tokens(f, {','});
      Selection(if runCount < |ts| then Some(Atoi(f)) else None, Max(maxRunCount, |ts|))
  }

  /** `getKthParameterFloat` (Thread.cpp:1476-1503): the token at
      `runCount`, and `maxRunCount` rises to the last token's index.
      `atof` is a parameter. */
  function KthFloat(f: seq<char>, runCount: nat, maxRunCount: nat, atof: seq<char> -> real): Selection<real>
  {
    if ',' !in f then Selection(Some(atof(f)), maxRunCount)
    else
      var ts := Tokens(f, {','});
      Selection(if runCount < |ts| then Some(atof(ts[runCount])) else None,
                if ts == [] then maxRunCount else Max(maxRunCount, |ts| - 1))
  }

  /** The evident intent of `getKthParameterInt`: the token at
      `runCount`, with `maxRunCount` kept as `getKthParameterFloat`
      keeps it. */
  function KthInt(f: seq<char>, runCount: nat, maxRunCount: nat): Selection<int>
  {
    if ',' !in f then Selection(Some(Atoi(f)), maxRunCount)
    else
      var ts := Tokens(f, {','});
      Selection(if runCount < |ts| then Some(Atoi(ts[runCount])) else None,
                if ts == [] then maxRunCount else Max(maxRunCount, |ts| - 1))
  }

  /** The loop of `getKthParameterInt` as written. */
  method GetKthParameterInt(f: seq<char>, runCount: nat, maxRunCount: nat) returns (r: Selection<int>)
    ensures r == KthIntAsWritten(f, runCount, maxRunCount)
  {
    if ',' !in f {
      return Selection(Some(Atoi(f)), maxRunCount);
    }
    var tokens := Tokens(f, {','});
    var retVal: Option<int> := None;
    var maxRun := maxRunCount;
    var t := 0;
    while t < |tokens|
      invariant t <= |tokens|
      invariant retVal == if runCount < t then Some(Atoi(f)) else None
      invariant maxRun == Max(maxRunCount, t)
    {
      if t == runCount {
        retVal := Some(Atoi(f));
      }
      t := t + 1;
      if t > maxRun {
        maxRun := t;
      }
    }
    return Selection(retVal, maxRun);
  }

  /** The loop of `getKthParameterFloat`. */
  method GetKthParameterFloat(f: seq<char>, runCount: nat, maxRunCount: nat, atof: seq<char> -> real)
    returns (r: Selection<real>)
    ensures r == KthFloat(f, runCount, maxRunCount, atof)
  {
    if ',' !in f {
      return Selection(Some(atof(f)), maxRunCount);
    }
    var tokens := Tokens(f, {','});
    var retVal: Option<real> := None;
    var maxRun := maxRunCount;
    var t := 0;
    while t < |tokens|
      invariant t <= |tokens|
      invariant retVal == if runCount < t then Some(atof(tokens[runCount])) else None
      invariant maxRun == if t == 0 then maxRunCount else Max(maxRunCount, t - 1)
    {
      if t == runCount {
        retVal := Some(atof(tokens[t]));
      }
      if t > maxRun {
        maxRun := t;
      }
      t := t + 1;
    }
    return Selection(retVal, maxRun);
  }

  /** `getKthParameterInt` with the token read and the count kept as in
      `getKthParameterFloat`. */
  method GetKthParameterIntCorrected(f: seq<char>, runCount: nat, maxRunCount: nat) returns (r: Selection<int>)
    ensures r == KthInt(f, runCount, maxRunCount)
  {
    if ',' !in f {
      return Selection(Some(Atoi(f)), maxRunCount);
    }
    var tokens := Tokens(f, {','});
    var retVal: Option<int> := None;
    var maxRun := maxRunCount;
    var t := 0;
    while t < |tokens|
      invariant t <= |tokens|
      invariant retVal == if runCount < t then Some(Atoi(tokens[runCount])) else None
      invariant maxRun == if t == 0 then maxRunCount else Max(maxRunCount, t - 1)
    {
      if t == runCount {
        retVal := Some(Atoi(tokens[t]));
      }
      if t > maxRun {
        maxRun := t;
      }
      t := t + 1;
    }
    return Selection(retVal, maxRun);
  }

  /** `runThread` asks for another simulation while `runCount !=
      maxRunCount` and `main` counts the runs up from 0 (Thread.cpp:
      373-380, Main.cpp:170-245), so run `runCount` takes place exactly
      when `runCount <= maxRunCount`. */
  predicate RunTakesPlace(runCount: nat, maxRunCount: nat)
  {
    runCount <= maxRunCount
  }

  /** With the corrected reader, a list of two or more values gives every
      run that takes place its own value, and nothing else: run `k`
      takes place iff the list has a `k`-th entry. */
  lemma CorrectedListCoversRuns(ts: seq<seq<char>>, runCount: nat)
    requires |ts| >= 2 && forall i :: 0 <= i < |ts| ==> ts[i] != [] && ',' !in ts[i]
    ensures var s := KthInt(Join(ts, ','), runCount, 0);
            RunTakesPlace(runCount, s.maxRunCount) <==> runCount < |ts|
    ensures runCount < |ts| ==> KthInt(Join(ts, ','), runCount, 0).value == Some(Atoi(ts[runCount]))
  {
    TokensOfJoin(ts, ',');
    var f := Join(ts, ',');
    assert f == ts[0] + [','] + Join(ts[1..], ',');
    assert f[|ts[0]|] == ',';
  }

  /** The text "1,2", and "1" and "2" on their own. */
  lemma OneTwo()
    ensures Join(["1", "2"], ',') == "1,2"
    ensures Tokens("1,2", {','}) == ["1", "2"]
    ensures Atoi("1,2") == 1 && Atoi("1") == 1 && Atoi("2") == 2
  {
    TokensOfJoin(["1", "2"], ',');
    AtoiOneTwo();
  }

  lemma AtoiOneTwo()
    ensures Atoi("1,2") == 1 && Atoi("1") == 1 && Atoi("2") == 2
  {
    AtoiDecimals("1");
    AtoiDecimals("2");
    var s := "1,2";
    assert DropSpaces(s) == s;
    assert s[1..] == ",2" && LeadingDecimals(",2") == 0;
    assert LeadingDecimals(s) == 1 && s[..1] == "1";
  }

  /** As written, the list "1,2" gives its second run the first value. */
  lemma AsWrittenReadsFirstToken()
    ensures KthIntAsWritten("1,2", 1, 0).value == Some(1)
    ensures KthInt("1,2", 1, 0).value == Some(2)
  {
    OneTwo();
  }

  /** As written, the integer list "1,2" raises `maxRunCount` to 2, so a
      third run takes place, and in it the reader returns its
      uninitialised local; the float reader and the corrected one stop
      after two runs. */
  lemma AsWrittenExtraRun(atof: seq<char> -> real)
    ensures var s := KthIntAsWritten("1,2", 2, 0);
            s.maxRunCount == 2 && RunTakesPlace(2, s.maxRunCount) && s.value == None
    ensures !RunTakesPlace(2, KthInt("1,2", 2, 0).maxRunCount)
    ensures !RunTakesPlace(2, KthFloat("1,2", 2, 0, atof).maxRunCount)
  {
    OneTwo();
  }

  // ---------------------------------------------------------------------
  // setTopologyParameters

  /** C's conversion of an `int` to `unsigned short`. */
  function UShort(v: int): nat
  {
    v % 0x1_0000
  }

  /** A directed edge the topology file creates. */
  datatype Link = Link(src: nat, dest: nat, spans: nat)

  /** How `setTopologyParameters` treats one line. `Malformed` is an
      "Edge" line with fewer than three fields, where the source passes a
      null token to `atoi`. */
  datatype TopologyLine = RouterLine | EdgeLine(from: nat, to: nat, spans: nat) | InvalidLine | Malformed

  /** The key before "=", then comma-separated fields (Thread.cpp:
      1852-1887). A line with no key at all is invalid (the source passes
      a null token to `strcmp`). */
  function ClassifyTopologyLine(line: seq<char>): TopologyLine
  {
    match Strtok(line, {'='})
    case None => InvalidLine
    case Some(sp) =>
      if sp.token == "Router" then RouterLine
      else if sp.token == "Edge" then
        var fs := Tokens(sp.rest, {','});
        if |fs| < 3 then Malformed
        else EdgeLine(UShort(Atoi(fs[0])), UShort(Atoi(fs[1])), UShort(Atoi(fs[2])))
      else InvalidLine
  }

  /** The routers and directed edges the file creates: one router per
      "Router" line, and per "Edge" line an edge each way. */
  datatype Topology = Topology(numberOfRouters: nat, numberOfEdges: nat, links: seq<Link>)

  /** The effect of one classified line on what the lines before it
      built. */
  function AddLine(o: Outcome<Topology>, c: TopologyLine): Outcome<Topology>
  {
    match o
    case Fatal(code) => Fatal(code)
    case Done(t) =>
      match c
      case RouterLine => Done(t.(numberOfRouters := t.numberOfRouters + 1))
      case EdgeLine(a, b, s) => Done(Topology(t.numberOfRouters, t.numberOfEdges + 2, t.links + [Link(a, b, s), Link(b, a, s)]))
      case _ => Fatal(ERROR_TOPOLOGY_INPUT_EDGES)
  }

  function TopologyOf(lines: seq<seq<char>>): Outcome<Topology>
  {
    if lines == [] then Done(Topology(0, 0, []))
    else AddLine(TopologyOf(lines[..|lines| - 1]), ClassifyTopologyLine(lines[|lines| - 1]))
  }

  /** Every line has the fields the source reads from it. */
  predicate TopologyLinesShaped(lines: seq<seq<char>>)
  {
    forall i :: 0 <= i < |lines| ==> ClassifyTopologyLine(lines[i]) != Malformed
  }

  /** The line loop of `setTopologyParameters` (Thread.cpp:1834-1898). */
  method SetTopologyParameters(lines: seq<seq<char>>) returns (r: Outcome<Topology>)
    requires TopologyLinesShaped(lines)
    ensures r == TopologyOf(lines)
  {
    var numberOfRouters := 0;
    var numberOfEdges := 0;
    var links: seq<Link> := [];
    var i := 0;
    while i < |lines|
      invariant i <= |lines|
      invariant TopologyOf(lines[..i]) == Done(Topology(numberOfRouters, numberOfEdges, links))
    {
      TopologyStep(lines, i);
      var step := ReadTopologyLine(Topology(numberOfRouters, numberOfEdges, links), ClassifyTopologyLine(lines[i]));
      if step.Fatal? {
        TopologyFatalSticks(lines, i + 1);
        return step;
      }
      numberOfRouters, numberOfEdges, links := step.value.numberOfRouters, step.value.numberOfEdges, step.value.links;
      i := i + 1;
    }
    assert lines[..i] == lines;
    return Done(Topology(numberOfRouters, numberOfEdges, links));
  }

  /** The body of the line loop for one classified line: a router, an
      edge each way, or the run ends (Thread.cpp:1853-1888). */
  method ReadTopologyLine(t: Topology, line: TopologyLine) returns (r: Outcome<Topology>)
    requires line != Malformed
    ensures r == AddLine(Done(t), line)
  {
    match line {
      case RouterLine =>
        r := Done(t.(numberOfRouters := t.numberOfRouters + 1));
      case EdgeLine(from, to, spans) =>
        r := Done(Topology(t.numberOfRouters, t.numberOfEdges + 2, t.links + [Link(from, to, spans), Link(to, from, spans)]));
      case InvalidLine =>
        r := Fatal(ERROR_TOPOLOGY_INPUT_EDGES);
    }
  }

  /** One more line extends the fold by that line. */
  lemma TopologyStep(lines: seq<seq<char>>, i: nat)
    requires i < |lines|
    ensures TopologyOf(lines[..i + 1]) == AddLine(TopologyOf(lines[..i]), ClassifyTopologyLine(lines[i]))
  {
    assert lines[..i + 1][..i] == lines[..i];
  }

  /** Once a line is invalid, no later line changes the result. */
  lemma {:induction false} TopologyFatalSticks(lines: seq<seq<char>>, i: nat)
    requires i <= |lines| && TopologyOf(lines[..i]).Fatal?
    ensures TopologyOf(lines) == TopologyOf(lines[..i])
    decreases |lines| - i
  {
    if i < |lines| {
      var init := lines[..|lines| - 1];
      assert init[..i] == lines[..i];
      TopologyFatalSticks(init, i);
    } else {
      assert lines[..i] == lines;
    }
  }

  function CountRouterLines(lines: seq<seq<char>>): nat
  {
    if lines == [] then 0
    else CountRouterLines(lines[..|lines| - 1]) + (if ClassifyTopologyLine(lines[|lines| - 1]) == RouterLine then 1 else 0)
  }

  /** A topology file fails exactly when one of its lines is neither a
      router nor an edge, and then with the topology input error. */
  lemma {:induction false} TopologyFails(lines: seq<seq<char>>)
    ensures TopologyOf(lines).Fatal? <==>
              exists i :: 0 <= i < |lines| && ClassifyTopologyLine(lines[i]) in {InvalidLine, Malformed}
    ensures TopologyOf(lines).Fatal? ==> TopologyOf(lines).code == ERROR_TOPOLOGY_INPUT_EDGES
  {
    if lines != [] {
      var init := lines[..|lines| - 1];
      TopologyFails(init);
      assert forall i :: 0 <= i < |init| ==> init[i] == lines[i];
      assert forall i :: 0 <= i < |lines| ==> i == |lines| - 1 || lines[i] == init[i];
    }
  }

  /** Edges come in pairs, each followed by its reverse with the same
      spans. */
  predicate Paired(links: seq<Link>)
  {
    |links| % 2 == 0 &&
    forall j :: 0 <= j < |links| / 2 ==>
      links[2 * j + 1] == Link(links[2 * j].dest, links[2 * j].src, links[2 * j].spans)
  }

  lemma PairedSnoc(links: seq<Link>, a: nat, b: nat, s: nat)
    requires Paired(links)
    ensures Paired(links + [Link(a, b, s), Link(b, a, s)])
  {
    var more := links + [Link(a, b, s), Link(b, a, s)];
    forall j | 0 <= j < |more| / 2
      ensures more[2 * j + 1] == Link(more[2 * j].dest, more[2 * j].src, more[2 * j].spans)
    {
      if j < |links| / 2 {
        assert more[2 * j] == links[2 * j] && more[2 * j + 1] == links[2 * j + 1];
      }
    }
  }

  /** A topology file read without error yields one router per "Router"
      line and, per "Edge" line, the edge and its reverse, and counts
      exactly the edges it lists. */
  lemma {:induction false} TopologyCounts(lines: seq<seq<char>>)
    requires TopologyOf(lines).Done?
    ensures var t := TopologyOf(lines).value;
            t.numberOfRouters == CountRouterLines(lines) && t.numberOfEdges == |t.links| && Paired(t.links)
  {
    if lines != [] {
      var init := lines[..|lines| - 1];
      TopologyCounts(init);
      var c := ClassifyTopologyLine(lines[|lines| - 1]);
      if c.EdgeLine? {
        PairedSnoc(TopologyOf(init).value.links, c.from, c.to, c.spans);
      }
    }
  }

  // ---------------------------------------------------------------------
  // setWorkstationParameters

  /** How `setWorkstationParameters` reads a line: the key before "=",
      then the first field separated by blanks, commas or tabs. */
  function KeyAndField(line: seq<char>): (Option<seq<char>>, Option<seq<char>>)
  {
    match Strtok(line, {'='})
    case None => (None, None)
    case Some(sp) =>
      (Some(sp.token), match Strtok(sp.rest, {' ', ',', '\t'}) case None => None case Some(f) => Some(f.token))
  }

  /** The source hands `strcmp` every key and `atoi` the field of the
      "NumberOfWorkstations" line and of every "Workstation" line
      unchecked, so each line has a key and those lines a field. */
  predicate WorkstationLinesShaped(lines: seq<seq<char>>)
  {
    |lines| > 0 && KeyAndField(lines[0]).0.Some? &&
    (KeyAndField(lines[0]).0.value == "NumberOfWorkstations" ==> KeyAndField(lines[0]).1.Some?) &&
    forall i :: 1 <= i < |lines| ==> ParentLineShaped(lines[i])
  }

  /** A later line has a key, and a field when it is "Workstation". */
  predicate ParentLineShaped(line: seq<char>)
  {
    KeyAndField(line).0.Some? && (KeyAndField(line).0.value == "Workstation" ==> KeyAndField(line).1.Some?)
  }

  /** A later line names a workstation's parent router, or is invalid. */
  function ParentLine(line: seq<char>): (p: Option<nat>)
    requires ParentLineShaped(line)
  {
    var kf := KeyAndField(line);
    if kf.0.value == "Workstation" then Some(UShort(Atoi(kf.1.value))) else None
  }

  /** The effect of one later line on the parents listed before it. */
  function AddParent(o: Outcome<seq<nat>>, p: Option<nat>): Outcome<seq<nat>>
  {
    match o
    case Fatal(c) => Fatal(c)
    case Done(ps) => if p.Some? then Done(ps + [p.value]) else Fatal(ERROR_WORKSTATION_INPUT_PARENT)
  }

  /** The parents listed by a run of per-line results, or the exit for
      the first line that is not a "Workstation" line. */
  function ParentsOf(os: seq<Option<nat>>): Outcome<seq<nat>>
  {
    if os == [] then Done([]) else AddParent(ParentsOf(os[..|os| - 1]), os[|os| - 1])
  }

  /** What each later line names. */
  function ParentLines(lines: seq<seq<char>>): (os: seq<Option<nat>>)
    requires forall i :: 0 <= i < |lines| ==> ParentLineShaped(lines[i])
  {
    seq(|lines|, i requires 0 <= i < |lines| => ParentLine(lines[i]))
  }

  /** The parent routers the listed "Workstation" lines give, or the exit
      for the first other line. */
  function ListedParents(lines: seq<seq<char>>): Outcome<seq<nat>>
    requires forall i :: 0 <= i < |lines| ==> ParentLineShaped(lines[i])
  {
    ParentsOf(ParentLines(lines))
  }

  /** A prefix one longer is the prefix and the next element. */
  lemma PrefixStep<T>(s: seq<T>, i: nat)
    requires i < |s|
    ensures s[..i + 1] == s[..i] + [s[i]]
  {
  }

  /** One more line extends the fold by what it names. */
  lemma ParentsStep(os: seq<Option<nat>>, o: Option<nat>)
    ensures ParentsOf(os + [o]) == AddParent(ParentsOf(os), o)
  {
    assert (os + [o])[..|os|] == os;
  }

  /** Once a line is invalid, no later line changes the result. */
  lemma {:induction false} FatalSticks(os: seq<Option<nat>>, i: nat)
    requires i <= |os| && ParentsOf(os[..i]).Fatal?
    ensures ParentsOf(os) == ParentsOf(os[..i])
    decreases |os| - i
  {
    if i < |os| {
      var init := os[..|os| - 1];
      assert init[..i] == os[..i];
      FatalSticks(init, i);
    } else {
      assert os[..i] == os;
    }
  }

  /** The same for the lines themselves. */
  lemma ParentsFatalSticks(lines: seq<seq<char>>, i: nat)
    requires forall i :: 0 <= i < |lines| ==> ParentLineShaped(lines[i])
    requires i <= |lines| && ListedParents(lines[..i]).Fatal?
    ensures ListedParents(lines) == ListedParents(lines[..i])
  {
    assert ParentLines(lines[..i]) == ParentLines(lines)[..i];
    FatalSticks(ParentLines(lines), i);
  }

  /** The fold fails exactly when some line is not a "Workstation" line,
      and then with the workstation parent error. */
  lemma {:induction false} ParentsFail(os: seq<Option<nat>>)
    ensures ParentsOf(os).Fatal? <==> exists i :: 0 <= i < |os| && os[i].None?
    ensures ParentsOf(os).Fatal? ==> ParentsOf(os).code == ERROR_WORKSTATION_INPUT_PARENT
  {
    if os != [] {
      var init := os[..|os| - 1];
      ParentsFail(init);
      assert forall i :: 0 <= i < |init| ==> init[i] == os[i];
      assert forall i :: 0 <= i < |os| ==> i == |os| - 1 || os[i] == init[i];
    }
  }

  /** Reading the "Workstation" lines fails exactly when one of them is
      something else, and then with the workstation parent error. */
  lemma ListedParentsFail(lines: seq<seq<char>>)
    requires forall i :: 0 <= i < |lines| ==> ParentLineShaped(lines[i])
    ensures ListedParents(lines).Fatal? <==> exists i :: 0 <= i < |lines| && ParentLine(lines[i]).None?
    ensures ListedParents(lines).Fatal? ==> ListedParents(lines).code == ERROR_WORKSTATION_INPUT_PARENT
  {
    var os := ParentLines(lines);
    ParentsFail(os);
    if i :| 0 <= i < |os| && os[i].None? {
      assert ParentLine(lines[i]).None?;
    }
    if i :| 0 <= i < |lines| && ParentLine(lines[i]).None? {
      assert os[i].None?;
    }
  }

  /** Without error, the fold lists what each line names, in order. */
  lemma {:induction false} ParentsInOrder(os: seq<Option<nat>>)
    requires ParentsOf(os).Done?
    ensures |ParentsOf(os).value| == |os|
    ensures forall i :: 0 <= i < |os| ==> Some(ParentsOf(os).value[i]) == os[i]
  {
    if os != [] {
      var init := os[..|os| - 1];
      ParentsInOrder(init);
      assert ParentsOf(os).value == ParentsOf(init).value + [os[|os| - 1].value];
    }
  }

  /** Read without error, the `i`-th listed workstation's parent is the
      one the `i`-th line names. */
  lemma ListedParentsInOrder(lines: seq<seq<char>>)
    requires forall i :: 0 <= i < |lines| ==> ParentLineShaped(lines[i])
    requires ListedParents(lines).Done?
    ensures |ListedParents(lines).value| == |lines|
    ensures forall i :: 0 <= i < |lines| ==> Some(ListedParents(lines).value[i]) == ParentLine(lines[i])
  {
    ParentsInOrder(ParentLines(lines));
  }

  /** The workstations beyond the listed ones, up to `count`, are spread
      over the routers in turn. */
  function Spread(from: nat, count: nat, routers: nat): (ps: seq<nat>)
    requires routers > 0
  {
    seq(if from < count then count - from else 0, i requires 0 <= i => (from + i) % routers)
  }

  /** What the file yields: the workstation count and each workstation's
      parent router, or the exit. The spreading loop's counter is an
      `unsigned short` started at the number of listed workstations. */
  function WorkstationsOf(lines: seq<seq<char>>, routers: nat): Outcome<(nat, seq<nat>)>
    requires WorkstationLinesShaped(lines) && routers > 0
  {
    var kf := KeyAndField(lines[0]);
    if kf.0.value != "NumberOfWorkstations" then Fatal(ERROR_WORKSTATION_INPUT_QUANTITY)
    else
      var count := UShort(Atoi(kf.1.value));
      match ListedParents(lines[1..])
      case Fatal(c) => Fatal(c)
      case Done(ps) => Done((count, ps + Spread(UShort(|ps|), count, routers)))
  }

  /** A first line without the count's key, even one with no field such
      as "Foo", ends the run with the workstation quantity error. */
  lemma FieldlessFirstLine(rest: seq<seq<char>>, routers: nat)
    requires routers > 0 && forall i :: 0 <= i < |rest| ==> ParentLineShaped(rest[i])
    ensures WorkstationLinesShaped(["Foo"] + rest)
    ensures WorkstationsOf(["Foo"] + rest, routers) == Fatal(ERROR_WORKSTATION_INPUT_QUANTITY)
  {
    assert Strtok("Foo", {'='}) == Some(Split("Foo", [])) by {
      StrtokToken("Foo", [], '=');
    }
    assert KeyAndField("Foo") == (Some("Foo"), None);
    var lines := ["Foo"] + rest;
    assert lines[0] == "Foo";
    assert forall i :: 1 <= i < |lines| ==> lines[i] == rest[i - 1];
  }

  /** The loop over the "Workstation" lines (Thread.cpp:1937-1957). */
  method ReadParents(rest: seq<seq<char>>) returns (r: Outcome<seq<nat>>)
    requires forall i :: 0 <= i < |rest| ==> ParentLineShaped(rest[i])
    ensures r == ListedParents(rest)
  {
    ghost var os := ParentLines(rest);
    var parents: seq<nat> := [];
    var i := 0;
    while i < |rest|
      invariant i <= |rest|
      invariant ParentsOf(os[..i]) == Done(parents)
    {
      var p := ParentLine(rest[i]);
      PrefixStep(os, i);
      ParentsStep(os[..i], p);
      if p.Some? {
        parents := parents + [p.value];
      } else {
        FatalSticks(os, i + 1);
        return Fatal(ERROR_WORKSTATION_INPUT_PARENT);
      }
      i := i + 1;
    }
    assert os[..i] == os;
    return Done(parents);
  }

  /** The loop that spreads the remaining workstations over the routers
      (Thread.cpp:1960-1967). */
  method SpreadWorkstations(listed: seq<nat>, count: nat, routers: nat) returns (parents: seq<nat>)
    requires routers > 0
    ensures parents == listed + Spread(UShort(|listed|), count, routers)
  {
    parents := listed;
    var n := UShort(|listed|);
    while n < count
      invariant UShort(|listed|) <= n && (n <= count || n == UShort(|listed|))
      invariant parents == listed + Spread(UShort(|listed|), n, routers)
    {
      parents := parents + [n % routers];
      n := n + 1;
    }
  }

  /** `setWorkstationParameters` (Thread.cpp:1907-1973). The source
      divides by the router count when it spreads workstations, so the
      topology must have a router. */
  method SetWorkstationParameters(lines: seq<seq<char>>, routers: nat) returns (r: Outcome<(nat, seq<nat>)>)
    requires WorkstationLinesShaped(lines) && routers > 0
    ensures r == WorkstationsOf(lines, routers)
  {
    var kf := KeyAndField(lines[0]);
    if kf.0.value != "NumberOfWorkstations" {
      return Fatal(ERROR_WORKSTATION_INPUT_QUANTITY);
    }
    var count := UShort(Atoi(kf.1.value));
    var listed := ReadParents(lines[1..]);
    if listed.Fatal? {
      return Fatal(listed.code);
    }
    var parents := SpreadWorkstations(listed.value, count, routers);
    return Done((count, parents));
  }

  /** With fewer than 65536 listed workstations, the workstations are
      the listed ones followed by enough others to reach the count, the
      `n`-th of them on router `n % routers`. */
  lemma SpreadAfterListed(listed: seq<nat>, count: nat, routers: nat)
    requires routers > 0 && |listed| < 0x1_0000
    ensures var ps := listed + Spread(UShort(|listed|), count, routers);
            |ps| == Max(|listed|, count) && ps[..|listed|] == listed &&
            forall n :: |listed| <= n < |ps| ==> ps[n] == n % routers && ps[n] < routers
  {
    assert UShort(|listed|) == |listed|;
    var sp := Spread(|listed|, count, routers);
    var ps := listed + sp;
    assert ps[..|listed|] == listed;
    forall n | |listed| <= n < |ps|
      ensures ps[n] == n % routers && ps[n] < routers
    {
      assert ps[n] == sp[n - |listed|];
    }
  }

  // ---------------------------------------------------------------------
  // setAlgorithmParameters

  /** One entry of the work pool (`AlgorithmToRun`). */
  datatype AlgorithmToRun = AlgorithmToRun(ra: RoutingAlgorithm, wa: WavelengthAlgorithm, ps: ProbeStyle,
                                           qa: bool, workstations: nat)

  const ROUTING_ALGORITHMS: seq<RoutingAlgorithm> :=
    [ShortestPath, Pabr, Lora, ImpairmentAware, QMeasurement, AdaptiveQoS, DynamicProgramming, Aco, MaxMinAco]

  const WAVELENGTH_ALGORITHMS: seq<WavelengthAlgorithm> :=
    [FirstFit, FirstFitOrdered, BestFit, RandomFit, QualFirstFit, QualFirstFitOrdered, QualRandomFit,
     LeastQuality, MostQuality, MostUsed, QualMostUsed]

  const PROBE_STYLES: seq<ProbeStyle> := [Single, Serial, Parallel]

  /** `RoutingAlgorithmNames` (Thread.cpp:1984-1992). */
  function RoutingName(ra: RoutingAlgorithm): string
  {
    match ra
    case ShortestPath => "SP"
    case Pabr => "PABR"
    case Lora => "LORA"
    case ImpairmentAware => "IA"
    case QMeasurement => "QM"
    case AdaptiveQoS => "AQoS"
    case DynamicProgramming => "DP"
    case Aco => "ACO"
    case MaxMinAco => "MM-ACO"
  }

  /** `WavelengthAlgorithmNames` (Thread.cpp:1994-2004). */
  function WavelengthName(wa: WavelengthAlgorithm): string
  {
    match wa
    case FirstFit => "FF"
    case FirstFitOrdered => "FFwO"
    case BestFit => "BF"
    case RandomFit => "RP"
    case QualFirstFit => "Q-FF"
    case QualFirstFitOrdered => "Q-FFwO"
    case QualRandomFit => "Q-RP"
    case LeastQuality => "LQ"
    case MostQuality => "MQ"
    case MostUsed => "MU"
    case QualMostUsed => "Q-MU"
  }

  /** `ProbeStyleNames` (Thread.cpp:2006-2008). */
  function ProbeName(ps: ProbeStyle): string
  {
    match ps
    case Single => "SINGLE"
    case Serial => "SERIAL"
    case Parallel => "PARALLEL"
  }

  /** The first entry of `xs` whose name is `s`. */
  function FirstNamed<T>(xs: seq<T>, name: T -> string, s: string): Option<T>
  {
    if xs == [] then None
    else if name(xs[0]) == s then Some(xs[0])
    else FirstNamed(xs[1..], name, s)
  }

  /** A name is found exactly when some entry has it, and what is found
      has it. */
  lemma {:induction false} FirstNamedMeaning<T>(xs: seq<T>, name: T -> string, s: string)
    ensures FirstNamed(xs, name, s).Some? ==> FirstNamed(xs, name, s).value in xs && name(FirstNamed(xs, name, s).value) == s
    ensures FirstNamed(xs, name, s).None? <==> forall i :: 0 <= i < |xs| ==> name(xs[i]) != s
  {
    if xs != [] && name(xs[0]) != s {
      FirstNamedMeaning(xs[1..], name, s);
      assert forall i :: 1 <= i < |xs| ==> xs[i] == xs[1..][i - 1];
    }
  }

  /** The name-matching loops of `setAlgorithmParameters` (Thread.cpp:
      2031-2056): the first entry with that name. */
  method FindByName<T>(xs: seq<T>, name: T -> string, s: string) returns (r: Option<T>)
    ensures r == FirstNamed(xs, name, s)
  {
    var i := 0;
    while i < |xs|
      invariant i <= |xs| && FirstNamed(xs, name, s) == FirstNamed(xs[i..], name, s)
    {
      assert xs[i..][1..] == xs[i + 1..];
      if name(xs[i]) == s {
        return Some(xs[i]);
      }
      i := i + 1;
    }
    return None;
  }

  /** Every routing algorithm, wavelength algorithm and probe style is
      found again by its own name. */
  lemma NamesRoundTrip(ra: RoutingAlgorithm, wa: WavelengthAlgorithm, ps: ProbeStyle)
    ensures FirstNamed(ROUTING_ALGORITHMS, RoutingName, RoutingName(ra)) == Some(ra)
    ensures FirstNamed(WAVELENGTH_ALGORITHMS, WavelengthName, WavelengthName(wa)) == Some(wa)
    ensures FirstNamed(PROBE_STYLES, ProbeName, ProbeName(ps)) == Some(ps)
  {
    RoutingNamesDistinct();
    WavelengthNamesDistinct();
    assert forall i, j :: 0 <= i < j < |PROBE_STYLES| ==> ProbeName(PROBE_STYLES[i]) != ProbeName(PROBE_STYLES[j]);
    assert ra in ROUTING_ALGORITHMS && wa in WAVELENGTH_ALGORITHMS && ps in PROBE_STYLES;
    FirstNamedDistinct(ROUTING_ALGORITHMS, RoutingName, ra);
    FirstNamedDistinct(WAVELENGTH_ALGORITHMS, WavelengthName, wa);
    FirstNamedDistinct(PROBE_STYLES, ProbeName, ps);
  }

  lemma RoutingNamesDistinct()
    ensures forall i, j :: 0 <= i < j < |ROUTING_ALGORITHMS| ==>
              RoutingName(ROUTING_ALGORITHMS[i]) != RoutingName(ROUTING_ALGORITHMS[j])
  {
  }

  lemma WavelengthNamesDistinct()
    ensures forall i, j :: 0 <= i < j < |WAVELENGTH_ALGORITHMS| ==>
              WavelengthName(WAVELENGTH_ALGORITHMS[i]) != WavelengthName(WAVELENGTH_ALGORITHMS[j])
  {
  }

  lemma {:induction false} FirstNamedDistinct<T>(xs: seq<T>, name: T -> string, x: T)
    requires x in xs
    requires forall i, j :: 0 <= i < j < |xs| ==> name(xs[i]) != name(xs[j])
    ensures FirstNamed(xs, name, name(x)) == Some(x)
  {
    if xs[0] != x {
      assert x in xs[1..] by {
        var k :| 0 <= k < |xs| && xs[k] == x;
        assert k > 0 && xs[1..][k - 1] == x;
      }
      var k :| 0 <= k < |xs| && xs[k] == x;
      assert name(xs[0]) != name(x);
      FirstNamedDistinct(xs[1..], name, x);
    }
  }

  /** What the `k`-th of the five pointers of an algorithm line reads:
      the C string `skip` characters into the line's `k`-th comma token,
      once all five `strtok` calls have run. The source skips the "RA=",
      "WA=", "PS=", "QA=" and "RUN=" prefixes by pointer arithmetic
      without checking them, so a token shorter than its prefix reads on
      into the text after it. None when the line has no `k`-th token
      (the pointer is then NULL plus the prefix) or the read starts past
      the line's terminator. */
  function Field(line: seq<char>, k: nat, skip: nat): Option<seq<char>>
    requires k < 5
  {
    var us := TokenStarts(line, {','});
    if k < |us| then CStringAt(us[k], {','}, skip, 5 - k) else None
  }

  /** A token at least as long as its prefix reads as the text after the
      prefix. */
  lemma FieldOfToken(line: seq<char>, k: nat, skip: nat)
    requires k < 5 && k < |Tokens(line, {','})| && skip <= |Tokens(line, {','})[k]|
    ensures Field(line, k, skip) == Some(Tokens(line, {','})[k][skip..])
  {
    TokenStartsTokens(line, {','});
    CStringAtToken(TokenStarts(line, {','})[k], {','}, skip, 5 - k);
  }

  /** The five pointers of an algorithm line all point into the line:
      it has five comma tokens, and no short token makes a read start
      past its end. */
  predicate AlgorithmLineShaped(line: seq<char>)
  {
    Field(line, 0, 3).Some? && Field(line, 1, 3).Some? && Field(line, 2, 3).Some? &&
    Field(line, 3, 3).Some? && Field(line, 4, 4).Some?
  }

  /** The `iterationCount` pool entries of one algorithm, with
      `(i + 1) * delta` active workstations for entry `i`. */
  function Expand(a: AlgorithmToRun, iterationCount: nat, delta: nat): (r: seq<AlgorithmToRun>)
  {
    seq(iterationCount, i requires 0 <= i => a.(workstations := (i + 1) * delta))
  }

  /** What one line adds to the pool (Thread.cpp:2016-2093): nothing
      unless RUN is "1"; otherwise the algorithm named, expanded, or the
      exit when a name is unknown. `delta` is the source's
      `iterationWorkstationDelta`, a float computation. */
  function LineRuns(line: seq<char>, iterationCount: nat, delta: nat): Outcome<seq<AlgorithmToRun>>
    requires AlgorithmLineShaped(line)
  {
    FieldRuns(Field(line, 0, 3).value, Field(line, 1, 3).value, Field(line, 2, 3).value,
              Field(line, 3, 3).value, Field(line, 4, 4).value, iterationCount, delta)
  }

  /** The same, given the five strings the line's fields read as. */
  function FieldRuns(ra: seq<char>, wa: seq<char>, ps: seq<char>, qa: seq<char>, run: seq<char>,
                     iterationCount: nat, delta: nat): Outcome<seq<AlgorithmToRun>>
  {
    if run != "1" then Done([])
    else
      var r := FirstNamed(ROUTING_ALGORITHMS, RoutingName, ra);
      var w := FirstNamed(WAVELENGTH_ALGORITHMS, WavelengthName, wa);
      var p := FirstNamed(PROBE_STYLES, ProbeName, ps);
      if r.None? || w.None? || p.None? then Fatal(ERROR_ALGORITHM_INPUT)
      else Done(Expand(AlgorithmToRun(r.value, w.value, p.value, qa == "1", 0), iterationCount, delta))
  }

  /** What one line's result does to the pool before it. */
  function AddRuns(o: Outcome<seq<AlgorithmToRun>>, q: Outcome<seq<AlgorithmToRun>>): Outcome<seq<AlgorithmToRun>>
  {
    match o
    case Fatal(c) => Fatal(c)
    case Done(p) => match q case Fatal(c) => Fatal(c) case Done(more) => Done(p + more)
  }

  /** The pool the whole file builds, or the exit at the first bad line. */
  function PoolOf(lines: seq<seq<char>>, iterationCount: nat, delta: nat): Outcome<seq<AlgorithmToRun>>
    requires forall i :: 0 <= i < |lines| ==> AlgorithmLineShaped(lines[i])
  {
    if lines == [] then Done([])
    else
      var init := lines[..|lines| - 1];
      assert forall i :: 0 <= i < |init| ==> init[i] == lines[i];
      AddRuns(PoolOf(init, iterationCount, delta), LineRuns(lines[|lines| - 1], iterationCount, delta))
  }

  /** One more line extends the pool by that line's runs. */
  lemma PoolStep(lines: seq<seq<char>>, i: nat, iterationCount: nat, delta: nat)
    requires forall i :: 0 <= i < |lines| ==> AlgorithmLineShaped(lines[i])
    requires i < |lines|
    ensures PoolOf(lines[..i + 1], iterationCount, delta) ==
            AddRuns(PoolOf(lines[..i], iterationCount, delta), LineRuns(lines[i], iterationCount, delta))
  {
    assert lines[..i + 1][..i] == lines[..i];
  }

  /** Once a line fails, no later line changes the result. */
  lemma {:induction false} PoolFatalSticks(lines: seq<seq<char>>, i: nat, iterationCount: nat, delta: nat)
    requires forall i :: 0 <= i < |lines| ==> AlgorithmLineShaped(lines[i])
    requires i <= |lines| && PoolOf(lines[..i], iterationCount, delta).Fatal?
    ensures PoolOf(lines, iterationCount, delta) == PoolOf(lines[..i], iterationCount, delta)
    decreases |lines| - i
  {
    if i < |lines| {
      var init := lines[..|lines| - 1];
      assert init[..i] == lines[..i];
      PoolFatalSticks(init, i, iterationCount, delta);
    } else {
      assert lines[..i] == lines;
    }
  }

  /** The expansion loop of `setAlgorithmParameters` (Thread.cpp:2079-
      2090). */
  method ExpandAlgorithm(a: AlgorithmToRun, iterationCount: nat, delta: nat) returns (r: seq<AlgorithmToRun>)
    ensures r == Expand(a, iterationCount, delta)
  {
    r := [];
    var i := 0;
    while i < iterationCount
      invariant i <= iterationCount && r == Expand(a, i, delta)
    {
      r := r + [a.(workstations := (i + 1) * delta)];
      i := i + 1;
    }
  }

  /** One line of `setAlgorithmParameters` (Thread.cpp:2016-2093). */
  method AlgorithmLine(line: seq<char>, iterationCount: nat, delta: nat) returns (r: Outcome<seq<AlgorithmToRun>>)
    requires AlgorithmLineShaped(line)
    ensures r == LineRuns(line, iterationCount, delta)
  {
    if Field(line, 4, 4).value != "1" {
      return Done([]);
    }
    var ra := FindByName(ROUTING_ALGORITHMS, RoutingName, Field(line, 0, 3).value);
    var wa := FindByName(WAVELENGTH_ALGORITHMS, WavelengthName, Field(line, 1, 3).value);
    var ps := FindByName(PROBE_STYLES, ProbeName, Field(line, 2, 3).value);
    var qa := Field(line, 3, 3).value == "1";
    if ra.None? || wa.None? || ps.None? {
      return Fatal(ERROR_ALGORITHM_INPUT);
    }
    var entries := ExpandAlgorithm(AlgorithmToRun(ra.value, wa.value, ps.value, qa, 0), iterationCount, delta);
    return Done(entries);
  }

  /** `setAlgorithmParameters` (Thread.cpp:1982-2096) over the lines of
      the file. The name tables are those of `RoutingName`,
      `WavelengthName` and `ProbeName`. */
  method SetAlgorithmParameters(lines: seq<seq<char>>, iterationCount: nat, delta: nat)
    returns (r: Outcome<seq<AlgorithmToRun>>)
    requires forall i :: 0 <= i < |lines| ==> AlgorithmLineShaped(lines[i])
    ensures r == PoolOf(lines, iterationCount, delta)
  {
    var pool: seq<AlgorithmToRun> := [];
    var i := 0;
    while i < |lines|
      invariant i <= |lines| && PoolOf(lines[..i], iterationCount, delta) == Done(pool)
    {
      var entries := AlgorithmLine(lines[i], iterationCount, delta);
      PoolStep(lines, i, iterationCount, delta);
      if entries.Fatal? {
        PoolFatalSticks(lines, i + 1, iterationCount, delta);
        return Fatal(entries.code);
      }
      pool := pool + entries.value;
      i := i + 1;
    }
    assert lines[..i] == lines;
    return Done(pool);
  }

  /** No name holds a comma. */
  lemma NamesPlain(ra: RoutingAlgorithm, wa: WavelengthAlgorithm, ps: ProbeStyle)
    ensures ',' !in RoutingName(ra) && ',' !in WavelengthName(wa) && ',' !in ProbeName(ps)
  {
  }

  /** The five fields of a line that runs an algorithm. */
  function AlgorithmFields(ra: RoutingAlgorithm, wa: WavelengthAlgorithm, ps: ProbeStyle, qa: bool): seq<seq<char>>
  {
    ["RA=" + RoutingName(ra), "WA=" + WavelengthName(wa), "PS=" + ProbeName(ps),
     "QA=" + (if qa then "1" else "0"), "RUN=1"]
  }

  /** The fields of such a line, joined with commas, split back into
      themselves, so every algorithm has a line that names it. */
  lemma AlgorithmFieldsJoin(ra: RoutingAlgorithm, wa: WavelengthAlgorithm, ps: ProbeStyle, qa: bool)
    ensures Tokens(Join(AlgorithmFields(ra, wa, ps, qa), ','), {','}) == AlgorithmFields(ra, wa, ps, qa)
  {
    var ts := AlgorithmFields(ra, wa, ps, qa);
    NamesPlain(ra, wa, ps);
    assert forall i :: 0 <= i < |ts| ==> ts[i] != [] && ',' !in ts[i];
    TokensOfJoin(ts, ',');
  }

  /** A line whose fields name an algorithm by its own names adds
      `iterationCount` entries of that algorithm, the `i`-th with
      `(i + 1) * delta` workstations. */
  lemma LineRunsNamed(line: seq<char>, ra: RoutingAlgorithm, wa: WavelengthAlgorithm, ps: ProbeStyle, qa: bool,
                      iterationCount: nat, delta: nat)
    requires Tokens(line, {','}) == AlgorithmFields(ra, wa, ps, qa)
    ensures AlgorithmLineShaped(line)
    ensures LineRuns(line, iterationCount, delta) ==
            Done(seq(iterationCount, i requires 0 <= i => AlgorithmToRun(ra, wa, ps, qa, (i + 1) * delta)))
  {
    NamedFields(line, ra, wa, ps, qa);
    NamedRuns(ra, wa, ps, qa, iterationCount, delta);
  }

  /** The fields an algorithm's own names make up run that algorithm. */
  lemma NamedRuns(ra: RoutingAlgorithm, wa: WavelengthAlgorithm, ps: ProbeStyle, qa: bool,
                  iterationCount: nat, delta: nat)
    ensures FieldRuns(RoutingName(ra), WavelengthName(wa), ProbeName(ps), if qa then "1" else "0", "1",
                      iterationCount, delta) ==
            Done(seq(iterationCount, i requires 0 <= i => AlgorithmToRun(ra, wa, ps, qa, (i + 1) * delta)))
  {
    NamesRoundTrip(ra, wa, ps);
    var q := if qa then "1" else "0";
    assert q == "1" <==> qa;
    FoundRuns(RoutingName(ra), WavelengthName(wa), ProbeName(ps), q, ra, wa, ps, iterationCount, delta);
  }

  /** Names the tables resolve run what they resolve to. */
  lemma FoundRuns(r: seq<char>, w: seq<char>, p: seq<char>, q: seq<char>,
                  ra: RoutingAlgorithm, wa: WavelengthAlgorithm, ps: ProbeStyle, iterationCount: nat, delta: nat)
    requires FirstNamed(ROUTING_ALGORITHMS, RoutingName, r) == Some(ra)
    requires FirstNamed(WAVELENGTH_ALGORITHMS, WavelengthName, w) == Some(wa)
    requires FirstNamed(PROBE_STYLES, ProbeName, p) == Some(ps)
    ensures FieldRuns(r, w, p, q, "1", iterationCount, delta) ==
            Done(seq(iterationCount, i requires 0 <= i => AlgorithmToRun(ra, wa, ps, q == "1", (i + 1) * delta)))
  {
    var a := AlgorithmToRun(ra, wa, ps, q == "1", 0);
    assert Expand(a, iterationCount, delta) ==
           seq(iterationCount, i requires 0 <= i => AlgorithmToRun(ra, wa, ps, q == "1", (i + 1) * delta));
  }

  /** The fields of a line an algorithm's own fields make up. */
  lemma NamedFields(line: seq<char>, ra: RoutingAlgorithm, wa: WavelengthAlgorithm, ps: ProbeStyle, qa: bool)
    requires Tokens(line, {','}) == AlgorithmFields(ra, wa, ps, qa)
    ensures Field(line, 0, 3) == Some(RoutingName(ra)) && Field(line, 1, 3) == Some(WavelengthName(wa))
    ensures Field(line, 2, 3) == Some(ProbeName(ps)) && Field(line, 3, 3) == Some(if qa then "1" else "0")
    ensures Field(line, 4, 4) == Some("1")
  {
    PrefixedField(line, 0, "RA=", RoutingName(ra));
    PrefixedField(line, 1, "WA=", WavelengthName(wa));
    PrefixedField(line, 2, "PS=", ProbeName(ps));
    PrefixedField(line, 3, "QA=", if qa then "1" else "0");
    PrefixedField(line, 4, "RUN=", "1");
  }

  /** A token made of its prefix and `x` reads as `x`. */
  lemma PrefixedField(line: seq<char>, k: nat, p: seq<char>, x: seq<char>)
    requires k < 5 && k < |Tokens(line, {','})| && Tokens(line, {','})[k] == p + x
    ensures Field(line, k, |p|) == Some(x)
  {
    FieldOfToken(line, k, |p|);
    AfterPrefix(p, x);
  }

  lemma AfterPrefix(p: seq<char>, x: seq<char>)
    ensures (p + x)[|p|..] == x
  {
  }

  /** A line asking to run an algorithm under a name no table holds ends
      the program with the algorithm input error. */
  lemma LineRunsUnknown(line: seq<char>, iterationCount: nat, delta: nat)
    requires AlgorithmLineShaped(line)
    requires Field(line, 4, 4).value == "1" &&
             ((forall ra :: RoutingName(ra) != Field(line, 0, 3).value) ||
              (forall wa :: WavelengthName(wa) != Field(line, 1, 3).value) ||
              (forall ps :: ProbeName(ps) != Field(line, 2, 3).value))
    ensures LineRuns(line, iterationCount, delta) == Fatal(ERROR_ALGORITHM_INPUT)
  {
    FirstNamedMeaning(ROUTING_ALGORITHMS, RoutingName, Field(line, 0, 3).value);
    FirstNamedMeaning(WAVELENGTH_ALGORITHMS, WavelengthName, Field(line, 1, 3).value);
    FirstNamedMeaning(PROBE_STYLES, ProbeName, Field(line, 2, 3).value);
  }

  /** A first token `a` shorter than the three characters of "RA="
      reads on past its terminator into the token `b` after it: the
      routing name read is the end of `b`. */
  lemma ShortFirstToken(a: seq<char>, b: seq<char>, r: seq<char>)
    requires 0 < |a| < 3 && ',' !in a && b != [] && ',' !in b && 2 - |a| <= |b|
    requires r == [] || r[0] == ','
    ensures Field(a + [','] + b + r, 0, 3) == Some(b[2 - |a|..])
  {
    var rest := b + r;
    assert a + [','] + b + r == a + [','] + rest;
    assert rest[0] == b[0];
    ReadsIntoSecondToken(a, rest);
    TokenTail(b, r, 2 - |a|);
  }

  /** In `a` "," `rest`, the first call's token is `a`, and an offset
      past it and its terminator reads on in `rest`. */
  lemma ReadsIntoSecondToken(a: seq<char>, rest: seq<char>)
    requires 0 < |a| < 3 && ',' !in a && rest != [] && rest[0] != ','
    ensures var line := a + [','] + rest;
            |TokenStarts(line, {','})| > 0 && TokenStarts(line, {','})[0] == line &&
            CStringAt(line, {','}, 3, 5) == CStringAt(rest, {','}, 2 - |a|, 4)
  {
    var line := a + [','] + rest;
    assert line == a + ([','] + rest);
    LeadingToken(a, [','] + rest, {','});
    assert line[|a| + 1..] == rest;
    CStringAtNext(line, {','}, 3, 5);
  }

  /** Within the token `b` of `b` + `r`, offset `p` reads the end of `b`. */
  lemma TokenTail(b: seq<char>, r: seq<char>, p: nat)
    requires ',' !in b && p <= |b| && (r == [] || r[0] == ',')
    ensures CStringAt(b + r, {','}, p, 4) == Some(b[p..])
  {
    DelimitedRun(b, r, {','});
    CStringAtToken(b + r, {','}, p, 4);
    assert (b + r)[..|b|] == b;
  }

  /** A text that starts with a token is where the first call finds it. */
  lemma LeadingToken(a: seq<char>, tail: seq<char>, delims: set<char>)
    requires a != [] && forall i :: 0 <= i < |a| ==> a[i] !in delims
    requires tail == [] || tail[0] in delims
    ensures RunLength(a + tail, delims) == |a|
    ensures |TokenStarts(a + tail, delims)| > 0 && TokenStarts(a + tail, delims)[0] == a + tail
  {
    DelimitedRun(a, tail, delims);
    assert (a + tail)[0] == a[0];
    assert SkipDelims(a + tail, delims) == a + tail;
  }

  /** A line of five tokens whose routing token is shorter than "RA="
      reads the routing name from the end of the wavelength token; when
      no routing algorithm has that name and the line is to be run, the
      run ends with the algorithm input error. */
  lemma ShortRoutingToken(ts: seq<seq<char>>, iterationCount: nat, delta: nat)
    requires |ts| == 5 && forall i :: 0 <= i < 5 ==> ts[i] != [] && ',' !in ts[i]
    requires |ts[0]| < 3 && |ts[1]| >= 3 && |ts[2]| >= 3 && |ts[3]| >= 3 && ts[4] == "RUN=1"
    requires forall ra :: RoutingName(ra) != ts[1][2 - |ts[0]|..]
    ensures AlgorithmLineShaped(Join(ts, ',')) && Field(Join(ts, ','), 0, 3) == Some(ts[1][2 - |ts[0]|..])
    ensures LineRuns(Join(ts, ','), iterationCount, delta) == Fatal(ERROR_ALGORITHM_INPUT)
  {
    var line := Join(ts, ',');
    TokensOfJoin(ts, ',');
    FieldOfToken(line, 1, 3);
    FieldOfToken(line, 2, 3);
    FieldOfToken(line, 3, 3);
    PrefixedField(line, 4, "RUN=", "1");
    var r := [','] + Join(ts[2..], ',');
    assert line == ts[0] + [','] + ts[1] + r by {
      assert ts[1..][0] == ts[1] && ts[1..][1..] == ts[2..];
    }
    ShortFirstToken(ts[0], ts[1], r);
    LineRunsUnknown(line, iterationCount, delta);
  }

  /** On "R,WA=FF,PS=SINGLE,QA=1,RUN=1" the routing name read is "A=FF". */
  lemma ShortFieldReadsOn(iterationCount: nat, delta: nat)
    ensures var line := Join(["R", "WA=FF", "PS=SINGLE", "QA=1", "RUN=1"], ',');
            AlgorithmLineShaped(line) && Field(line, 0, 3) == Some("A=FF") &&
            LineRuns(line, iterationCount, delta) == Fatal(ERROR_ALGORITHM_INPUT)
  {
    ShortRoutingToken(["R", "WA=FF", "PS=SINGLE", "QA=1", "RUN=1"], iterationCount, delta);
  }

  // ---------------------------------------------------------------------
  // calculateDelay

  /** `SPEED_OF_LIGHT` (RaptorTime.h:25), in metres per second. */
  const SPEED_OF_LIGHT: real := 299792458.0

  /** The two quality parameters the delay formula reads: the span
      length `L` in kilometres and the `refractive_index` of the links. */
  datatype Fibre = Fibre(spanLength: real, refractiveIndex: real)

  /** The time light needs over `spans` spans: their length in metres,
      `spans * L * 1000`, over the speed of light in the fibre,
      `SPEED_OF_LIGHT / refractive_index`. A zero index makes that speed
      infinite in floating point and the quotient 0. */
  function LightDelay(spans: nat, f: Fibre): (d: real)
    ensures spans == 0 || f.spanLength == 0.0 || f.refractiveIndex == 0.0 ==> d == 0.0
    ensures f.spanLength >= 0.0 && f.refractiveIndex >= 0.0 ==> d >= 0.0
    ensures f.spanLength > 0.0 && f.refractiveIndex > 0.0 ==> (d > 0.0 <==> spans > 0)
  {
    if f.refractiveIndex == 0.0 then 0.0
    else
      LightDelaySlowdown(spans, f);
      (spans as real * f.spanLength * 1000.0) / (SPEED_OF_LIGHT / f.refractiveIndex)
  }

  /** The quotient of the formula is the length scaled by the index over
      the vacuum speed; its sign is that of the length times the index. */
  lemma LightDelaySlowdown(spans: nat, f: Fibre)
    requires f.refractiveIndex != 0.0
    ensures (spans as real * f.spanLength * 1000.0) / (SPEED_OF_LIGHT / f.refractiveIndex)
            == MetresTimesIndex(spans, f) / SPEED_OF_LIGHT
    ensures spans == 0 || f.spanLength == 0.0 ==> MetresTimesIndex(spans, f) == 0.0
    ensures f.spanLength >= 0.0 && f.refractiveIndex >= 0.0 ==> MetresTimesIndex(spans, f) >= 0.0
    ensures f.spanLength > 0.0 && f.refractiveIndex > 0.0 && spans > 0 ==> MetresTimesIndex(spans, f) > 0.0
  {
    var a := spans as real * f.spanLength * 1000.0;
    var n := f.refractiveIndex;
    assert a / (SPEED_OF_LIGHT / n) == a * n / SPEED_OF_LIGHT;
    if f.spanLength >= 0.0 && n >= 0.0 {
      assert a >= 0.0;
    }
    if f.spanLength > 0.0 && n > 0.0 && spans > 0 {
      assert a > 0.0;
    }
  }

  /** The span distance in metres times the refractive index. */
  function MetresTimesIndex(spans: nat, f: Fibre): real
  {
    spans as real * f.spanLength * 1000.0 * f.refractiveIndex
  }

  /** The delay over consecutive stretches of fibre is the sum of their
      delays. */
  lemma LightDelayAdditive(a: nat, b: nat, f: Fibre)
    ensures LightDelay(a + b, f) == LightDelay(a, f) + LightDelay(b, f)
  {
    if f.refractiveIndex != 0.0 {
      LightDelaySlowdown(a, f);
      LightDelaySlowdown(b, f);
      LightDelaySlowdown(a + b, f);
      assert MetresTimesIndex(a + b, f) == MetresTimesIndex(a, f) + MetresTimesIndex(b, f);
    }
  }

  /** More spans take no less time on a fibre of nonnegative parameters. */
  lemma LightDelayMonotone(a: nat, b: nat, f: Fibre)
    requires a <= b && f.spanLength >= 0.0 && f.refractiveIndex >= 0.0
    ensures LightDelay(a, f) <= LightDelay(b, f)
  {
    LightDelayAdditive(a, b - a, f);
  }

  /** `calculateDelay` (Thread.cpp:2579-2590): no propagation delay for
      the IA and DP algorithms, which set up their connections centrally;
      otherwise the time light needs over the spans. */
  function CalculateDelay(ra: RoutingAlgorithm, spans: nat, f: Fibre): (d: real)
    ensures ra == ImpairmentAware || ra == DynamicProgramming ==> d == 0.0
    ensures ra != ImpairmentAware && ra != DynamicProgramming ==> d == LightDelay(spans, f)
    ensures f.spanLength >= 0.0 && f.refractiveIndex >= 0.0 ==> d >= 0.0
  {
    if ra == ImpairmentAware || ra == DynamicProgramming then 0.0 else LightDelay(spans, f)
  }
}
