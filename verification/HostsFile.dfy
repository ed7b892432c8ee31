/** The managed block in the hosts file (internal/agent/hosts.go). */
module HostsFiles {
  import opened Text
  import opened Net
  import opened Store
  import opened Names

  /** The two comment lines around the managed block. */
  datatype Marks = Marks(begin: string, end: string)

  const HEAD := "# kai overlay "

  const KAI := Marks(HEAD + "begin \U{2014} managed by" + " kai-agent, do not edit", HEAD + "end")

  // ---------- text search ----------

  predicate At(s: string, pat: string, i: int) { 0 <= i <= |s| - |pat| && s[i..i + |pat|] == pat }

  /** strings.Index: the first occurrence, or -1. */
  function Index(s: string, pat: string): (r: int)
    ensures r == -1 || 0 <= r <= |s| - |pat|
  {
    if pat <= s then 0
    else if s == "" then -1
    else Shift(1, Index(s[1..], pat))
  }

  function Shift(n: nat, i: int): int { if i == -1 then -1 else n + i }

  lemma AtTail(s: string, pat: string, i: int)
    requires 0 < i <= |s|
    ensures At(s, pat, i) <==> At(s[1..], pat, i - 1)
  {
    if i + |pat| <= |s| {
      assert s[1..][i - 1..i - 1 + |pat|] == s[i..i + |pat|];
    }
  }

  lemma {:induction false} IndexIsFirst(s: string, pat: string)
    ensures Index(s, pat) == -1 || At(s, pat, Index(s, pat))
    ensures forall i :: 0 <= i <= |s| && (Index(s, pat) == -1 || i < Index(s, pat)) ==> !At(s, pat, i)
  {
    if !(pat <= s) && s != "" {
      IndexIsFirst(s[1..], pat);
      forall i | 0 < i <= |s| ensures At(s, pat, i) <==> At(s[1..], pat, i - 1) {
        AtTail(s, pat, i);
      }
    }
  }

  predicate Absent(s: string, pat: string) { Index(s, pat) == -1 }

  predicate NoMarkers(k: Marks, s: string) { Absent(s, k.begin) && Absent(s, k.end) }

  /** Neither a hash nor a newline. */
  ghost predicate Plain(s: string) { forall i :: 0 <= i < |s| ==> s[i] != '#' && s[i] != '\n' }

  /** A marker starts with its only hash and ends on its own line. */
  ghost predicate Marker(pat: string) { |pat| > 14 && pat[0] == '#' && Plain(pat[1..]) }

  /** Two markers that differ in the letter after their common head. */
  ghost predicate Proper(k: Marks) { Marker(k.begin) && Marker(k.end) && k.begin[14] != k.end[14] }

  lemma KaiIsProper()
    ensures Proper(KAI)
  {
    var h, b, m, e := " kai overlay ", "begin \U{2014} managed by", " kai-agent, do not edit", "end";
    assert Plain(h) && Plain(b) && Plain(m) && Plain(e) && |h| == 13 && b[0] == 'b' && e[0] == 'e';
    JoinedMarker(h, b + m);
    JoinedMarker(h, e);
    assert HEAD == "#" + h;
    assert HEAD + b + m == "#" + h + (b + m);
  }

  lemma JoinedMarker(h: string, t: string)
    requires Plain(h) && Plain(t) && |h| == 13 && t != ""
    ensures Marker("#" + h + t) && ("#" + h + t)[14] == t[0]
  {
    var s := "#" + h + t;
    assert s[1..] == h + t;
  }

  /** No marker starts at a character other than a hash. */
  lemma {:induction false} SkipHashless(w: string, rest: string, pat: string)
    requires Marker(pat) && '#' !in w
    ensures Index(w + rest, pat) == Shift(|w|, Index(rest, pat))
  {
    if w == "" {
      assert w + rest == rest;
    } else {
      assert (w + rest)[0] == w[0] && (w + rest)[1..] == w[1..] + rest;
      SkipHashless(w[1..], rest, pat);
    }
  }

  /** A marker that starts in pre does not reach past a hash or newline after it. */
  lemma NoStraddle(pre: string, rest: string, pat: string)
    requires Marker(pat) && rest != "" && (rest[0] == '#' || rest[0] == '\n')
    requires pre != "" && pat <= pre + rest
    ensures pat <= pre
  {
    MarkerChars(pat);
    assert (pre + rest)[|pre|] == rest[0];
    assert |pat| <= |pre|;
    assert (pre + rest)[..|pat|] == pre[..|pat|];
  }

  lemma MarkerChars(pat: string)
    requires Marker(pat)
    ensures forall j :: 0 < j < |pat| ==> pat[j] != '#' && pat[j] != '\n'
  {
    assert forall j :: 0 < j < |pat| ==> pat[j] == pat[1..][j - 1];
  }

  lemma {:induction false} SkipAbsent(pre: string, rest: string, pat: string)
    requires Marker(pat) && Absent(pre, pat) && rest != "" && (rest[0] == '#' || rest[0] == '\n')
    ensures Index(pre + rest, pat) == Shift(|pre|, Index(rest, pat))
  {
    if pre == "" {
      assert pre + rest == rest;
    } else {
      if pat <= pre + rest {
        NoStraddle(pre, rest, pat);
      }
      assert (pre + rest)[1..] == pre[1..] + rest;
      SkipAbsent(pre[1..], rest, pat);
    }
  }

  lemma FoundFirst(pat: string, rest: string)
    ensures Index(pat + rest, pat) == 0
  {
    assert (pat + rest)[..|pat|] == pat;
  }

  /** One marker is not found inside another. */
  lemma SkipOther(p: string, pat: string, rest: string)
    requires Marker(p) && Marker(pat) && p[14] != pat[14]
    ensures Index(p + rest, pat) == Shift(|p|, Index(rest, pat))
  {
    var s := p + rest;
    assert s[14] == p[14];
    assert s[1..] == p[1..] + rest;
    SkipHashless(p[1..], rest, pat);
  }

  // ---------- the text logic ----------

  /** strings.TrimPrefix(s, "\n"). */
  function TrimNewline(s: string): string { if s != "" && s[0] == '\n' then s[1..] else s }

  /** The text without what lies between a begin marker at start and an end marker of n characters at end. */
  function Cut(s: string, start: int, end: int, n: nat): string
    requires -1 <= start <= |s| && -1 <= end && (end == -1 || end + n <= |s|)
  {
    if start == -1 then s
    else if end == -1 then s[..start]
    else s[..start] + TrimNewline(s[end + n..])
  }

  /** stripManagedBlock: the two markers are searched for independently. */
  function Strip(k: Marks, s: string): string { Cut(s, Index(s, k.begin), Index(s, k.end), |k.end|) }

  /** fmt's %-15s. */
  function Pad(s: string): string
    decreases 15 - |s|
  {
    if |s| < 15 then Pad(s + " ") else s
  }

  function Line(e: HostEntry): string { Pad(AddrText(e.ip)) + " " + e.name + "\n" }

  function Lines(entries: seq<HostEntry>): string {
    if entries == [] then "" else Lines(entries[..|entries| - 1]) + Line(entries[|entries| - 1])
  }

  function Render(k: Marks, entries: seq<HostEntry>): string {
    if entries == [] then "" else k.begin + "\n" + Lines(entries) + k.end + "\n"
  }

  function Terminated(s: string): string { if s != "" && s[|s| - 1] != '\n' then s + "\n" else s }

  /** The file after one update. */
  function Update(k: Marks, cur: string, entries: seq<HostEntry>): string {
    if entries == [] then Strip(k, cur) else Terminated(Strip(k, cur)) + Render(k, entries)
  }

  // ---------- stripping ----------

  lemma BlockStart(k: Marks, pre: string, rest: string)
    requires Proper(k) && NoMarkers(k, pre)
    ensures Index(pre + (k.begin + rest), k.begin) == |pre|
    ensures Index(pre + (k.begin + rest), k.end) == Shift(|pre| + |k.begin|, Index(rest, k.end))
  {
    SkipAbsent(pre, k.begin + rest, k.begin);
    FoundFirst(k.begin, rest);
    SkipAbsent(pre, k.begin + rest, k.end);
    SkipOther(k.begin, k.end, rest);
  }

  lemma BlockEnd(k: Marks, body: string, tail: string)
    requires Proper(k) && '#' !in body
    ensures Index(body + (k.end + tail), k.end) == |body|
  {
    SkipHashless(body, k.end + tail, k.end);
    FoundFirst(k.end, tail);
  }

  /** Stripping a block keeps what is before it, and what is after it up to one newline. */
  lemma StripBlock(k: Marks, pre: string, body: string, tail: string)
    requires Proper(k) && NoMarkers(k, pre) && '#' !in body
    ensures Strip(k, pre + (k.begin + (body + (k.end + tail)))) == pre + TrimNewline(tail)
  {
    FiveParts(pre, k.begin, body, k.end, tail);
    BlockStart(k, pre, body + (k.end + tail));
    BlockEnd(k, body, tail);
    StripKnown(k, pre + (k.begin + (body + (k.end + tail))), pre, |pre| + |k.begin| + |body|, tail);
  }

  lemma CutKnown(s: string, pre: string, e: nat, n: nat, tail: string)
    requires |pre| <= |s| && e + n <= |s| && s[..|pre|] == pre && s[e + n..] == tail
    ensures Cut(s, |pre|, e, n) == pre + TrimNewline(tail)
  {
  }

  lemma StripKnown(k: Marks, s: string, pre: string, e: nat, tail: string)
    requires Index(s, k.begin) == |pre| <= |s| && Index(s, k.end) == e && e + |k.end| <= |s|
    requires s[..|pre|] == pre && s[e + |k.end|..] == tail
    ensures Strip(k, s) == pre + TrimNewline(tail)
  {
    CutKnown(s, pre, e, |k.end|, tail);
  }

  lemma FiveParts(a: string, b: string, c: string, d: string, e: string)
    ensures var s := a + (b + (c + (d + e)));
      |s| == |a| + |b| + |c| + |d| + |e| && s[..|a|] == a && s[|a| + |b| + |c| + |d|..] == e
  {
  }

  lemma {:induction false} PadHash(s: string)
    requires '#' !in s
    ensures '#' !in Pad(s)
    decreases 15 - |s|
  {
    if |s| < 15 {
      PadHash(s + " ");
    }
  }

  /** Host entries whose names hold no hash, as all netmap names do. */
  ghost predicate Clean(entries: seq<HostEntry>) { forall e :: e in entries ==> '#' !in e.name }

  lemma {:induction false} LinesHash(entries: seq<HostEntry>)
    requires Clean(entries)
    ensures '#' !in Lines(entries)
  {
    if entries != [] {
      var e := entries[|entries| - 1];
      LinesHash(entries[..|entries| - 1]);
      AddrTextChars(e.ip);
      PadHash(AddrText(e.ip));
      assert e in entries;
    }
  }

  lemma RenderNested(k: Marks, pre: string, lines: string, post: string)
    ensures pre + (k.begin + "\n" + lines + k.end + "\n") + post == pre + (k.begin + (("\n" + lines) + (k.end + ("\n" + post))))
  {
  }

  /** A rendered block strips away completely, whatever follows it. */
  lemma StripRendered(k: Marks, pre: string, entries: seq<HostEntry>, post: string)
    requires Proper(k) && NoMarkers(k, pre) && Clean(entries) && entries != []
    ensures Strip(k, pre + Render(k, entries) + post) == pre + post
  {
    LinesHash(entries);
    StripBlock(k, pre, "\n" + Lines(entries), "\n" + post);
    RenderNested(k, pre, Lines(entries), post);
    assert TrimNewline("\n" + post) == post;
  }

  lemma StripNothing(k: Marks, s: string)
    requires NoMarkers(k, s)
    ensures Strip(k, s) == s
  {
  }

  lemma NewlineAbsent(s: string, pat: string)
    requires Marker(pat) && Absent(s, pat)
    ensures Absent(s + "\n", pat)
  {
    SkipAbsent(s, "\n", pat);
    assert Index("\n", pat) == -1 by {
      assert "\n"[1..] == "";
      assert Index("", pat) == -1;
    }
  }

  lemma TerminatedNoMarkers(k: Marks, s: string)
    requires Proper(k) && NoMarkers(k, s)
    ensures NoMarkers(k, Terminated(s))
    ensures Terminated(Terminated(s)) == Terminated(s)
  {
    NewlineAbsent(s, k.begin);
    NewlineAbsent(s, k.end);
  }

  // ---------- rewriting ----------

  /** A file whose user text is u: u itself, or u with one rendered block somewhere in it. */
  ghost predicate Holds(k: Marks, file: string, u: string) {
    NoMarkers(k, u) && (file == u || exists pre, entries, post :: HoldsBlock(k, file, u, pre, entries, post))
  }

  ghost predicate HoldsBlock(k: Marks, file: string, u: string, pre: string, entries: seq<HostEntry>, post: string) {
    NoMarkers(k, pre) && Clean(entries) && entries != [] && u == pre + post && file == pre + Render(k, entries) + post
  }

  lemma StripHolds(k: Marks, file: string, u: string)
    requires Proper(k) && Holds(k, file, u)
    ensures Strip(k, file) == u
  {
    if file == u {
      StripNothing(k, u);
    } else {
      var pre, entries, post :| HoldsBlock(k, file, u, pre, entries, post);
      StripRendered(k, pre, entries, post);
    }
  }

  /** User text is kept up to a final newline, with the new block behind it. */
  lemma UpdateKeepsUserText(k: Marks, file: string, u: string, entries: seq<HostEntry>)
    requires Proper(k) && Holds(k, file, u) && Clean(entries)
    ensures Update(k, file, entries) == (if entries == [] then u else Terminated(u)) + Render(k, entries)
    ensures Holds(k, Update(k, file, entries), if entries == [] then u else Terminated(u))
  {
    StripHolds(k, file, u);
    TerminatedNoMarkers(k, u);
    var next := Update(k, file, entries);
    if entries == [] {
      assert u + "" == u;
    } else {
      assert Terminated(u) + "" == Terminated(u) && next == Terminated(u) + Render(k, entries) + "";
      assert HoldsBlock(k, next, Terminated(u), Terminated(u), entries, "");
    }
  }

  /** A second rewrite with the same entries changes nothing. */
  lemma UpdateIdempotent(k: Marks, file: string, u: string, entries: seq<HostEntry>)
    requires Proper(k) && Holds(k, file, u) && Clean(entries)
    ensures Update(k, Update(k, file, entries), entries) == Update(k, file, entries)
  {
    var v := if entries == [] then u else Terminated(u);
    TerminatedNoMarkers(k, u);
    UpdateKeepsUserText(k, file, u, entries);
    UpdateKeepsUserText(k, Update(k, file, entries), v, entries);
  }

  function UpdateAll(k: Marks, file: string, updates: seq<seq<HostEntry>>): string {
    if updates == [] then file else Update(k, UpdateAll(k, file, updates[..|updates| - 1]), updates[|updates| - 1])
  }

  /** Some rewrite had entries to write. */
  predicate Wrote(updates: seq<seq<HostEntry>>) { exists i :: 0 <= i < |updates| && updates[i] != [] }

  lemma WroteSnoc(updates: seq<seq<HostEntry>>)
    requires updates != []
    ensures Wrote(updates) <==> Wrote(updates[..|updates| - 1]) || updates[|updates| - 1] != []
  {
    var init := updates[..|updates| - 1];
    if Wrote(init) {
      var i :| 0 <= i < |init| && init[i] != [];
      assert updates[i] != [];
    }
  }

  function UserText(u: string, wrote: bool): string { if wrote then Terminated(u) else u }

  /** Over any number of rewrites, the user's text gains at most one final newline. */
  lemma {:induction false} RewritesKeepUserText(k: Marks, u: string, updates: seq<seq<HostEntry>>)
    requires Proper(k) && NoMarkers(k, u) && forall i :: 0 <= i < |updates| ==> Clean(updates[i])
    ensures Holds(k, UpdateAll(k, u, updates), UserText(u, Wrote(updates)))
    ensures UpdateAll(k, u, updates) == UserText(u, Wrote(updates)) + (if updates == [] then "" else Render(k, updates[|updates| - 1]))
  {
    if updates != [] {
      var n := |updates| - 1;
      RewritesKeepUserText(k, u, updates[..n]);
      TerminatedNoMarkers(k, u);
      WroteSnoc(updates);
      UpdateKeepsUserText(k, UpdateAll(k, u, updates[..n]), UserText(u, Wrote(updates[..n])), updates[n]);
    }
  }

  /** The names the coordinator hands out are clean. */
  lemma NetmapHostsClean(lower: char -> char, nodes: seq<Node>, statics: seq<StaticPeer>)
    ensures Clean(HostsOf(lower, nodes, statics))
  {
    HostsDistinct(lower, nodes, statics);
    var hosts := HostsOf(lower, nodes, statics);
    forall e | e in hosts ensures '#' !in e.name {
      var i :| 0 <= i < |hosts| && hosts[i] == e;
      assert IsHostName(hosts[i].name);
      var l :| l != "" && IsLabel(l) && e.name == l + SUFFIX;
    }
  }

  // ---------- what the block says ----------

  lemma {:induction false} PadShape(s: string)
    ensures |Pad(s)| == (if |s| < 15 then 15 else |s|) && s <= Pad(s) && forall i :: |s| <= i < |Pad(s)| ==> Pad(s)[i] == ' '
    decreases 15 - |s|
  {
    if |s| < 15 {
      PadShape(s + " ");
      assert (s + " ")[|s|] == ' ';
    }
  }

  /** The line of an entry without its newline: the address padded to 15, a blank, the name. */
  function Row(e: HostEntry): string { Pad(AddrText(e.ip)) + " " + e.name }

  ghost predicate OneLine(entries: seq<HostEntry>) { forall e :: e in entries ==> '\n' !in e.name }

  lemma {:induction false} PadNewline(s: string)
    requires '\n' !in s
    ensures '\n' !in Pad(s)
    decreases 15 - |s|
  {
    if |s| < 15 {
      PadNewline(s + " ");
    }
  }

  lemma RowIsOneLine(e: HostEntry)
    requires '\n' !in e.name
    ensures '\n' !in Row(e) && Line(e) == Row(e) + ['\n']
  {
    AddrTextChars(e.ip);
    PadNewline(AddrText(e.ip));
  }

  function Rows(entries: seq<HostEntry>): seq<string> { seq(|entries|, i requires 0 <= i < |entries| => Row(entries[i])) }

  lemma SplitStep(head: string, row: string, rest: string, rows: seq<string>)
    requires '\n' !in row && Split(head + (row + ['\n'] + rest), '\n') == rows + Split(row + ['\n'] + rest, '\n')
    ensures Split((head + (row + ['\n'])) + rest, '\n') == (rows + [row]) + Split(rest, '\n')
  {
    SplitFirst(row, rest, '\n');
    assert (head + (row + ['\n'])) + rest == head + (row + ['\n'] + rest);
    assert rows + ([row] + Split(rest, '\n')) == (rows + [row]) + Split(rest, '\n');
  }

  /** Splitting the entry lines gives one line per entry, in order. */
  lemma {:induction false} SplitLines(entries: seq<HostEntry>, rest: string)
    requires OneLine(entries)
    ensures Split(Lines(entries) + rest, '\n') == Rows(entries) + Split(rest, '\n')
  {
    if entries == [] {
      assert Lines(entries) + rest == rest;
    } else {
      var init, e := entries[..|entries| - 1], entries[|entries| - 1];
      assert e in entries && forall x :: x in init ==> x in entries;
      SplitLines(init, Row(e) + ['\n'] + rest);
      RowIsOneLine(e);
      SplitStep(Lines(init), Row(e), rest, Rows(init));
      RowsSnoc(entries);
    }
  }

  lemma RowsSnoc(entries: seq<HostEntry>)
    requires entries != []
    ensures Rows(entries) == Rows(entries[..|entries| - 1]) + [Row(entries[|entries| - 1])]
  {
  }

  /** The block is the begin marker, one line per entry in order, and the end marker. */
  lemma BlockLines(k: Marks, entries: seq<HostEntry>)
    requires Proper(k) && OneLine(entries) && entries != []
    ensures Split(Render(k, entries), '\n') == [k.begin] + Rows(entries) + [k.end, ""]
  {
    MarkerChars(k.begin);
    MarkerChars(k.end);
    var tail := k.end + ['\n'] + "";
    SplitFirst(k.end, "", '\n');
    SplitLines(entries, tail);
    SplitFirst(k.begin, Lines(entries) + tail, '\n');
    assert Render(k, entries) == k.begin + ['\n'] + (Lines(entries) + tail);
    assert [k.begin] + (Rows(entries) + [k.end, ""]) == [k.begin] + Rows(entries) + [k.end, ""];
  }

  // ---------- markers in the wrong order ----------

  lemma MarkerSpan(s: string, pat: string, i: int)
    requires Marker(pat) && At(s, pat, i)
    ensures s[i] == '#' && forall j :: i < j < i + |pat| ==> s[j] != '#' && s[j] != '\n'
  {
    assert s[i] == s[i..i + |pat|][0];
    forall j | i < j < i + |pat| ensures s[j] != '#' && s[j] != '\n' {
      assert s[j] == s[i..i + |pat|][j - i] == pat[1..][j - i - 1];
    }
  }

  lemma NotBoth(k: Marks, s: string, b: int, e: int)
    requires Proper(k) && At(s, k.begin, b) && At(s, k.end, e)
    ensures b != e
  {
    assert s[b..b + |k.begin|][14] == s[b + 14] && s[e..e + |k.end|][14] == s[e + 14];
  }

  /** With both markers present, stripping shortens the file exactly when the begin marker comes first. */
  lemma StripShrinksIff(k: Marks, s: string)
    requires Proper(k) && !Absent(s, k.begin) && !Absent(s, k.end)
    ensures |Strip(k, s)| < |s| <==> Index(s, k.begin) < Index(s, k.end)
  {
    var b, e := Index(s, k.begin), Index(s, k.end);
    assert At(s, k.begin, b) by { IndexIsFirst(s, k.begin); }
    assert At(s, k.end, e) by { IndexIsFirst(s, k.end); }
    NotBoth(k, s, b, e);
    assert s[b] == '#' by { MarkerSpan(s, k.begin, b); }
    assert forall j :: e < j < e + |k.end| ==> s[j] != '#' by { MarkerSpan(s, k.end, e); }
    StripLength(k, s, b, e);
  }

  lemma StripLength(k: Marks, s: string, b: nat, e: nat)
    requires Index(s, k.begin) == b && Index(s, k.end) == e && b < |s| && e + |k.end| <= |s|
    requires s[b] == '#' && (forall j :: e < j < e + |k.end| ==> s[j] != '#') && b != e
    ensures |Strip(k, s)| < |s| <==> b < e
  {
    var rest := s[e + |k.end|..];
    assert rest != "" ==> rest[0] == s[e + |k.end|];
  }

  /** An end marker before the begin marker makes stripping repeat the text between them. */
  lemma ReversedRepeats(k: Marks, pre: string, mid: string, tail: string)
    requires Proper(k) && NoMarkers(k, pre) && NoMarkers(k, mid)
    ensures Strip(k, pre + (k.end + (mid + (k.begin + tail)))) == pre + k.end + mid + TrimNewline(mid + (k.begin + tail))
  {
    var rest := mid + (k.begin + tail);
    var s := pre + (k.end + rest);
    BlockStart(Marks(k.end, k.begin), pre, rest);
    SkipAbsent(mid, k.begin + tail, k.begin);
    FoundFirst(k.begin, tail);
    FourParts(pre, k.end, mid, k.begin + tail);
    StripKnown(k, s, pre + k.end + mid, |pre|, rest);
  }

  lemma FourParts(a: string, b: string, c: string, d: string)
    ensures var s := a + (b + (c + d));
      |s| == |a| + |b| + |c| + |d| && s[..|a| + |b| + |c|] == a + b + c && s[|a| + |b|..] == c + d
  {
  }

  // ---------- the agent's code ----------

  lemma Associative(a: string, b: string, c: string)
    ensures (a + b) + c == a + (b + c)
  {
  }

  lemma LinesSnoc(head: string, entries: seq<HostEntry>, i: nat)
    requires i < |entries|
    ensures head + Lines(entries[..i + 1]) == head + Lines(entries[..i]) + Line(entries[i])
  {
    assert entries[..i + 1][..i] == entries[..i];
    Associative(head, Lines(entries[..i]), Line(entries[i]));
  }

  method AppendLines(head: string, entries: seq<HostEntry>) returns (b: string)
    ensures b == head + Lines(entries)
  {
    b := head;
    for i := 0 to |entries|
      invariant b == head + Lines(entries[..i])
    {
      LinesSnoc(head, entries, i);
      b := b + Line(entries[i]);
    }
    assert entries[..|entries|] == entries;
  }

  method RenderHostsBlock(k: Marks, entries: seq<HostEntry>) returns (b: string)
    ensures b == Render(k, entries)
  {
    if |entries| == 0 {
      return "";
    }
    b := AppendLines(k.begin + "\n", entries);
    b := b + k.end + "\n";
  }

  lemma RenderEmpty(k: Marks, entries: seq<HostEntry>)
    ensures Render(k, entries) == "" <==> entries == []
  {
    if entries != [] {
      assert |Render(k, entries)| >= 1;
    }
  }

  method AppendBlock(k: Marks, stripped: string, entries: seq<HostEntry>) returns (next: string)
    ensures next == if entries == [] then stripped else Terminated(stripped) + Render(k, entries)
  {
    next := stripped;
    var block := RenderHostsBlock(k, entries);
    RenderEmpty(k, entries);
    if block != "" {
      if next != "" && next[|next| - 1] != '\n' {
        next := next + "\n";
      }
      next := next + block;
    }
  }

  class HostsFile {
    const k: Marks
    var content: string

    constructor (content: string)
      ensures this.content == content && k == KAI
    {
      this.content, k := content, KAI;
    }

    /** Rewrites the managed block; no entries remove it. An unchanged text is not written. */
    method UpdateHosts(entries: seq<HostEntry>) returns (written: bool)
      modifies this
      ensures content == Update(k, old(content), entries)
      ensures written <==> content != old(content)
    {
      var stripped := Strip(k, content);
      var next := AppendBlock(k, stripped, entries);
      written := next != content;
      if written {
        content := next;
      }
    }
  }
}
