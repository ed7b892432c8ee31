/** Comma lists, decimal numerals and DNS-label slugs (internal/text/text.go). */
module Text {

  // ---------- separator-joined lists ----------

  /** strings.Join with a one-character separator. */
  function Join(parts: seq<string>, sep: char): string {
    if |parts| == 0 then ""
    else if |parts| == 1 then parts[0]
    else parts[0] + [sep] + Join(parts[1..], sep)
  }

  /** strings.Split with a one-character separator: never empty, even for "". */
  function Split(s: string, sep: char): (r: seq<string>)
    ensures |r| >= 1
  {
    if s == "" then [""]
    else
      var rest := Split(s[1..], sep);
      if s[0] == sep then [""] + rest else [[s[0]] + rest[0]] + rest[1..]
  }

  ghost predicate Free(parts: seq<string>, sep: char) {
    forall p :: p in parts ==> sep !in p
  }

  lemma {:induction false} SplitWord(w: string, sep: char)
    requires sep !in w
    ensures Split(w, sep) == [w]
  {
    if w != "" {
      SplitWord(w[1..], sep);
      assert [w[0]] + w[1..] == w;
    }
  }

  lemma {:induction false} SplitFirst(w: string, rest: string, sep: char)
    requires sep !in w
    ensures Split(w + [sep] + rest, sep) == [w] + Split(rest, sep)
  {
    var s := w + [sep] + rest;
    if w == "" {
      assert s[1..] == rest;
    } else {
      SplitFirst(w[1..], rest, sep);
      assert s[1..] == w[1..] + [sep] + rest;
      assert [w[0]] + w[1..] == w;
    }
  }

  /** Splitting a joined list gives the list back. */
  lemma {:induction false} SplitJoin(parts: seq<string>, sep: char)
    requires parts != [] && Free(parts, sep)
    ensures Split(Join(parts, sep), sep) == parts
  {
    if |parts| == 1 {
      SplitWord(parts[0], sep);
    } else {
      SplitJoin(parts[1..], sep);
      SplitFirst(parts[0], Join(parts[1..], sep), sep);
    }
  }

  lemma {:induction false} SplitFree(s: string, sep: char)
    ensures Free(Split(s, sep), sep)
  {
    if s != "" {
      SplitFree(s[1..], sep);
      var rest := Split(s[1..], sep);
      assert rest[0] in rest;
      forall p | p in Split(s, sep) ensures sep !in p {
        if s[0] != sep && p == [s[0]] + rest[0] {
        } else if p in rest {
        }
      }
    }
  }

  /** Joining a split text gives the text back, for every text. */
  lemma {:induction false} JoinSplit(s: string, sep: char)
    ensures Join(Split(s, sep), sep) == s
  {
    if s != "" {
      JoinSplit(s[1..], sep);
      var rest := Split(s[1..], sep);
      var all := Split(s, sep);
      assert all[1..] == if s[0] == sep then rest else rest[1..];
      if s[0] == sep {
        assert Join(all, sep) == [sep] + s[1..];
      } else if |rest| > 1 {
        assert Join(all, sep) == ([s[0]] + rest[0]) + [sep] + Join(rest[1..], sep);
      }
      assert s == [s[0]] + s[1..];
    }
  }

  function JoinCSV(items: seq<string>): string { Join(items, ',') }

  /** The store's inverse of JoinCSV: the empty field is the empty list. */
  function SplitCSV(s: string): seq<string> { if s == "" then [] else Split(s, ',') }

  /**
   * A list survives a trip through one database column exactly when no item
   * holds a comma and the list is not the single empty string.
   */
  lemma CsvRoundTrip(items: seq<string>)
    ensures SplitCSV(JoinCSV(items)) == items <==> Free(items, ',') && items != [""]
  {
    if items != [] && Free(items, ',') {
      SplitJoin(items, ',');
      if |items| > 1 {
        assert ',' in JoinCSV(items);
      }
    }
    if SplitCSV(JoinCSV(items)) == items && items != [] {
      SplitFree(JoinCSV(items), ',');
    }
  }

  /** Equal joins of lists without empty items agree on emptiness, commas or not. */
  lemma JoinEmptiness(a: seq<string>, b: seq<string>)
    requires "" !in a && "" !in b
    requires JoinCSV(a) == JoinCSV(b)
    ensures a == [] <==> b == []
  {
    assert a != [] ==> a[0] in a && |JoinCSV(a)| > 0;
    assert b != [] ==> b[0] in b && |JoinCSV(b)| > 0;
  }

  // ---------- decimal numerals ----------

  predicate IsDigit(c: char) { '0' <= c <= '9' }

  function Digit(d: nat): (c: char)
    requires d < 10
    ensures IsDigit(c)
  {
    ('0' as int + d) as char
  }

  /** fmt's %d on a natural number. */
  function Dec(n: nat): (s: string)
    ensures s != "" && forall c :: c in s ==> IsDigit(c)
  {
    if n < 10 then [Digit(n)] else Dec(n / 10) + [Digit(n % 10)]
  }

  lemma {:induction false} DecInjective(m: nat, n: nat)
    requires Dec(m) == Dec(n)
    ensures m == n
  {
    var s, t := Dec(m), Dec(n);
    assert s[|s| - 1] == t[|t| - 1];
    if m >= 10 && n >= 10 {
      assert s[..|s| - 1] == Dec(m / 10) && t[..|t| - 1] == Dec(n / 10);
      DecInjective(m / 10, n / 10);
    }
  }

  /** Reading a printed number back gives the number. */
  lemma {:induction false} DecValue(n: nat)
    ensures DigitsValue(Dec(n)) == n && PortValue(Dec(n)) == n
  {
    var s := Dec(n);
    assert forall i :: 0 <= i < |s| ==> s[i] in s;
    if n >= 10 {
      DecValue(n / 10);
      assert s[..|s| - 1] == Dec(n / 10) && s[|s| - 1] == Digit(n % 10);
    } else {
      assert s[..0] == "" && Numeral("") == 0;
    }
  }

  /** strconv.Atoi on a port text: digits with an optional plus sign; -1 for anything else. */
  function PortValue(t: string): int { if t != "" && t[0] == '+' then DigitsValue(t[1..]) else DigitsValue(t) }

  function DigitsValue(t: string): int {
    if t == "" || exists i :: 0 <= i < |t| && !IsDigit(t[i]) then -1 else Numeral(t)
  }

  function Numeral(t: string): (n: int)
    requires forall i :: 0 <= i < |t| ==> IsDigit(t[i])
    ensures n >= 0
  {
    if t == "" then 0 else
      assert IsDigit(t[|t| - 1]);
      10 * Numeral(t[..|t| - 1]) + (t[|t| - 1] as int - '0' as int)
  }

  // ---------- slugs ----------

  predicate IsAlnum(c: char) { 'a' <= c <= 'z' || IsDigit(c) }

  /** The maximal runs of [a-z0-9] in s, left to right. */
  function Words(s: string): (ws: seq<string>)
    ensures "" !in ws
    ensures s != "" && IsAlnum(s[|s| - 1]) ==> ws != []
  {
    if s == "" then []
    else
      var n := |s| - 1;
      var ws := Words(s[..n]);
      if !IsAlnum(s[n]) then ws
      else if n > 0 && IsAlnum(s[n - 1]) then ws[..|ws| - 1] + [ws[|ws| - 1] + [s[n]]]
      else ws + [[s[n]]]
  }

  /** The label a name reduces to: its words joined by single dashes. */
  function SlugOf(s: string): string { Join(Words(s), '-') }

  ghost predicate AllAlnum(w: string) { forall i :: 0 <= i < |w| ==> IsAlnum(w[i]) }

  ghost predicate AlnumWords(ws: seq<string>) {
    forall i :: 0 <= i < |ws| ==> ws[i] != "" && AllAlnum(ws[i])
  }

  lemma {:induction false} WordsAreAlnum(s: string)
    ensures AlnumWords(Words(s))
  {
    if s != "" {
      WordsAreAlnum(s[..|s| - 1]);
    }
  }

  lemma {:induction false} JoinSnoc(ws: seq<string>, w: string, sep: char)
    ensures Join(ws + [w], sep) == if ws == [] then w else Join(ws, sep) + [sep] + w
  {
    if ws == [] {
      assert ws + [w] == [w];
    } else {
      JoinSnoc(ws[1..], w, sep);
      assert (ws + [w])[1..] == ws[1..] + [w];
    }
  }

  lemma JoinExtendLast(ws: seq<string>, c: char, sep: char)
    requires ws != []
    ensures Join(ws[..|ws| - 1] + [ws[|ws| - 1] + [c]], sep) == Join(ws, sep) + [c]
  {
    var init, last := ws[..|ws| - 1], ws[|ws| - 1];
    JoinSnoc(init, last + [c], sep);
    JoinSnoc(init, last, sep);
    assert init + [last] == ws;
  }

  /** A DNS label: [a-z0-9-], no dash at either edge, no two dashes in a row. */
  ghost predicate IsLabel(s: string) {
    && (forall i :: 0 <= i < |s| ==> IsAlnum(s[i]) || s[i] == '-')
    && (s != "" ==> s[0] != '-' && s[|s| - 1] != '-')
    && (forall i :: 0 <= i < |s| - 1 ==> s[i] != '-' || s[i + 1] != '-')
  }

  lemma {:induction false} JoinedWordsAreLabel(ws: seq<string>)
    requires AlnumWords(ws)
    ensures IsLabel(Join(ws, '-'))
    ensures ws != [] ==> Join(ws, '-') != ""
  {
    if |ws| > 1 {
      JoinedWordsAreLabel(ws[1..]);
    }
  }

  lemma {:induction false} WordsAppend(s: string, w: string)
    requires s == "" || !IsAlnum(s[|s| - 1])
    requires w != "" && AllAlnum(w)
    ensures Words(s + w) == Words(s) + [w]
  {
    var n := |w| - 1;
    var v, c := w[..n], w[n];
    assert w == v + [c];
    if n == 0 {
      assert w == [c];
      WordsSnoc(s, c);
    } else {
      WordsAppend(s, v);
      ExtendWord(s, v, c);
      assert s + v + [c] == s + w;
    }
  }

  lemma ExtendWord(s: string, v: string, c: char)
    requires v != "" && AllAlnum(v) && IsAlnum(c) && Words(s + v) == Words(s) + [v]
    ensures Words(s + v + [c]) == Words(s) + [v + [c]]
  {
    assert (s + v)[|s + v| - 1] == v[|v| - 1];
    WordsSnoc(s + v, c);
  }

  /** How the words of a text grow by one letter or digit. */
  lemma WordsSnoc(p: string, c: char)
    requires IsAlnum(c)
    ensures var ws := Words(p);
      Words(p + [c]) == if p != "" && IsAlnum(p[|p| - 1]) then ws[..|ws| - 1] + [ws[|ws| - 1] + [c]] else ws + [[c]]
  {
    var t := p + [c];
    assert t[..|t| - 1] == p;
  }

  lemma {:induction false} WordsOfJoin(ws: seq<string>)
    requires AlnumWords(ws)
    ensures Words(Join(ws, '-')) == ws
  {
    if ws != [] {
      var init, w := ws[..|ws| - 1], ws[|ws| - 1];
      assert init + [w] == ws;
      WordsOfJoin(init);
      JoinSnoc(init, w, '-');
      if init == [] {
        WordsAppend("", w);
        assert "" + w == w;
      } else {
        var s := Join(init, '-') + ['-'];
        assert s[..|s| - 1] == Join(init, '-');
        WordsAppend(s, w);
      }
    }
  }

  /** Slugs are labels, and slugging is a projection: it keeps exactly the words. */
  lemma SlugIsProjection(s: string)
    ensures IsLabel(SlugOf(s))
    ensures Words(SlugOf(s)) == Words(s)
    ensures SlugOf(SlugOf(s)) == SlugOf(s)
  {
    WordsAreAlnum(s);
    JoinedWordsAreLabel(Words(s));
    WordsOfJoin(Words(s));
  }

  function MapLower(lower: char -> char, s: string): (r: string)
    ensures |r| == |s| && forall i :: 0 <= i < |s| ==> r[i] == lower(s[i])
  {
    seq(|s|, i requires 0 <= i < |s| => lower(s[i]))
  }

  /** strings.Trim(s, "-"). */
  function TrimDashes(s: string): string {
    if s != "" && s[0] == '-' then TrimDashes(s[1..])
    else if s != "" && s[|s| - 1] == '-' then TrimDashes(s[..|s| - 1])
    else s
  }

  /** How the slug of a prefix grows by one character. */
  lemma SlugSnoc(p: string, c: char)
    ensures var glue := p == "" || !IsAlnum(p[|p| - 1]);
      SlugOf(p + [c]) ==
      if !IsAlnum(c) then SlugOf(p)
      else if glue && SlugOf(p) != "" then SlugOf(p) + "-" + [c]
      else SlugOf(p) + [c]
  {
    var q := p + [c];
    assert q[..|q| - 1] == p;
    var ws := Words(p);
    WordsAreAlnum(p);
    JoinedWordsAreLabel(ws);
    if IsAlnum(c) {
      if p == "" || !IsAlnum(p[|p| - 1]) {
        JoinSnoc(ws, [c], '-');
      } else {
        assert q[|q| - 2] == p[|p| - 1];
        JoinExtendLast(ws, c, '-');
      }
    }
  }

  lemma TrimTrailingDash(s: string)
    requires IsLabel(s)
    ensures TrimDashes(s) == s
    ensures s != "" ==> TrimDashes(s + "-") == s
  {
    var t := s + "-";
    assert t[..|t| - 1] == s;
  }

  /** Whether the next word starts afresh. */
  predicate Apart(p: string) { p == "" || !IsAlnum(p[|p| - 1]) }

  /** What the loop of Slug has written after a prefix: its slug, with a dash once a word has ended. */
  function Buffer(p: string): string { SlugOf(p) + if Apart(p) && SlugOf(p) != "" then "-" else "" }

  lemma BufferSnoc(p: string, c: char)
    ensures Buffer(p + [c]) == if IsAlnum(c) then Buffer(p) + [c] else if Apart(p) then Buffer(p) else Buffer(p) + ['-']
    ensures Apart(p + [c]) <==> !IsAlnum(c)
  {
    SlugSnoc(p, c);
    assert (p + [c])[|p|] == c;
    if !Apart(p) {
      WordsAreAlnum(p);
      JoinedWordsAreLabel(Words(p));
    }
  }

  /** The letters and digits of a text, in order. */
  function Letters(s: string): string {
    if s == "" then "" else Letters(s[..|s| - 1]) + if IsAlnum(s[|s| - 1]) then [s[|s| - 1]] else ""
  }

  lemma LettersSnoc(p: string, c: char)
    ensures Letters(p + [c]) == Letters(p) + if IsAlnum(c) then [c] else ""
  {
    var t := p + [c];
    assert t[..|t| - 1] == p;
  }

  /** Slugging keeps every letter and digit, and leaves nothing only when there is none. */
  lemma {:induction false} SlugKeepsLetters(s: string)
    ensures Letters(SlugOf(s)) == Letters(s)
    ensures SlugOf(s) == "" <==> Letters(s) == ""
  {
    if s != "" {
      var p, c := s[..|s| - 1], s[|s| - 1];
      assert s == p + [c];
      SlugKeepsLetters(p);
      SlugSnoc(p, c);
      LettersSnoc(p, c);
      LettersSnoc(SlugOf(p), c);
      LettersSnoc(SlugOf(p), '-');
      LettersSnoc(SlugOf(p) + "-", c);
    }
  }

  lemma {:induction false} LabelBuffer(s: string, n: nat)
    requires IsLabel(s) && n <= |s|
    ensures Buffer(s[..n]) == s[..n]
  {
    if n > 0 {
      LabelBuffer(s, n - 1);
      BufferSnoc(s[..n - 1], s[n - 1]);
      assert s[..n] == s[..n - 1] + [s[n - 1]];
    }
  }

  /** A label is its own slug. */
  lemma LabelIsItsSlug(s: string)
    requires IsLabel(s)
    ensures SlugOf(s) == s
  {
    LabelBuffer(s, |s|);
    assert s[..|s|] == s;
    assert SlugOf(s) + "" == SlugOf(s);
  }

  /** One pass over the lower-cased runes; `lower` is Unicode lower-casing. */
  method Slug(lower: char -> char, s: string) returns (slug: string)
    ensures slug == SlugOf(MapLower(lower, s))
    ensures IsLabel(slug)
  {
    var t := MapLower(lower, s);
    var b := "";
    var dash := true; // swallow leading separators
    for i := 0 to |t|
      invariant dash == Apart(t[..i]) && b == Buffer(t[..i])
    {
      BufferSnoc(t[..i], t[i]);
      assert t[..i + 1] == t[..i] + [t[i]];
      if IsAlnum(t[i]) {
        b := b + [t[i]];
        dash := false;
      } else if !dash {
        b := b + ['-'];
        dash := true;
      }
    }
    assert t[..|t|] == t;
    SlugIsProjection(t);
    TrimTrailingDash(SlugOf(t));
    assert SlugOf(t) + "" == SlugOf(t);
    slug := TrimDashes(b);
  }
}
