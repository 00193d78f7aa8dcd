/** Rewriting the project's own version in a lockfile: lines, the search for the version line, and the
    replacement of the quoted version in it. */
module Lockfile {
  import opened Options
  import opened Sequences

  // ---- Lines -----------------------------------------------------------------------------------------

  datatype Line = Line(text: string)

  /** The characters `splitlines` ends a line at. */
  predicate IsBreak(c: char) {
    var n := c as int;
    10 <= n <= 13 || 28 <= n <= 30 || n == 0x85 || n == 0x2028 || n == 0x2029
  }

  /** The characters `strip` removes and `\s` matches. */
  predicate IsSpace(c: char) {
    var n := c as int;
    || 9 <= n <= 13 || 28 <= n <= 32 || n == 0x85 || n == 0xa0 || n == 0x1680 || 0x2000 <= n <= 0x200a
    || n == 0x2028 || n == 0x2029 || n == 0x202f || n == 0x205f || n == 0x3000
  }

  predicate IsQuote(c: char) {
    c == '"' || c == '\''
  }

  /** The length of the first line, with its line ending. */
  function FirstLine(t: string): (n: nat)
    ensures n <= |t| && (t != "" ==> n > 0)
  {
    if t == "" then 0
    else if !IsBreak(t[0]) then 1 + FirstLine(t[1..])
    else if t[0] == '\r' && |t| > 1 && t[1] == '\n' then 2 else 1
  }

  /** `splitlines(keepends=True)`. */
  function Split(t: string): seq<Line> {
    if t == "" then [] else [Line(t[..FirstLine(t)])] + Split(t[FirstLine(t)..])
  }

  function Join(lines: seq<Line>): string {
    if lines == [] then "" else lines[0].text + Join(lines[1..])
  }

  lemma {:induction false} JoinSplit(t: string)
    ensures Join(Split(t)) == t
  {
    if t != "" {
      var n := FirstLine(t);
      assert Split(t)[1..] == Split(t[n..]);
      JoinSplit(t[n..]);
      assert t[..n] + t[n..] == t;
    }
  }

  /** Lines that `Split` can have produced: each is the first line of what follows it. */
  predicate Separate(lines: seq<Line>) {
    lines == [] || (lines[0].text != "" && FirstLine(Join(lines)) == |lines[0].text| && Separate(lines[1..]))
  }

  lemma {:induction false} SplitSeparates(t: string)
    ensures Separate(Split(t))
  {
    if t != "" {
      JoinSplit(t);
      assert Split(t)[1..] == Split(t[FirstLine(t)..]);
      SplitSeparates(t[FirstLine(t)..]);
    }
  }

  lemma {:induction false} SplitJoin(lines: seq<Line>)
    requires Separate(lines)
    ensures Split(Join(lines)) == lines
  {
    if lines != [] {
      var t, n := Join(lines), |lines[0].text|;
      assert t[..n] == lines[0].text && t[n..] == Join(lines[1..]);
      SplitJoin(lines[1..]);
      assert [lines[0]] + lines[1..] == lines;
    }
  }

  predicate BreakFree(s: string) {
    forall i :: 0 <= i < |s| ==> !IsBreak(s[i])
  }

  lemma {:induction false} FirstLineSkips(b: string, rest: string)
    requires BreakFree(b)
    ensures FirstLine(b + rest) == |b| + FirstLine(rest)
  {
    if b == "" {
      assert b + rest == rest;
    } else {
      assert (b + rest)[1..] == b[1..] + rest;
      FirstLineSkips(b[1..], rest);
    }
  }

  /** A first line that reaches past `b` into something that does not continue a line break has no break in `b`. */
  lemma {:induction false} FirstLineBreakFree(b: string, rest: string)
    requires rest != "" && rest[0] != '\n' && FirstLine(b + rest) > |b|
    ensures BreakFree(b)
  {
    if b != "" {
      assert (b + rest)[1..] == b[1..] + rest;
      assert (b + rest)[0] == b[0];
      if |b| == 1 {
        assert (b + rest)[1] == rest[0];
      }
      if !IsBreak(b[0]) {
        FirstLineBreakFree(b[1..], rest);
        assert forall i :: 0 < i < |b| ==> b[i] == b[1..][i - 1];
      }
    }
  }

  /** Only the first character after a line decides where the line ends. */
  lemma {:induction false} FirstLineLooksAhead(l: string, rest: string, other: string)
    requires rest != "" && other != "" && rest[0] == other[0]
    requires l != "" && FirstLine(l + rest) == |l|
    ensures FirstLine(l + other) == |l|
  {
    assert (l + rest)[1..] == l[1..] + rest && (l + other)[1..] == l[1..] + other;
    assert |l| == 1 ==> l[1..] + rest == rest;
    if !IsBreak(l[0]) {
      FirstLineLooksAhead(l[1..], rest, other);
    }
  }

  /** Replacing a line by one that starts alike and also ends the line keeps the lines separate. */
  lemma {:induction false} SeparateReplaced(lines: seq<Line>, k: nat, text: string)
    requires Separate(lines) && k < |lines| && lines[k].text != "" && text != ""
    requires text[0] == lines[k].text[0]
    requires FirstLine(text + Join(lines[k + 1..])) == |text|
    ensures Separate(lines[k := Line(text)])
    ensures Join(lines[k := Line(text)]) != "" && Join(lines[k := Line(text)])[0] == Join(lines)[0]
  {
    var next := lines[k := Line(text)];
    if k == 0 {
      assert next[1..] == lines[1..];
    } else {
      assert next[1..] == lines[1..][k - 1 := Line(text)];
      assert lines[1..][k - 1 + 1..] == lines[k + 1..];
      SeparateReplaced(lines[1..], k - 1, text);
      FirstLineLooksAhead(lines[0].text, Join(lines[1..]), Join(next[1..]));
    }
  }

  // ---- Finding the version line ------------------------------------------------------------------------

  datatype Kind = Header | Name(ours: bool) | Version | Source(editable: bool) | Other

  function LeftStrip(s: string): (r: string)
    ensures r != "" ==> !IsSpace(r[0])
  {
    if s != "" && IsSpace(s[0]) then LeftStrip(s[1..]) else s
  }

  function RightStrip(s: string): string {
    if s != "" && IsSpace(s[|s| - 1]) then RightStrip(s[..|s| - 1]) else s
  }

  function Strip(s: string): string {
    RightStrip(LeftStrip(s))
  }

  /** What the search sees in a line: its tests on the stripped line, in their order. */
  function KindOf(line: Line): Kind {
    var stripped := Strip(line.text);
    if stripped == "[[package]]" then Header
    else if "name = " <= stripped then Name(stripped == "name = \"hol-guard\"")
    else if "version = " <= stripped then Version
    else if "source = " <= stripped then Source(stripped == "source = { editable = \".\" }")
    else Other
  }

  function Kinds(lines: seq<Line>): (r: seq<Kind>)
    ensures |r| == |lines| && forall i :: 0 <= i < |lines| ==> r[i] == KindOf(lines[i])
  {
    seq(|lines|, i requires 0 <= i < |lines| => KindOf(lines[i]))
  }

  datatype Scan = Scan(inBlock: bool, ours: bool, editable: bool, version: Option<nat>)

  predicate Complete(s: Scan) {
    s.inBlock && s.ours && s.editable && s.version.Some?
  }

  function Advance(s: Scan, kind: Kind, index: nat): Scan {
    match kind
    case Header => Scan(true, false, false, None)
    case Other => s
    case Name(ours) => if s.inBlock then s.(ours := ours) else s
    case Version => if s.inBlock && s.version.None? then s.(version := Some(index)) else s
    case Source(editable) => if s.inBlock then s.(editable := editable) else s
  }

  function FindFrom(kinds: seq<Kind>, i: nat, s: Scan): (r: Option<nat>)
    requires i <= |kinds| && (s.version.Some? ==> s.version.value < |kinds|)
    ensures r.Some? ==> r.value < |kinds|
    decreases |kinds| - i
  {
    if i == |kinds| then if Complete(s) then s.version else None
    else if kinds[i].Header? && Complete(s) then s.version
    else FindFrom(kinds, i + 1, Advance(s, kinds[i], i))
  }

  const START := Scan(false, false, false, None)

  function Find(kinds: seq<Kind>): (r: Option<nat>)
    ensures r.Some? ==> r.value < |kinds|
  {
    FindFrom(kinds, 0, START)
  }

  /** `_find_lockfile_version_index`; `None` when it raises. */
  method FindLockfileVersionIndex(lines: seq<Line>) returns (r: Option<nat>)
    ensures r == Find(Kinds(lines))
  {
    ghost var kinds := Kinds(lines);
    var inBlock, ours, editable, version: Option<nat> := false, false, false, None;
    for i := 0 to |lines|
      invariant version.Some? ==> version.value < i
      invariant Find(kinds) == FindFrom(kinds, i, Scan(inBlock, ours, editable, version))
    {
      var kind := KindOf(lines[i]);
      assert kinds[i] == kind;
      if kind.Header? {
        if inBlock && ours && editable && version.Some? {
          return version;
        }
        inBlock, ours, editable, version := true, false, false, None;
        continue;
      }
      if !inBlock {
        continue;
      }
      if kind.Name? {
        ours := kind.ours;
        continue;
      }
      if kind.Version? && version.None? {
        version := Some(i);
        continue;
      }
      if kind.Source? {
        editable := kind.editable;
      }
    }
    if inBlock && ours && editable && version.Some? {
      return version;
    }
    return None;
  }

  // ---- What the search finds ---------------------------------------------------------------------------

  /** A block: from a header up to the next one or the end. */
  ghost predicate IsBlock(kinds: seq<Kind>, start: nat, end: nat) {
    && start < end <= |kinds| && kinds[start].Header?
    && (forall i :: start < i < end ==> !kinds[i].Header?)
    && (end < |kinds| ==> kinds[end].Header?)
  }

  /** The first version line of a stretch. */
  ghost predicate FirstVersion(kinds: seq<Kind>, start: nat, end: nat, k: nat) {
    && end <= |kinds| && start < k < end && kinds[k].Version?
    && forall i :: start < i < k ==> !kinds[i].Version?
  }

  /** The last name line of a stretch is ours. */
  ghost predicate Ours(kinds: seq<Kind>, start: nat, end: nat)
    requires end <= |kinds|
  {
    exists j :: start < j < end && kinds[j] == Name(true) && forall i :: j < i < end ==> !kinds[i].Name?
  }

  /** The last source line of a stretch is the editable one. */
  ghost predicate Editable(kinds: seq<Kind>, start: nat, end: nat)
    requires end <= |kinds|
  {
    exists j :: start < j < end && kinds[j] == Source(true) && forall i :: j < i < end ==> !kinds[i].Source?
  }

  ghost predicate Qualifies(kinds: seq<Kind>, start: nat, end: nat, k: nat) {
    IsBlock(kinds, start, end) && FirstVersion(kinds, start, end, k) && Ours(kinds, start, end)
      && Editable(kinds, start, end)
  }

  /** The first block from `from` on that qualifies. */
  ghost predicate FirstQualifying(kinds: seq<Kind>, from: nat, start: nat, end: nat, k: nat) {
    && from <= start && Qualifies(kinds, start, end, k)
    && forall s, e, v :: from <= s < start ==> !Qualifies(kinds, s, e, v)
  }

  /** The scan's state after the lines `start + 1 .. i` of a block. */
  ghost predicate Describes(kinds: seq<Kind>, start: nat, i: nat, s: Scan) {
    && start < i <= |kinds| && kinds[start].Header? && (forall j :: start < j < i ==> !kinds[j].Header?)
    && s.inBlock && (s.ours <==> Ours(kinds, start, i)) && (s.editable <==> Editable(kinds, start, i))
    && (s.version.Some? ==> FirstVersion(kinds, start, i, s.version.value))
    && (s.version.None? ==> forall j :: start < j < i ==> !kinds[j].Version?)
  }

  lemma {:induction false} OursSteps(kinds: seq<Kind>, start: nat, i: nat)
    requires start < i < |kinds|
    ensures Ours(kinds, start, i + 1) <==> if kinds[i].Name? then kinds[i].ours else Ours(kinds, start, i)
  {
    if kinds[i].Name? {
      if kinds[i].ours {
        assert kinds[i] == Name(true);
      }
    } else if Ours(kinds, start, i) {
      var j :| start < j < i && kinds[j] == Name(true) && forall i' :: j < i' < i ==> !kinds[i'].Name?;
      assert kinds[j] == Name(true) && forall i' :: j < i' < i + 1 ==> !kinds[i'].Name?;
    }
  }

  lemma {:induction false} EditableSteps(kinds: seq<Kind>, start: nat, i: nat)
    requires start < i < |kinds|
    ensures Editable(kinds, start, i + 1) <==> if kinds[i].Source? then kinds[i].editable else Editable(kinds, start, i)
  {
    if kinds[i].Source? {
      if kinds[i].editable {
        assert kinds[i] == Source(true);
      }
    } else if Editable(kinds, start, i) {
      var j :| start < j < i && kinds[j] == Source(true) && forall i' :: j < i' < i ==> !kinds[i'].Source?;
      assert kinds[j] == Source(true) && forall i' :: j < i' < i + 1 ==> !kinds[i'].Source?;
    }
  }

  lemma {:induction false} DescribesSteps(kinds: seq<Kind>, start: nat, i: nat, s: Scan)
    requires i < |kinds| && Describes(kinds, start, i, s) && !kinds[i].Header?
    ensures Describes(kinds, start, i + 1, Advance(s, kinds[i], i))
  {
    OursSteps(kinds, start, i);
    EditableSteps(kinds, start, i);
  }

  lemma {:induction false} OneEnd(kinds: seq<Kind>, start: nat, e: nat, i: nat)
    requires IsBlock(kinds, start, e) && IsBlock(kinds, start, i)
    ensures e == i
  {
  }

  /** The block that ends here qualifies exactly when the state is complete. */
  lemma {:induction false} BlockEnds(kinds: seq<Kind>, start: nat, i: nat, s: Scan)
    requires Describes(kinds, start, i, s) && (i < |kinds| ==> kinds[i].Header?)
    ensures Complete(s) ==> Qualifies(kinds, start, i, s.version.value)
    ensures !Complete(s) ==> forall e, v :: !Qualifies(kinds, start, e, v)
  {
    forall e: nat, v: nat | Qualifies(kinds, start, e, v) ensures Complete(s) {
      OneEnd(kinds, start, e, i);
    }
  }

  lemma {:induction false} FindInBlocks(kinds: seq<Kind>, start: nat, i: nat, s: Scan, k: nat)
    requires Describes(kinds, start, i, s)
    ensures FindFrom(kinds, i, s) == Some(k) ==> exists b, e :: FirstQualifying(kinds, start, b, e, k)
    ensures FindFrom(kinds, i, s) == None ==> forall b, e, v :: start <= b ==> !Qualifies(kinds, b, e, v)
    decreases |kinds| - i
  {
    if i == |kinds| || kinds[i].Header? {
      BlockEnds(kinds, start, i, s);
      if Complete(s) {
        assert FirstQualifying(kinds, start, start, i, s.version.value);
      } else if i < |kinds| {
        assert Describes(kinds, i, i + 1, Advance(s, kinds[i], i));
        FindInBlocks(kinds, i, i + 1, Advance(s, kinds[i], i), k);
        OnlyHeadersStart(kinds, start, i);
        if FindFrom(kinds, i, s) == Some(k) {
          var b, e :| FirstQualifying(kinds, i, b, e, k);
          assert FirstQualifying(kinds, start, b, e, k);
        }
      } else {
        OnlyHeadersStart(kinds, start, i);
      }
    } else {
      DescribesSteps(kinds, start, i, s);
      FindInBlocks(kinds, start, i + 1, Advance(s, kinds[i], i), k);
    }
  }

  lemma {:induction false} OnlyHeadersStart(kinds: seq<Kind>, start: nat, i: nat)
    requires i <= |kinds| && forall j :: start < j < i ==> !kinds[j].Header?
    ensures forall b, e, v :: start < b && (b < i || i == |kinds|) ==> !Qualifies(kinds, b, e, v)
  {
  }

  lemma {:induction false} FindBeforeBlocks(kinds: seq<Kind>, i: nat, k: nat)
    requires i <= |kinds| && forall j :: 0 <= j < i ==> !kinds[j].Header?
    ensures FindFrom(kinds, i, START) == Some(k) ==> exists b, e :: FirstQualifying(kinds, 0, b, e, k)
    ensures FindFrom(kinds, i, START) == None ==> forall b, e, v :: !Qualifies(kinds, b, e, v)
    decreases |kinds| - i
  {
    if i < |kinds| {
      if kinds[i].Header? {
        FindInBlocks(kinds, i, i + 1, Advance(START, kinds[i], i), k);
        if FindFrom(kinds, i, START) == Some(k) {
          var b, e :| FirstQualifying(kinds, i, b, e, k);
          assert FirstQualifying(kinds, 0, b, e, k);
        }
      } else {
        FindBeforeBlocks(kinds, i + 1, k);
      }
    }
  }

  /** Main result on the search: it finds the first version line of the first package block whose last
      name line is ours and whose last source line is the editable one, and fails only without one. */
  lemma {:induction false} FindsTheVersionLine(kinds: seq<Kind>, k: nat)
    ensures Find(kinds) == Some(k) <==> exists b, e :: FirstQualifying(kinds, 0, b, e, k)
    ensures Find(kinds) == None <==> forall b, e, v :: !Qualifies(kinds, b, e, v)
  {
    FindBeforeBlocks(kinds, 0, k);
    if Find(kinds).Some? {
      var v := Find(kinds).value;
      FindBeforeBlocks(kinds, 0, v);
      var b, e :| FirstQualifying(kinds, 0, b, e, v);
      forall b', e' | FirstQualifying(kinds, 0, b', e', k) ensures k == v {
        OneBlock(kinds, b, e, v, b', e', k);
      }
    }
  }

  lemma {:induction false} OneBlock(kinds: seq<Kind>, b: nat, e: nat, v: nat, b': nat, e': nat, v': nat)
    requires FirstQualifying(kinds, 0, b, e, v) && FirstQualifying(kinds, 0, b', e', v')
    ensures v == v'
  {
    assert b == b';
  }

  // ---- The version line ----------------------------------------------------------------------------------

  /** The pattern's prefix: `version`, `=` and an opening quote, with white space before and between. */
  predicate IsPrefix(p: string) {
    var a := LeftStrip(p);
    "version" <= a &&
    var b := LeftStrip(a[7..]);
    "=" <= b &&
    var c := LeftStrip(b[1..]);
    |c| == 1 && IsQuote(c[0])
  }

  predicate AllSpace(s: string) {
    LeftStrip(s) == ""
  }

  /** The pattern's suffix: a closing quote, then white space or a comment set off by white space. */
  predicate IsSuffix(s: string) {
    s != "" && IsQuote(s[0]) &&
    var rest := s[1..];
    AllSpace(rest) || (IsSpace(rest[0]) && "#" <= LeftStrip(rest))
  }

  predicate QuoteFree(s: string) {
    forall i :: 0 <= i < |s| ==> !IsQuote(s[i])
  }

  datatype Match = Match(prefix: string, version: string, suffix: string)

  /** What the pattern means. */
  predicate Matches(body: string, m: Match) {
    body == m.prefix + m.version + m.suffix && IsPrefix(m.prefix) && m.version != "" && QuoteFree(m.version)
      && IsSuffix(m.suffix)
  }

  function UpToQuote(s: string): (n: nat)
    ensures n <= |s| && QuoteFree(s[..n]) && (n < |s| ==> IsQuote(s[n]))
  {
    if s == "" || IsQuote(s[0]) then 0 else 1 + UpToQuote(s[1..])
  }

  /** `pattern.match`. */
  function ParseLine(body: string): Option<Match> {
    var open := UpToQuote(body);
    if open == |body| then None
    else
      var length := UpToQuote(body[open + 1..]);
      var m := Match(body[..open + 1], body[open + 1..][..length], body[open + 1..][length..]);
      if Matches(body, m) then Some(m) else None
  }

  lemma {:induction false} LeftStripSplits(s: string) returns (n: nat)
    ensures n <= |s| && LeftStrip(s) == s[n..] && forall i :: 0 <= i < n ==> IsSpace(s[i])
  {
    n := 0;
    if s != "" && IsSpace(s[0]) {
      var m := LeftStripSplits(s[1..]);
      n := m + 1;
      assert s[1..][m..] == s[n..];
      assert forall i :: 0 < i < n ==> s[i] == s[1..][i - 1];
    }
  }

  predicate EndsAtQuote(s: string) {
    s != "" && IsQuote(s[|s| - 1]) && QuoteFree(s[..|s| - 1])
  }

  lemma {:induction false} EndsAtQuoteAfter(front: string, s: string)
    requires QuoteFree(front) && EndsAtQuote(s)
    ensures EndsAtQuote(front + s)
  {
    assert (front + s)[..|front + s| - 1] == front + s[..|s| - 1];
  }

  lemma {:induction false} EndsAtQuoteStripped(s: string)
    requires EndsAtQuote(LeftStrip(s))
    ensures EndsAtQuote(s)
  {
    var n := LeftStripSplits(s);
    EndsAtQuoteAfter(s[..n], s[n..]);
    assert s[..n] + s[n..] == s;
  }

  /** A prefix has one quote, its last character. */
  lemma {:induction false} PrefixEnds(p: string)
    requires IsPrefix(p)
    ensures EndsAtQuote(p)
  {
    var a := LeftStrip(p);
    var b := LeftStrip(a[7..]);
    EndsAtQuoteStripped(b[1..]);
    assert b == "=" + b[1..];
    EndsAtQuoteAfter("=", b[1..]);
    EndsAtQuoteStripped(a[7..]);
    assert a == "version" + a[7..];
    EndsAtQuoteAfter("version", a[7..]);
    EndsAtQuoteStripped(p);
  }

  lemma {:induction false} UpToQuoteIs(s: string, n: nat)
    requires n < |s| && QuoteFree(s[..n]) && IsQuote(s[n])
    ensures UpToQuote(s) == n
  {
    if n > 0 {
      assert s[0] == s[..n][0];
      assert s[1..][..n - 1] == s[..n][1..];
      UpToQuoteIs(s[1..], n - 1);
    }
  }

  lemma {:induction false} QuoteEnds(front: string, rest: string, n: nat)
    requires n < |front| && QuoteFree(front[..n]) && IsQuote(front[n])
    ensures UpToQuote(front + rest) == n
  {
    assert (front + rest)[..n] == front[..n];
    UpToQuoteIs(front + rest, n);
  }

  /** Where the two quotes of a text stand decides how it can be read. */
  lemma {:induction false} QuotesAt(p: string, v: string, s: string)
    requires EndsAtQuote(p) && QuoteFree(v) && s != "" && IsQuote(s[0])
    ensures UpToQuote(p + v + s) == |p| - 1
    ensures (p + v + s)[|p|..] == v + s && UpToQuote(v + s) == |v|
  {
    Assoc(p, v, s);
    QuoteEnds(p, v + s, |p| - 1);
    assert (v + s)[..|v|] == v;
    UpToQuoteIs(v + s, |v|);
  }

  lemma {:induction false} PartsOf(p: string, v: string, s: string)
    ensures (p + v + s)[..|p|] == p && (p + v + s)[|p|..] == v + s && (v + s)[..|v|] == v && (v + s)[|v|..] == s
  {
  }

  /** Every way of matching is the one that `ParseLine` finds. */
  lemma {:induction false} ParsesMatches(body: string, m: Match)
    ensures Matches(body, m) <==> ParseLine(body) == Some(m)
  {
    if Matches(body, m) {
      PrefixEnds(m.prefix);
      QuotesAt(m.prefix, m.version, m.suffix);
      PartsOf(m.prefix, m.version, m.suffix);
    }
  }

  /** `rstrip("\r\n")`. */
  function Body(s: string): (r: string)
    ensures r <= s && (r != "" ==> r[|r| - 1] != '\r' && r[|r| - 1] != '\n')
  {
    if s != "" && (s[|s| - 1] == '\r' || s[|s| - 1] == '\n') then Body(s[..|s| - 1]) else s
  }

  /** `_replace_matching_line`. */
  function ReplaceMatchingLine(line: Line, version: string): Line {
    Rewritten(line, ParseLine(Body(line.text)), version)
  }

  function Rewritten(line: Line, found: Option<Match>, version: string): Line {
    match found
    case None => line
    case Some(m) => Line(m.prefix + version + m.suffix + Ending(line))
  }

  function Ending(line: Line): string {
    line.text[|Body(line.text)|..]
  }

  lemma {:induction false} BodyIs(front: string, ending: string)
    requires front != "" && front[|front| - 1] != '\r' && front[|front| - 1] != '\n'
    requires forall i :: 0 <= i < |ending| ==> ending[i] == '\r' || ending[i] == '\n'
    ensures Body(front + ending) == front
  {
    if ending == "" {
      assert front + ending == front;
    } else {
      assert (front + ending)[..|front + ending| - 1] == front + ending[..|ending| - 1];
      BodyIs(front, ending[..|ending| - 1]);
    }
  }

  lemma {:induction false} EndingIs(s: string)
    ensures forall i :: |Body(s)| <= i < |s| ==> s[i] == '\r' || s[i] == '\n'
  {
    if s != "" && (s[|s| - 1] == '\r' || s[|s| - 1] == '\n') {
      EndingIs(s[..|s| - 1]);
    }
  }

  /** A token that can stand between the quotes on one line. */
  predicate IsToken(version: string) {
    version != "" && QuoteFree(version) && BreakFree(version)
  }

  lemma {:induction false} LeftStripAppend(s: string, rest: string)
    requires s != "" && !IsSpace(s[|s| - 1])
    ensures LeftStrip(s + rest) == LeftStrip(s) + rest
    ensures LeftStrip(s) != "" && LeftStrip(s)[|LeftStrip(s)| - 1] == s[|s| - 1]
  {
    if IsSpace(s[0]) {
      assert (s + rest)[1..] == s[1..] + rest;
      LeftStripAppend(s[1..], rest);
    }
  }

  lemma {:induction false} RightStripKeeps(s: string, rest: string)
    requires s != "" && !IsSpace(s[|s| - 1])
    ensures s <= RightStrip(s + rest)
  {
    if rest == "" {
      assert s + rest == s;
    } else {
      assert (s + rest)[..|s + rest| - 1] == s + rest[..|rest| - 1];
      RightStripKeeps(s, rest[..|rest| - 1]);
    }
  }

  lemma {:induction false} StripKeeps(p: string, rest: string)
    requires p != "" && IsQuote(p[|p| - 1])
    ensures LeftStrip(p) <= Strip(p + rest)
    ensures LeftStrip(p) != "" && IsQuote(LeftStrip(p)[|LeftStrip(p)| - 1])
  {
    LeftStripAppend(p, rest);
    RightStripKeeps(LeftStrip(p), rest);
  }

  lemma {:induction false} LongerPrefix(short: string, long: string, s: string)
    requires QuoteFree(short) && long != "" && IsQuote(long[|long| - 1]) && short <= s && long <= s
    ensures short <= long
  {
    assert s[|long| - 1] == long[|long| - 1];
  }

  /** What follows the opening quote does not decide whether a line is a version line. */
  lemma {:induction false} VersionLineStays(p: string, rest: string, other: string)
    requires IsPrefix(p) && KindOf(Line(p + rest)) == Version
    ensures KindOf(Line(p + other)) == Version
  {
    PrefixEnds(p);
    StripKeeps(p, rest);
    StripKeeps(p, other);
    LongerPrefix("version = ", LeftStrip(p), Strip(p + rest));
    assert "version = " <= Strip(p + other);
    assert Strip(p + other)[0] == 'v';
  }

  function Assembled(p: string, v: string, s: string, e: string): string {
    p + v + s + e
  }

  lemma {:induction false} AssembledGroups(p: string, v: string, s: string, e: string)
    ensures Assembled(p, v, s, e) == p + (v + (s + e)) == (p + v) + (s + e) == (p + v + s) + e
  {
    Regroup(p, v, s, e);
    Assoc(p, v, s + e);
  }

  /** The line and its replacement, in parts. */
  lemma {:induction false} InParts(line: Line, m: Match, version: string)
    requires Matches(Body(line.text), m)
    ensures line.text == Assembled(m.prefix, m.version, m.suffix, Ending(line))
    ensures Rewritten(line, Some(m), version).text == Assembled(m.prefix, version, m.suffix, Ending(line))
  {
    BodyAndEnding(line);
  }

  lemma {:induction false} BodyAndEnding(line: Line)
    ensures line.text == Body(line.text) + Ending(line)
  {
  }

  predicate IsNewline(c: char) {
    c == '\r' || c == '\n'
  }

  lemma {:induction false} InPartsEnds(line: Line, m: Match)
    requires Matches(Body(line.text), m)
    ensures forall i :: 0 <= i < |Ending(line)| ==> IsNewline(Ending(line)[i])
    ensures m.suffix != "" && !IsNewline(m.suffix[|m.suffix| - 1])
  {
    EndingIs(line.text);
    LastOf(m.prefix + m.version, m.suffix);
  }

  lemma {:induction false} LastOf(a: string, b: string)
    requires b != ""
    ensures a + b != "" && (a + b)[|a + b| - 1] == b[|b| - 1]
  {
  }

  lemma {:induction false} AssembledParses(p: string, v: string, s: string, e: string)
    requires IsPrefix(p) && v != "" && QuoteFree(v) && IsSuffix(s) && !IsNewline(s[|s| - 1])
    requires forall i :: 0 <= i < |e| ==> IsNewline(e[i])
    ensures Body(Assembled(p, v, s, e)) == p + v + s
    ensures ParseLine(p + v + s) == Some(Match(p, v, s))
    ensures Ending(Line(Assembled(p, v, s, e))) == e
  {
    var front := p + v + s;
    LastOf(p + v, s);
    BodyIs(front, e);
    ParsesMatches(front, Match(p, v, s));
    assert (front + e)[|front|..] == e;
  }

  /** The replaced line parses to the same prefix, suffix and ending, and to the new version. */
  lemma {:induction false} ReplacedLineParses(line: Line, m: Match, version: string)
    requires Matches(Body(line.text), m) && IsToken(version)
    ensures var next := Rewritten(line, Some(m), version);
            ParseLine(Body(next.text)) == Some(Match(m.prefix, version, m.suffix)) && Ending(next) == Ending(line)
  {
    InParts(line, m, version);
    InPartsEnds(line, m);
    AssembledParses(m.prefix, version, m.suffix, Ending(line));
  }

  lemma {:induction false} ReplacedLineKind(line: Line, m: Match, version: string)
    requires Matches(Body(line.text), m) && KindOf(line) == Version
    ensures KindOf(Rewritten(line, Some(m), version)) == Version
  {
    InParts(line, m, version);
    AssembledGroups(m.prefix, m.version, m.suffix, Ending(line));
    AssembledGroups(m.prefix, version, m.suffix, Ending(line));
    VersionLineStays(m.prefix, m.version + (m.suffix + Ending(line)), version + (m.suffix + Ending(line)));
  }

  /** A line break free middle does not move the end of the line. */
  lemma {:induction false} AssembledEnds(p: string, v: string, w: string, tail: string)
    requires EndsAtQuote(p) && tail != "" && IsQuote(tail[0])
    requires FirstLine((p + v) + tail) > |p + v| && BreakFree(w)
    ensures FirstLine((p + w) + tail) == |p + w| + FirstLine(tail)
    ensures FirstLine((p + v) + tail) == |p + v| + FirstLine(tail)
  {
    FirstLineBreakFree(p + v, tail);
    FirstLineSkips(p + v, tail);
    assert forall i :: 0 <= i < |p| ==> p[i] == (p + v)[i];
    FirstLineSkips(p + w, tail);
  }

  lemma {:induction false} ReplacedLineEnds(line: Line, m: Match, version: string, after: string)
    requires Matches(Body(line.text), m) && BreakFree(version)
    requires FirstLine(line.text + after) == |line.text|
    ensures var next := Rewritten(line, Some(m), version).text;
            next != "" && line.text != "" && next[0] == line.text[0] && FirstLine(next + after) == |next|
  {
    InParts(line, m, version);
    PrefixEnds(m.prefix);
    EndsMove(m.prefix, m.version, version, m.suffix, Ending(line), after);
  }

  lemma {:induction false} EndsMove(p: string, v: string, w: string, s: string, e: string, after: string)
    requires EndsAtQuote(p) && BreakFree(w) && s != "" && IsQuote(s[0])
    requires FirstLine(Assembled(p, v, s, e) + after) == |Assembled(p, v, s, e)|
    ensures FirstLine(Assembled(p, w, s, e) + after) == |Assembled(p, w, s, e)|
    ensures Assembled(p, w, s, e) != "" && Assembled(p, v, s, e) != ""
            && Assembled(p, w, s, e)[0] == Assembled(p, v, s, e)[0]
  {
    var tail := (s + e) + after;
    AssembledGroups(p, v, s, e);
    AssembledGroups(p, w, s, e);
    Assoc(p + v, s + e, after);
    Assoc(p + w, s + e, after);
    AssembledEnds(p, v, w, tail);
  }

  // ---- Reading and replacing -------------------------------------------------------------------------------

  /** `_read_lockfile_version`; `None` when it raises. */
  method ReadLockfileVersion(text: string) returns (r: Option<string>)
    ensures r == ReadVersion(text)
  {
    var lines := Split(text);
    var found := FindLockfileVersionIndex(lines);
    if found.None? {
      return None;
    }
    var m := ParseLine(Body(lines[found.value].text));
    if m.None? {
      return None;
    }
    return Some(m.value.version);
  }

  function VersionIndex(text: string): (r: Option<nat>)
    ensures r.Some? ==> r.value < |Split(text)|
  {
    Find(Kinds(Split(text)))
  }

  function ReadVersion(text: string): Option<string> {
    match VersionIndex(text)
    case None => None
    case Some(k) => match ParseLine(Body(Split(text)[k].text)) case None => None case Some(m) => Some(m.version)
  }

  function ReplaceVersion(text: string, version: string): Option<(string, bool)> {
    match VersionIndex(text)
    case None => None
    case Some(k) =>
      var line := Split(text)[k];
      var next := ReplaceMatchingLine(line, version);
      if next == line then Some((text, false)) else Some((Join(Split(text)[k := next]), true))
  }

  /** `_replace_lockfile_version`; `None` when it raises. */
  method ReplaceLockfileVersion(text: string, version: string) returns (r: Option<(string, bool)>)
    ensures r == ReplaceVersion(text, version)
  {
    JoinSplit(text);
    var lines := Split(text);
    var found := FindLockfileVersionIndex(lines);
    if found.None? {
      return None;
    }
    var replaced := ReplaceMatchingLine(lines[found.value], version);
    if replaced == lines[found.value] {
      return Some((Join(lines), false));
    }
    lines := lines[found.value := replaced];
    return Some((Join(lines), true));
  }

  lemma {:induction false} FoundIsVersion(kinds: seq<Kind>)
    requires Find(kinds).Some?
    ensures kinds[Find(kinds).value] == Version
  {
    var k := Find(kinds).value;
    FindsTheVersionLine(kinds, k);
    var b, e :| FirstQualifying(kinds, 0, b, e, k);
    assert FirstVersion(kinds, b, e, k);
  }

  lemma {:induction false} SeparateAt(lines: seq<Line>, k: nat)
    requires Separate(lines) && k < |lines|
    ensures lines[k].text != "" && FirstLine(lines[k].text + Join(lines[k + 1..])) == |lines[k].text|
  {
    if k > 0 {
      assert lines[1..][k - 1 + 1..] == lines[k + 1..];
      SeparateAt(lines[1..], k - 1);
    }
  }

  lemma {:induction false} SameKinds(lines: seq<Line>, k: nat, line: Line)
    requires k < |lines| && KindOf(line) == KindOf(lines[k])
    ensures Kinds(lines[k := line]) == Kinds(lines)
  {
  }

  /** Putting the replaced line in keeps the lines and what the search sees of them. */
  lemma {:induction false} ReplacedLines(lines: seq<Line>, k: nat, m: Match, version: string)
    requires Separate(lines) && Find(Kinds(lines)) == Some(k) && IsToken(version)
    requires Matches(Body(lines[k].text), m)
    ensures var next := lines[k := Rewritten(lines[k], Some(m), version)];
            Split(Join(next)) == next && Find(Kinds(next)) == Some(k)
  {
    var line := Rewritten(lines[k], Some(m), version);
    SeparateAt(lines, k);
    ReplacedLineEnds(lines[k], m, version, Join(lines[k + 1..]));
    SeparateReplaced(lines, k, line.text);
    SplitJoin(lines[k := line]);
    FoundIsVersion(Kinds(lines));
    ReplacedLineKind(lines[k], m, version);
    SameKinds(lines, k, line);
  }

  lemma {:induction false} ReplacedLineSame(line: Line, m: Match, version: string)
    requires Matches(Body(line.text), m)
    ensures Rewritten(line, Some(m), version) == line <==> version == m.version
  {
    InParts(line, m, version);
    AssembledGroups(m.prefix, version, m.suffix, Ending(line));
    AssembledGroups(m.prefix, m.version, m.suffix, Ending(line));
    SameMiddle(m.prefix, version, m.version, m.suffix + Ending(line));
  }

  ghost function ReadMatch(text: string): Match
    requires ReadVersion(text).Some?
  {
    ParseLine(Body(Split(text)[VersionIndex(text).value].text)).value
  }

  lemma {:induction false} ReadMatches(text: string)
    requires ReadVersion(text).Some?
    ensures var m, line := ReadMatch(text), Split(text)[VersionIndex(text).value];
            ParseLine(Body(line.text)) == Some(m) && Matches(Body(line.text), m) && ReadVersion(text) == Some(m.version)
  {
  }

  lemma {:induction false} ReplaceVersionIs(text: string, k: nat, m: Match, version: string)
    requires VersionIndex(text) == Some(k) && ParseLine(Body(Split(text)[k].text)) == Some(m)
    ensures var line := Rewritten(Split(text)[k], Some(m), version);
            ReplaceVersion(text, version) == Some(Outcome(text, Split(text), k, line))
  {
  }

  lemma {:induction false} ReplacedText(text: string, k: nat, m: Match, version: string)
    requires VersionIndex(text) == Some(k) && Matches(Body(Split(text)[k].text), m) && IsToken(version)
    ensures var next := Split(text)[k := Rewritten(Split(text)[k], Some(m), version)];
            Split(Join(next)) == next && VersionIndex(Join(next)) == Some(k)
  {
    SplitSeparates(text);
    ReplacedLines(Split(text), k, m, version);
  }

  function Outcome(text: string, lines: seq<Line>, k: nat, line: Line): (string, bool)
    requires k < |lines|
  {
    if line == lines[k] then (text, false) else (Join(lines[k := line]), true)
  }

  lemma {:induction false} OutcomeLines(text: string, lines: seq<Line>, k: nat, line: Line)
    requires lines == Split(text) && VersionIndex(text) == Some(k)
    requires Split(Join(lines[k := line])) == lines[k := line] && VersionIndex(Join(lines[k := line])) == Some(k)
    ensures var (next, changed) := Outcome(text, lines, k, line);
            Split(next) == lines[k := line] && VersionIndex(next) == Some(k) && (changed <==> line != lines[k])
  {
    if line == lines[k] {
      assert lines[k := line] == lines;
    }
  }

  lemma {:induction false} ReadsAs(text: string, k: nat, m: Match)
    requires VersionIndex(text) == Some(k) && ParseLine(Body(Split(text)[k].text)) == Some(m)
    ensures ReadVersion(text) == Some(m.version)
  {
  }

  /** Main result: where a version can be read, putting a token in its place changes that line only, and
      in it the version only; the same line is found again and reads as the token; and the change flag
      says whether the version was a different one. */
  lemma {:induction false} RewriteChangesTheVersion(text: string, version: string, next: string, changed: bool)
    requires ReadVersion(text).Some? && IsToken(version)
    requires ReplaceVersion(text, version) == Some((next, changed))
    ensures var k, m := VersionIndex(text).value, ReadMatch(text);
            Split(next) == Split(text)[k := Line(Assembled(m.prefix, version, m.suffix, Ending(Split(text)[k])))]
    ensures VersionIndex(next) == VersionIndex(text) && ReadVersion(next) == Some(version)
    ensures changed <==> ReadVersion(text) != Some(version)
    ensures !changed ==> next == text
  {
    var k, m := VersionIndex(text).value, ReadMatch(text);
    ReadMatches(text);
    ReplaceVersionIs(text, k, m, version);
    RewriteOf(text, k, m, version, next, changed);
  }

  lemma {:induction false} RewriteOf(text: string, k: nat, m: Match, version: string, next: string, changed: bool)
    requires VersionIndex(text) == Some(k) && Matches(Body(Split(text)[k].text), m) && IsToken(version)
    requires (next, changed) == Outcome(text, Split(text), k, Rewritten(Split(text)[k], Some(m), version))
    ensures Split(next) == Split(text)[k := Line(Assembled(m.prefix, version, m.suffix, Ending(Split(text)[k])))]
    ensures VersionIndex(next) == Some(k) && ReadVersion(next) == Some(version)
    ensures changed <==> version != m.version
    ensures !changed ==> next == text
  {
    var before := Split(text)[k];
    var line := Rewritten(before, Some(m), version);
    ReplacedText(text, k, m, version);
    OutcomeLines(text, Split(text), k, line);
    InParts(before, m, version);
    ReplacedLineParses(before, m, version);
    ReplacedLineSame(before, m, version);
    ReadsAs(next, k, Match(m.prefix, version, m.suffix));
  }

  lemma {:induction false} SameMiddle(a: string, b: string, c: string, d: string)
    ensures a + b + d == a + c + d <==> b == c
  {
    if a + b + d == a + c + d {
      assert b == (a + b + d)[|a|..|a| + |b|];
      assert c == (a + c + d)[|a|..|a| + |c|];
    }
  }

  /** Where it cannot be read the text stays, or the search fails. */
  lemma {:induction false} UnreadableStays(text: string, version: string)
    requires ReadVersion(text).None?
    ensures ReplaceVersion(text, version) == if VersionIndex(text).None? then None else Some((text, false))
  {
  }

  /** A replacement is possible where the version can be read, and a second one reports no change. */
  lemma {:induction false} SecondRewriteChangesNothing(text: string, version: string, next: string, changed: bool)
    requires ReadVersion(text).Some? && IsToken(version)
    ensures ReplaceVersion(text, version).Some?
    ensures ReplaceVersion(text, version) == Some((next, changed)) ==>
            ReplaceVersion(next, version) == Some((next, false))
  {
    if ReplaceVersion(text, version) == Some((next, changed)) {
      RewriteChangesTheVersion(text, version, next, changed);
      var (last, again) := ReplaceVersion(next, version).value;
      RewriteChangesTheVersion(next, version, last, again);
    }
  }
}
