/** The retry decision that is taken from another process's error text: substring tests on a
    rendered message, compared with the classification of the digest maps it was rendered from. */
module PublishedRetry {
  import opened Options
  import opened Publication
  import opened Sequences

  // ---- Substrings ------------------------------------------------------------------------------

  ghost predicate OccursAt(text: string, p: string, i: int) {
    0 <= i && i + |p| <= |text| && text[i..i + |p|] == p
  }

  ghost predicate Contains(text: string, p: string) {
    exists i :: OccursAt(text, p, i)
  }

  lemma {:induction false} OccursLeft(a: string, b: string, p: string, i: nat)
    requires i + |p| <= |a|
    ensures OccursAt(a + b, p, i) <==> OccursAt(a, p, i)
  {
    assert (a + b)[i..i + |p|] == a[i..i + |p|];
  }

  lemma {:induction false} OccursRight(a: string, b: string, p: string, i: nat)
    requires i + |p| <= |b|
    ensures OccursAt(a + b, p, |a| + i) <==> OccursAt(b, p, i)
  {
    assert (a + b)[|a| + i..|a| + i + |p|] == b[i..i + |p|];
  }

  /** A character that the pattern does not use splits the search. */
  lemma {:induction false} SplitAt(a: string, c: char, b: string, p: string)
    requires c !in p && p != []
    ensures Contains(a + [c] + b, p) <==> Contains(a, p) || Contains(b, p)
  {
    var text := a + [c] + b;
    Assoc(a, [c], b);
    if i :| OccursAt(text, p, i) {
      if i + |p| <= |a| {
        OccursLeft(a, [c] + b, p, i);
      } else if i > |a| {
        OccursRight(a + [c], b, p, i - |a| - 1);
      } else {
        OverlapUses(text, p, i, |a|);
      }
    }
    if i :| OccursAt(a, p, i) {
      OccursLeft(a, [c] + b, p, i);
    }
    if i :| OccursAt(b, p, i) {
      OccursRight(a + [c], b, p, i);
    }
  }

  lemma {:induction false} OverlapUses(text: string, p: string, i: nat, k: nat)
    requires OccursAt(text, p, i) && i <= k < i + |p|
    ensures text[k] in p
  {
    assert text[i..i + |p|][k - i] == text[k];
  }

  lemma {:induction false} TooShort(text: string, p: string)
    requires |text| < |p|
    ensures !Contains(text, p)
  {
  }

  lemma {:induction false} ContainsItself(p: string)
    ensures Contains(p, p)
  {
    assert p[0..0 + |p|] == p;
    assert OccursAt(p, p, 0);
  }

  // ---- Rendering ----------------------------------------------------------------------------------

  /** Python's rendering of one name: a body between two equal quotes. */
  datatype Rendered = Rendered(quote: char, body: string)

  function HexDigit(n: nat): char
    requires n < 16
  {
    "0123456789abcdef"[n]
  }

  function Hex(n: nat, width: nat): string
    decreases width
  {
    if width == 0 then "" else Hex(n / 16, width - 1) + [HexDigit(n % 16)]
  }

  /** One character of a rendered name; `printable` decides beyond ASCII. */
  function Escape(c: char, quote: char, printable: char -> bool): string {
    if c == quote || c == '\\' then ['\\', c]
    else if c == '\n' then "\\n"
    else if c == '\r' then "\\r"
    else if c == '\t' then "\\t"
    else if ' ' <= c <= '~' || (c > '~' && c as int != 127 && printable(c)) then [c]
    else if c as int < 0x100 then "\\x" + Hex(c as int, 2)
    else if c as int < 0x1_0000 then "\\u" + Hex(c as int, 4)
    else "\\U" + Hex(c as int, 8)
  }

  function Escaped(text: string, escape: char -> string): string {
    if text == [] then "" else escape(text[0]) + Escaped(text[1..], escape)
  }

  function Body(text: string, quote: char, printable: char -> bool): string {
    Escaped(text, c => Escape(c, quote, printable))
  }

  /** `repr`: single quotes, unless the name has one and no double quote. */
  function Repr(name: FileName, printable: char -> bool): Rendered {
    var quote := if '\'' in name.text && '"' !in name.text then '"' else '\'';
    Rendered(quote, Body(name.text, quote, printable))
  }

  function Reprs(names: seq<FileName>, printable: char -> bool): (r: seq<Rendered>)
    ensures |r| == |names| && forall i :: 0 <= i < |names| ==> r[i] == Repr(names[i], printable)
  {
    if names == [] then [] else [Repr(names[0], printable)] + Reprs(names[1..], printable)
  }

  lemma {:induction false} EscapedJoin(a: string, b: string, escape: char -> string)
    ensures Escaped(a + b, escape) == Escaped(a, escape) + Escaped(b, escape)
  {
    if a == [] {
      assert a + b == b;
    } else {
      assert (a + b)[1..] == a[1..] + b;
      EscapedJoin(a[1..], b, escape);
      Assoc(escape(a[0]), Escaped(a[1..], escape), Escaped(b, escape));
    }
  }

  /** Characters that are rendered as themselves. */
  predicate Verbatim(text: string) {
    forall i :: 0 <= i < |text| ==> ' ' <= text[i] <= '~' && text[i] != '\\' && text[i] != '\'' && text[i] != '"'
  }

  lemma {:induction false} EscapedVerbatim(text: string, escape: char -> string)
    requires forall i :: 0 <= i < |text| ==> escape(text[i]) == [text[i]]
    ensures Escaped(text, escape) == text
  {
    if text != [] {
      EscapedVerbatim(text[1..], escape);
      assert text == [text[0]] + text[1..];
    }
  }

  /** Rendering adds no equals sign: escapes are a backslash, letters, digits and quotes. */
  lemma {:induction false} HexHasNoEquals(n: nat, width: nat)
    ensures '=' !in Hex(n, width)
    decreases width
  {
    if width > 0 {
      HexHasNoEquals(n / 16, width - 1);
      assert HexDigit(n % 16) != '=';
    }
  }

  lemma {:induction false} EscapeAddsNoEquals(c: char, quote: char, printable: char -> bool)
    requires c != '=' && IsQuote(quote)
    ensures '=' !in Escape(c, quote, printable)
  {
    HexHasNoEquals(c as int, 2);
    HexHasNoEquals(c as int, 4);
    HexHasNoEquals(c as int, 8);
  }

  lemma {:induction false} EscapedAddsNoEquals(text: string, escape: char -> string)
    requires forall i :: 0 <= i < |text| ==> '=' !in escape(text[i])
    ensures '=' !in Escaped(text, escape)
  {
    if text != [] {
      EscapedAddsNoEquals(text[1..], escape);
    }
  }

  lemma {:induction false} BodyAddsNoEquals(text: string, quote: char, printable: char -> bool)
    requires '=' !in text && IsQuote(quote)
    ensures '=' !in Body(text, quote, printable)
  {
    var escape := c => Escape(c, quote, printable);
    forall i | 0 <= i < |text| ensures '=' !in escape(text[i]) {
      EscapeAddsNoEquals(text[i], quote, printable);
    }
    EscapedAddsNoEquals(text, escape);
  }

  predicate IsQuote(c: char) {
    c == '\'' || c == '"'
  }

  function Items(names: seq<Rendered>): string {
    if names == [] then ""
    else
      [names[0].quote] + names[0].body + [names[0].quote]
      + (if |names| == 1 then "" else ", ") + Items(names[1..])
  }

  function RenderList(names: seq<Rendered>): string {
    "[" + Items(names) + "]"
  }

  function Entry(separator: string, key: string, names: seq<Rendered>): string {
    separator + key + RenderList(names)
  }

  /** The error line: `lead` is everything before the three lists. */
  function Stderr(lead: string, missing: seq<Rendered>, extra: seq<Rendered>, mismatched: seq<Rendered>): string {
    lead + Entry(" ", "missing=", missing) + Entry(", ", "extra=", extra) + Entry(", ", "mismatched=", mismatched)
      + "\n"
  }

  const MISSING := "missing="
  const NO_EXTRA := "extra=[]"
  const NO_MISMATCHED := "mismatched=[]"

  /** `is_retryable_incomplete_error`. */
  ghost predicate IsRetryableIncompleteError(stderr: string) {
    Contains(stderr, MISSING) && Contains(stderr, NO_EXTRA) && Contains(stderr, NO_MISMATCHED)
  }

  // ---- The message as words between separators ----------------------------------------------------

  /** Words, each after the separator that precedes it. */
  type Parts = seq<(char, string)>

  ghost function Weave(parts: Parts): string {
    if parts == [] then "" else [parts[0].0] + parts[0].1 + Weave(parts[1..])
  }

  ghost predicate AnyContains(parts: Parts, p: string) {
    parts != [] && (Contains(parts[0].1, p) || AnyContains(parts[1..], p))
  }

  ghost predicate SeparatedBy(parts: Parts, p: string) {
    forall i :: 0 <= i < |parts| ==> parts[i].0 !in p
  }

  lemma {:induction false} WeaveJoin(a: Parts, b: Parts)
    ensures Weave(a + b) == Weave(a) + Weave(b)
  {
    if a == [] {
      assert a + b == b;
    } else {
      assert (a + b)[1..] == a[1..] + b;
      WeaveJoin(a[1..], b);
      Assoc([a[0].0] + a[0].1, Weave(a[1..]), Weave(b));
    }
  }

  lemma {:induction false} AnyContainsJoin(a: Parts, b: Parts, p: string)
    ensures AnyContains(a + b, p) <==> AnyContains(a, p) || AnyContains(b, p)
  {
    if a == [] {
      assert a + b == b;
    } else {
      assert (a + b)[1..] == a[1..] + b;
      AnyContainsJoin(a[1..], b, p);
    }
  }

  /** A pattern free of separators occurs in a woven text exactly when it occurs in a word. */
  lemma {:induction false} SearchWords(first: string, parts: Parts, p: string)
    requires p != [] && SeparatedBy(parts, p)
    ensures Contains(first + Weave(parts), p) <==> Contains(first, p) || AnyContains(parts, p)
    decreases |parts|
  {
    if parts == [] {
      assert first + "" == first;
    } else {
      var (c, word) := parts[0];
      SplitAt(first, c, word + Weave(parts[1..]), p);
      Regrouped(first, [c], word, Weave(parts[1..]));
      SearchWords(word, parts[1..], p);
    }
  }

  lemma {:induction false} Regrouped(a: string, b: string, c: string, d: string)
    ensures a + (b + c + d) == a + b + (c + d)
  {
  }

  function ItemParts(names: seq<Rendered>): Parts {
    if names == [] then []
    else if |names| == 1 then [(names[0].quote, names[0].body), (names[0].quote, "]")]
    else [(names[0].quote, names[0].body), (names[0].quote, ""), (',', ""), (' ', "")] + ItemParts(names[1..])
  }

  /** The word that opens an entry, and the whole entry after a separator. */
  function Opening(key: string, names: seq<Rendered>): string {
    key + if names == [] then "[]" else "["
  }

  function EntryParts(separator: char, key: string, names: seq<Rendered>): Parts {
    [(separator, Opening(key, names))] + ItemParts(names)
  }

  lemma {:induction false} WeaveOne(c: char, word: string)
    ensures Weave([(c, word)]) == [c] + word
  {
    assert [(c, word)][1..] == [];
  }

  lemma {:induction false} WeaveTwo(c: char, word: string, d: char, last: string)
    ensures Weave([(c, word), (d, last)]) == [c] + word + ([d] + last)
  {
    WeaveOne(c, word);
    WeaveOne(d, last);
    WeaveJoin([(c, word)], [(d, last)]);
    assert [(c, word), (d, last)] == [(c, word)] + [(d, last)];
  }

  lemma {:induction false} WeaveItems(names: seq<Rendered>)
    requires names != []
    ensures Weave(ItemParts(names)) == Items(names) + "]"
  {
    var (q, body) := (names[0].quote, names[0].body);
    if |names| == 1 {
      WeaveTwo(q, body, q, "]");
      assert Items(names[1..]) == "";
      assert Items(names) + "]" == [q] + body + ([q] + "]");
    } else {
      var head: Parts := [(q, body), (q, "")] + [(',', ""), (' ', "")];
      WeaveItems(names[1..]);
      WeaveTwo(q, body, q, "");
      WeaveTwo(',', "", ' ', "");
      WeaveJoin([(q, body), (q, "")], [(',', ""), (' ', "")]);
      WeaveJoin(head, ItemParts(names[1..]));
      assert ItemParts(names) == head + ItemParts(names[1..]);
      assert Weave(head) == [q] + body + [q] + ", ";
      Assoc([q] + body + [q] + ", ", Items(names[1..]), "]");
    }
  }

  lemma {:induction false} Bracketed(a: string, b: string, open: string, c: string, close: string)
    ensures a + b + (open + c + close) == a + (b + open) + (c + close)
  {
  }

  lemma {:induction false} WeaveEntry(separator: char, key: string, names: seq<Rendered>)
    ensures Weave(EntryParts(separator, key, names)) == Entry([separator], key, names)
  {
    WeaveOne(separator, Opening(key, names));
    WeaveJoin([(separator, Opening(key, names))], ItemParts(names));
    if names != [] {
      WeaveItems(names);
      Bracketed([separator], key, "[", Items(names), "]");
    } else {
      assert "[" + Items(names) + "]" == "[]";
      Assoc([separator], key, "[]");
      assert Weave(ItemParts(names)) == "";
    }
  }

  function MessageParts(missing: seq<Rendered>, extra: seq<Rendered>, mismatched: seq<Rendered>): Parts {
    EntryParts(' ', "missing=", missing)
    + ([(',', "")] + EntryParts(' ', "extra=", extra))
    + ([(',', "")] + EntryParts(' ', "mismatched=", mismatched))
    + [('\n', "")]
  }

  lemma {:induction false} WeaveComma(key: string, names: seq<Rendered>)
    ensures Weave([(',', "")] + EntryParts(' ', key, names)) == Entry(", ", key, names)
  {
    WeaveOne(',', "");
    WeaveJoin([(',', "")], EntryParts(' ', key, names));
    WeaveEntry(' ', key, names);
    assert Entry(", ", key, names) == "," + Entry(" ", key, names);
  }

  lemma {:induction false} StderrIsWoven(lead: string, missing: seq<Rendered>, extra: seq<Rendered>,
      mismatched: seq<Rendered>)
    ensures Stderr(lead, missing, extra, mismatched) == lead + Weave(MessageParts(missing, extra, mismatched))
  {
    var a := EntryParts(' ', "missing=", missing);
    var b := [(',', "")] + EntryParts(' ', "extra=", extra);
    var c := [(',', "")] + EntryParts(' ', "mismatched=", mismatched);
    WeaveJoin(a + b + c, [('\n', "")]);
    WeaveJoin(a + b, c);
    WeaveJoin(a, b);
    WeaveEntry(' ', "missing=", missing);
    WeaveComma("extra=", extra);
    WeaveComma("mismatched=", mismatched);
    WeaveOne('\n', "");
    assert [' '] == " " && ['\n'] + "" == "\n";
    FiveParts(lead, Weave(a), Weave(b), Weave(c), "\n");
  }

  lemma {:induction false} FiveParts(a: string, b: string, c: string, d: string, e: string)
    ensures a + (b + c + d + e) == a + b + c + d + e
  {
  }

  // ---- What the substring tests really decide -----------------------------------------------------

  ghost predicate QuotedWell(names: seq<Rendered>) {
    forall i :: 0 <= i < |names| ==> IsQuote(names[i].quote)
  }

  /** Some name spells the pattern itself. */
  ghost predicate SpeltIn(names: seq<Rendered>, p: string) {
    exists i :: 0 <= i < |names| && Contains(names[i].body, p)
  }

  /** No separator of the message occurs in the pattern. */
  predicate Plain(p: string) {
    |p| >= 2 && '\'' !in p && '"' !in p && ',' !in p && ' ' !in p && '\n' !in p
  }

  lemma {:induction false} SearchTwo(c: char, word: string, d: char, last: string, p: string)
    ensures AnyContains([(c, word), (d, last)], p) <==> Contains(word, p) || Contains(last, p)
  {
    var parts: Parts := [(c, word), (d, last)];
    assert parts[1..] == [(d, last)] && parts[1..][1..] == [];
    assert AnyContains(parts[1..], p) <==> Contains(last, p);
  }

  lemma {:induction false} SearchItems(names: seq<Rendered>, p: string)
    requires QuotedWell(names) && Plain(p)
    ensures SeparatedBy(ItemParts(names), p)
    ensures AnyContains(ItemParts(names), p) <==> SpeltIn(names, p)
  {
    TooShort("", p);
    TooShort("]", p);
    if names != [] {
      var (q, body) := (names[0].quote, names[0].body);
      SpeltInCons(names, p);
      if |names| == 1 {
        SearchTwo(q, body, q, "]", p);
      } else {
        var head: Parts := [(q, body), (q, "")] + [(',', ""), (' ', "")];
        SearchItems(names[1..], p);
        SearchTwo(q, body, q, "", p);
        SearchTwo(',', "", ' ', "", p);
        AnyContainsJoin([(q, body), (q, "")], [(',', ""), (' ', "")], p);
        AnyContainsJoin(head, ItemParts(names[1..]), p);
        assert ItemParts(names) == head + ItemParts(names[1..]);
      }
    }
  }

  lemma {:induction false} SpeltInCons(names: seq<Rendered>, p: string)
    requires names != []
    ensures SpeltIn(names, p) <==> Contains(names[0].body, p) || SpeltIn(names[1..], p)
  {
    if i :| 0 <= i < |names| && Contains(names[i].body, p) {
      assert i > 0 ==> names[1..][i - 1] == names[i];
    }
    if i :| 0 <= i < |names[1..]| && Contains(names[1..][i].body, p) {
      assert names[i + 1] == names[1..][i];
    }
  }

  lemma {:induction false} SearchEntry(key: string, names: seq<Rendered>, p: string)
    requires QuotedWell(names) && Plain(p)
    ensures SeparatedBy(EntryParts(' ', key, names), p)
    ensures AnyContains(EntryParts(' ', key, names), p) <==> Contains(Opening(key, names), p) || SpeltIn(names, p)
  {
    var head: Parts := [(' ', Opening(key, names))];
    SearchItems(names, p);
    AnyContainsJoin(head, ItemParts(names), p);
    assert head[1..] == [];
  }

  /** Searching the whole message: the lead, the three opening words, or a name that spells it. */
  lemma {:induction false} SearchMessage(lead: string, missing: seq<Rendered>, extra: seq<Rendered>,
      mismatched: seq<Rendered>, p: string)
    requires QuotedWell(missing) && QuotedWell(extra) && QuotedWell(mismatched) && Plain(p)
    ensures Contains(Stderr(lead, missing, extra, mismatched), p) <==>
            || Contains(lead, p)
            || Contains(Opening("missing=", missing), p) || SpeltIn(missing, p)
            || Contains(Opening("extra=", extra), p) || SpeltIn(extra, p)
            || Contains(Opening("mismatched=", mismatched), p) || SpeltIn(mismatched, p)
  {
    var comma: Parts, newline: Parts := [(',', "")], [('\n', "")];
    var a := EntryParts(' ', "missing=", missing);
    var b := EntryParts(' ', "extra=", extra);
    var c := EntryParts(' ', "mismatched=", mismatched);
    StderrIsWoven(lead, missing, extra, mismatched);
    SearchEntry("missing=", missing, p);
    SearchEntry("extra=", extra, p);
    SearchEntry("mismatched=", mismatched, p);
    SearchWords(lead, MessageParts(missing, extra, mismatched), p);
    AnyContainsJoin(a + (comma + b) + (comma + c), newline, p);
    AnyContainsJoin(a + (comma + b), comma + c, p);
    AnyContainsJoin(a, comma + b, p);
    AnyContainsJoin(comma, b, p);
    AnyContainsJoin(comma, c, p);
    TooShort("", p);
    assert comma[1..] == [] && newline[1..] == [];
  }

  lemma {:induction false} OpeningWordsForExtra(missing: seq<Rendered>, extra: seq<Rendered>, mismatched: seq<Rendered>)
    ensures !Contains(Opening("missing=", missing), NO_EXTRA)
    ensures Contains(Opening("extra=", extra), NO_EXTRA) <==> extra == []
    ensures !Contains(Opening("mismatched=", mismatched), NO_EXTRA)
  {
    FirstLetters(Opening("missing=", missing), NO_EXTRA);
    FirstLetters(Opening("mismatched=", mismatched), NO_EXTRA);
    if extra == [] {
      assert Opening("extra=", extra) == NO_EXTRA;
      ContainsItself(NO_EXTRA);
    } else {
      TooShort(Opening("extra=", extra), NO_EXTRA);
    }
  }

  lemma {:induction false} OpeningWordsForMismatched(missing: seq<Rendered>, extra: seq<Rendered>,
      mismatched: seq<Rendered>)
    ensures !Contains(Opening("missing=", missing), NO_MISMATCHED)
    ensures !Contains(Opening("extra=", extra), NO_MISMATCHED)
    ensures Contains(Opening("mismatched=", mismatched), NO_MISMATCHED) <==> mismatched == []
  {
    TooShort(Opening("missing=", missing), NO_MISMATCHED);
    TooShort(Opening("extra=", extra), NO_MISMATCHED);
    if mismatched == [] {
      assert Opening("mismatched=", mismatched) == NO_MISMATCHED;
      ContainsItself(NO_MISMATCHED);
    } else {
      TooShort(Opening("mismatched=", mismatched), NO_MISMATCHED);
    }
  }

  /** An occurrence starts with the pattern's first letter. */
  lemma {:induction false} FirstLetters(text: string, p: string)
    requires p != [] && forall i :: 0 <= i && i + |p| <= |text| ==> text[i] != p[0]
    ensures !Contains(text, p)
  {
    forall i ensures !OccursAt(text, p, i) {
      if 0 <= i && i + |p| <= |text| {
        assert text[i..i + |p|][0] == text[i];
      }
    }
  }

  /** A name or the lead spells the pattern, so that the substring test cannot tell. */
  ghost predicate Tainted(lead: string, missing: seq<Rendered>, extra: seq<Rendered>, mismatched: seq<Rendered>,
      p: string) {
    Contains(lead, p) || SpeltIn(missing, p) || SpeltIn(extra, p) || SpeltIn(mismatched, p)
  }

  lemma {:induction false} SearchForExtra(lead: string, missing: seq<Rendered>, extra: seq<Rendered>,
      mismatched: seq<Rendered>)
    requires QuotedWell(missing) && QuotedWell(extra) && QuotedWell(mismatched)
    ensures Contains(Stderr(lead, missing, extra, mismatched), NO_EXTRA)
            <==> extra == [] || Tainted(lead, missing, extra, mismatched, NO_EXTRA)
  {
    OpeningWordsForExtra(missing, extra, mismatched);
    SearchMessage(lead, missing, extra, mismatched, NO_EXTRA);
  }

  lemma {:induction false} SearchForMismatched(lead: string, missing: seq<Rendered>, extra: seq<Rendered>,
      mismatched: seq<Rendered>)
    requires QuotedWell(missing) && QuotedWell(extra) && QuotedWell(mismatched)
    ensures Contains(Stderr(lead, missing, extra, mismatched), NO_MISMATCHED)
            <==> mismatched == [] || Tainted(lead, missing, extra, mismatched, NO_MISMATCHED)
  {
    OpeningWordsForMismatched(missing, extra, mismatched);
    SearchMessage(lead, missing, extra, mismatched, NO_MISMATCHED);
  }

  lemma {:induction false} SearchForMissing(lead: string, missing: seq<Rendered>, extra: seq<Rendered>,
      mismatched: seq<Rendered>)
    requires QuotedWell(missing) && QuotedWell(extra) && QuotedWell(mismatched)
    ensures Contains(Stderr(lead, missing, extra, mismatched), MISSING)
  {
    var m := Opening("missing=", missing);
    assert m[0..0 + 8] == MISSING;
    assert OccursAt(m, MISSING, 0);
    SearchMessage(lead, missing, extra, mismatched, MISSING);
  }

  /** Exactly when the error text is taken as "still propagating". */
  lemma {:induction false} RetryableExactly(lead: string, missing: seq<Rendered>, extra: seq<Rendered>,
      mismatched: seq<Rendered>)
    requires QuotedWell(missing) && QuotedWell(extra) && QuotedWell(mismatched)
    ensures IsRetryableIncompleteError(Stderr(lead, missing, extra, mismatched)) <==>
            && (extra == [] || Tainted(lead, missing, extra, mismatched, NO_EXTRA))
            && (mismatched == [] || Tainted(lead, missing, extra, mismatched, NO_MISMATCHED))
  {
    SearchForMissing(lead, missing, extra, mismatched);
    SearchForExtra(lead, missing, extra, mismatched);
    SearchForMismatched(lead, missing, extra, mismatched);
  }

  // ---- Agreement with the in-process decision ------------------------------------------------------

  datatype Decision = Finish | Retry | GiveUp

  /** One attempt of `verify_registry_release`. An absent release is a result, not a failure. */
  function InProcess(local: Digests, reported: Option<Digests>): Decision {
    match InspectRelease(reported)
    case Absent => Finish
    case Pending => Retry
    case Existing(remote) =>
      match CompareDigestSets(local, remote)
      case Matches => Finish
      case Retryable => Retry
      case Fatal => GiveUp
  }

  /** How the verifier process sorts and renders the names in its message. */
  datatype Writer = Writer(listed: set<FileName> -> seq<FileName>, printable: char -> bool)

  ghost predicate Lists(names: seq<FileName>, s: set<FileName>) {
    forall f :: f in names <==> f in s
  }

  ghost predicate Sorts(w: Writer) {
    forall s :: Lists(w.listed(s), s)
  }

  const LEAD := "Error: Registry release is not " + "the exact Guard artifact set:"
  const ABSENT := "Error: Registry release is absent\n"
  const NOT_LISTED := "Error: Existing registry release " + "has no distribution files yet\n"

  function Names(w: Writer, s: set<FileName>): seq<Rendered> {
    Reprs(w.listed(s), w.printable)
  }

  /** What the verifier process prints to its error stream. */
  function ErrorText(p: Published, w: Writer): string {
    match p
    case PublishedExact => ""
    case NoRelease => ABSENT
    case NothingListed => NOT_LISTED
    case NotExact(missing, extra, mismatched) => Stderr(LEAD, Names(w, missing), Names(w, extra), Names(w, mismatched))
  }

  /** One round of `wait_for_published`, before the attempts run out. */
  ghost function ByText(local: Digests, reported: Option<Digests>, w: Writer): Decision {
    var p := CheckPublished(local, reported);
    if p.PublishedExact? then Finish
    else if IsRetryableIncompleteError(ErrorText(p, w)) then Retry
    else GiveUp
  }

  /** The names of the six local artifacts hold no equals sign: their projects, versions and tags are checked. A
      registry name can hold one, for its build and compatibility tags are not. */
  predicate NoEquals(digests: Digests) {
    forall f :: f in digests ==> '=' !in f.text
  }

  /** Some unexpected name spells the pattern once it is rendered. */
  ghost predicate SpeltByExtra(local: Digests, remote: Digests, w: Writer, p: string) {
    exists f :: f in ExtraNames(local, remote) && Contains(Repr(f, w.printable).body, p)
  }

  lemma {:induction false} NotSpelt(text: string, p: string)
    requires '=' !in text && '=' in p
    ensures !Contains(text, p)
  {
    forall i ensures !OccursAt(text, p, i) {
      if OccursAt(text, p, i) {
        var k :| 0 <= k < |p| && p[k] == '=';
        UsesLetter(text, p, i, k);
      }
    }
  }

  lemma {:induction false} UsesLetter(text: string, p: string, i: nat, k: nat)
    requires OccursAt(text, p, i) && k < |p|
    ensures p[k] in text
  {
    assert text[i..i + |p|][k] == text[i + k];
  }

  lemma {:induction false} LeadHasNoEquals()
    ensures '=' !in LEAD
  {
    assert '=' !in "Error: Registry release is not ";
    assert '=' !in "the exact Guard artifact set:";
  }

  lemma {:induction false} PendingTextHasNoEquals()
    ensures '=' !in NOT_LISTED
  {
    assert '=' !in "Error: Existing registry release ";
    assert '=' !in "has no distribution files yet\n";
  }

  lemma {:induction false} LocalNamesSpellNothing(names: seq<FileName>, printable: char -> bool, p: string)
    requires '=' in p && forall f :: f in names ==> '=' !in f.text
    ensures !SpeltIn(Reprs(names, printable), p)
  {
    var rendered := Reprs(names, printable);
    forall i | 0 <= i < |rendered| ensures !Contains(rendered[i].body, p) {
      assert names[i] in names;
      BodyAddsNoEquals(names[i].text, rendered[i].quote, printable);
      NotSpelt(rendered[i].body, p);
    }
  }

  lemma {:induction false} SpeltInTheList(names: seq<FileName>, s: set<FileName>, printable: char -> bool, p: string)
    requires Lists(names, s)
    ensures SpeltIn(Reprs(names, printable), p) <==> exists f :: f in s && Contains(Repr(f, printable).body, p)
  {
    var rendered := Reprs(names, printable);
    if i :| 0 <= i < |rendered| && Contains(rendered[i].body, p) {
      assert names[i] in names;
    }
    if f :| f in s && Contains(Repr(f, printable).body, p) {
      assert f in names;
      var i :| 0 <= i < |names| && names[i] == f;
      assert rendered[i] == Repr(f, printable);
    }
  }

  /** Only an unexpected name can taint the message of an existing release. */
  lemma {:induction false} OnlyExtraTaints(local: Digests, remote: Digests, w: Writer, p: string)
    requires NoEquals(local) && Sorts(w) && '=' in p
    ensures Tainted(LEAD, Names(w, MissingNames(local, remote)), Names(w, ExtraNames(local, remote)),
                    Names(w, MismatchedNames(local, remote)), p)
            <==> SpeltByExtra(local, remote, w, p)
  {
    var missing, extra, mismatched :=
      MissingNames(local, remote), ExtraNames(local, remote), MismatchedNames(local, remote);
    LeadHasNoEquals();
    NotSpelt(LEAD, p);
    assert Lists(w.listed(missing), missing) && Lists(w.listed(extra), extra)
           && Lists(w.listed(mismatched), mismatched);
    LocalNamesSpellNothing(w.listed(missing), w.printable, p);
    LocalNamesSpellNothing(w.listed(mismatched), w.printable, p);
    SpeltInTheList(w.listed(extra), extra, w.printable, p);
  }

  lemma {:induction false} EmptyTogether(w: Writer, s: set<FileName>)
    requires Sorts(w)
    ensures QuotedWell(Names(w, s)) && (Names(w, s) == [] <==> s == {})
  {
    var names := w.listed(s);
    assert Lists(names, s);
    if names != [] {
      assert names[0] in names;
    }
    if s != {} {
      var f :| f in s;
      assert f in names;
    }
  }

  /** The text decision for a release that exists and is not exact. */
  lemma {:induction false} TextRetriesExactly(local: Digests, remote: Digests, w: Writer)
    requires NoEquals(local) && Sorts(w) && remote != map[] && remote != local
    ensures ByText(local, Some(remote), w).Retry? <==>
            && (ExtraNames(local, remote) == {} || SpeltByExtra(local, remote, w, NO_EXTRA))
            && (MismatchedNames(local, remote) == {} || SpeltByExtra(local, remote, w, NO_MISMATCHED))
  {
    MessageRetriesExactly(MissingNames(local, remote), ExtraNames(local, remote), MismatchedNames(local, remote), w);
    PatternsHaveEquals();
    OnlyExtraTaints(local, remote, w, NO_EXTRA);
    OnlyExtraTaints(local, remote, w, NO_MISMATCHED);
  }

  lemma {:induction false} PatternsHaveEquals()
    ensures '=' in NO_EXTRA && '=' in NO_MISMATCHED
  {
    assert NO_EXTRA[5] == '=' && NO_MISMATCHED[10] == '=';
  }

  lemma {:induction false} MessageRetriesExactly(missing: set<FileName>, extra: set<FileName>,
      mismatched: set<FileName>, w: Writer)
    requires Sorts(w)
    ensures IsRetryableIncompleteError(ErrorText(NotExact(missing, extra, mismatched), w)) <==>
            && (extra == {} || Tainted(LEAD, Names(w, missing), Names(w, extra), Names(w, mismatched), NO_EXTRA))
            && (mismatched == {}
               || Tainted(LEAD, Names(w, missing), Names(w, extra), Names(w, mismatched), NO_MISMATCHED))
  {
    EmptyTogether(w, missing);
    EmptyTogether(w, extra);
    EmptyTogether(w, mismatched);
    RetryableExactly(LEAD, Names(w, missing), Names(w, extra), Names(w, mismatched));
  }

  /** The release has no file list yet: the process waits, the text test gives up. */
  lemma {:induction false} PendingReleasesDisagree(local: Digests, w: Writer)
    ensures InProcess(local, Some(map[])).Retry? && ByText(local, Some(map[]), w).GiveUp?
  {
    PendingTextHasNoEquals();
    NotSpelt(NOT_LISTED, MISSING);
  }

  lemma {:induction false} AbsentReleasesAreNotRetried(local: Digests, w: Writer)
    ensures InProcess(local, None).Finish? && ByText(local, None, w).GiveUp?
  {
    NotSpelt(ABSENT, MISSING);
  }

  /** Whether the two retry decisions agree, for everything a registry can report: they do unless the
      file list is still empty, or the release is in conflict and unexpected names spell the patterns
      that every non-empty list of the conflict would otherwise keep out of the message. */
  lemma {:induction false} DecisionsAgree(local: Digests, reported: Option<Digests>, w: Writer)
    requires NoEquals(local) && Sorts(w)
    ensures (ByText(local, reported, w).Retry? <==> InProcess(local, reported).Retry?) <==>
            && reported != Some(map[])
            && (var remote := Held(reported);
                || Classify(local, remote) != Conflicting
                || (ExtraNames(local, remote) != {} && !SpeltByExtra(local, remote, w, NO_EXTRA))
                || (MismatchedNames(local, remote) != {} && !SpeltByExtra(local, remote, w, NO_MISMATCHED)))
  {
    var remote := Held(reported);
    ComparisonIsClassification(local, remote);
    ReportedSetsClassify(local, remote);
    if reported.None? {
      AbsentReleasesAreNotRetried(local, w);
    } else if remote == map[] {
      PendingReleasesDisagree(local, w);
    } else if remote != local {
      TextRetriesExactly(local, remote, w);
    }
  }

  /** When no remote name holds an equals sign, a release without a file list is the only disagreement. */
  lemma {:induction false} UntaintedDecisionsAgree(local: Digests, reported: Option<Digests>, w: Writer)
    requires NoEquals(local) && Sorts(w) && NoEquals(Held(reported))
    ensures (ByText(local, reported, w).Retry? <==> InProcess(local, reported).Retry?) <==> reported != Some(map[])
  {
    var remote := Held(reported);
    DecisionsAgree(local, reported, w);
    ReportedSetsClassify(local, remote);
    PatternsHaveEquals();
    forall f | f in ExtraNames(local, remote)
      ensures !Contains(Repr(f, w.printable).body, NO_EXTRA) && !Contains(Repr(f, w.printable).body, NO_MISMATCHED)
    {
      BodyAddsNoEquals(f.text, Repr(f, w.printable).quote, w.printable);
      NotSpelt(Repr(f, w.printable).body, NO_EXTRA);
      NotSpelt(Repr(f, w.printable).body, NO_MISMATCHED);
    }
  }

  /** A wheel of this version whose build tag spells the pattern. */
  function TaggedWheel(version: string): FileName {
    FileName("hol_guard-" + version + "-1" + NO_EXTRA + "-py3-none-any.whl")
  }

  /** A pattern inside a name shows in its rendering. */
  lemma {:induction false} SpeltInside(before: string, p: string, after: string, quote: char, printable: char -> bool)
    requires Verbatim(p) && IsQuote(quote)
    ensures Contains(Body(before + p + after, quote, printable), p)
  {
    var escape := c => Escape(c, quote, printable);
    EscapedJoin(before + p, after, escape);
    EscapedJoin(before, p, escape);
    EscapedVerbatim(p, escape);
    var a, b := Body(before, quote, printable), Body(after, quote, printable);
    assert (a + p + b)[|a|..|a| + |p|] == p;
    assert OccursAt(a + p + b, p, |a|);
  }

  lemma {:induction false} TaggedWheelSpells(version: string, printable: char -> bool)
    ensures '=' in TaggedWheel(version).text && Contains(Repr(TaggedWheel(version), printable).body, NO_EXTRA)
  {
    var before, after := "hol_guard-" + version + "-1", "-py3-none-any.whl";
    PatternsHaveEquals();
    SpeltInside(before, NO_EXTRA, after, Repr(TaggedWheel(version), printable).quote, printable);
  }

  /** They do disagree on a release that holds one wheel too many, when its build tag spells the pattern:
      whatever the local set and the version are, the text test waits for a conflict that cannot heal. */
  lemma {:induction false} TaggedWheelFoolsTheText(local: Digests, version: string, digest: Sha256, w: Writer)
    requires NoEquals(local) && Sorts(w)
    ensures var reported := Some(local[TaggedWheel(version) := digest]);
            InProcess(local, reported).GiveUp? && ByText(local, reported, w).Retry?
  {
    var f := TaggedWheel(version);
    var remote := local[f := digest];
    TaggedWheelSpells(version, w.printable);
    assert f !in local && f in remote;
    assert f in ExtraNames(local, remote);
    assert MismatchedNames(local, remote) == {};
    TextRetriesExactly(local, remote, w);
    ReportedSetsClassify(local, remote);
    ComparisonIsClassification(local, remote);
  }
}
