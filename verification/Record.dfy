/** The wheel's RECORD: unpadded base64url hashes, the rows the builder writes, and the check of an
    installed distribution against them. */
module Record {
  import opened Options
  import opened Bytes

  // ---- base64url (section 5 of RFC 4648) ---------------------------------------------------------

  type sextet = x: int | 0 <= x < 64

  function Digit(v: sextet): char {
    if v < 26 then 'A' + v as char
    else if v < 52 then 'a' + (v - 26) as char
    else if v < 62 then '0' + (v - 52) as char
    else if v == 62 then '-' else '_'
  }

  /** The value of a character for the lenient decoder, which knows both alphabets. */
  function Value(c: char): Option<sextet> {
    if 'A' <= c <= 'Z' then Some((c - 'A') as int)
    else if 'a' <= c <= 'z' then Some((c - 'a') as int + 26)
    else if '0' <= c <= '9' then Some((c - '0') as int + 52)
    else if c == '-' || c == '+' then Some(62)
    else if c == '_' || c == '/' then Some(63)
    else None
  }

  lemma {:induction false} DigitValue(v: sextet)
    ensures Value(Digit(v)) == Some(v) && Digit(v) != '='
  {
  }

  function Triple(a: byte, b: byte, c: byte): string {
    [Digit(a / 4), Digit(a % 4 * 16 + b / 16), Digit(b % 16 * 4 + c / 64), Digit(c % 64)]
  }

  /** Padded encoding. */
  function Encode(b: seq<byte>): string {
    if |b| == 0 then ""
    else if |b| == 1 then Triple(b[0], 0, 0)[..2] + "=="
    else if |b| == 2 then Triple(b[0], b[1], 0)[..3] + "="
    else Triple(b[0], b[1], b[2]) + Encode(b[3..])
  }

  /** Python's `rstrip("=")`. */
  function StripPads(s: string): string {
    if s != "" && s[|s| - 1] == '=' then StripPads(s[..|s| - 1]) else s
  }

  /** The padding the verifier puts back: `"=" * (-len % 4)`. */
  function Repad(s: string): string {
    s + seq((4 - |s| % 4) % 4, _ => '=')
  }

  /** The lenient decoder: `quad` data characters of the current group have been seen, `left` holds their
      unused low bits and `pads` counts the padding characters since the last of them. Characters
      outside the alphabet are skipped, and complete padding ends the input. */
  function Scan(s: string, quad: nat, left: nat, pads: nat): Option<seq<byte>>
    requires quad < 4 && left < 64 && (quad == 2 ==> left < 16) && (quad == 3 ==> left < 4)
  {
    if s == "" then if quad == 0 then Some([]) else None
    else if s[0] == '=' then
      if quad >= 2 && quad + pads + 1 >= 4 then Some([])
        else Scan(s[1..], quad, left, if quad >= 2 then pads + 1 else pads)
    else match Value(s[0])
      case None => Scan(s[1..], quad, left, pads)
      case Some(v) =>
        if quad == 0 then Scan(s[1..], 1, v, 0)
        else if quad == 1 then Then(left * 4 + v / 16, Scan(s[1..], 2, v % 16, 0))
        else if quad == 2 then Then(left * 16 + v / 4, Scan(s[1..], 3, v % 4, 0))
        else Then(left * 64 + v, Scan(s[1..], 0, 0, 0))
  }

  function Then(b: byte, rest: Option<seq<byte>>): Option<seq<byte>> {
    match rest case None => None case Some(r) => Some([b] + r)
  }

  function Decode(s: string): Option<seq<byte>> {
    Scan(s, 0, 0, 0)
  }

  lemma {:induction false} ScanDigit(v: sextet, rest: string, quad: nat, left: nat)
    requires quad < 4 && left < 64 && (quad == 2 ==> left < 16) && (quad == 3 ==> left < 4)
    ensures Scan([Digit(v)] + rest, quad, left, 0) ==
            if quad == 0 then Scan(rest, 1, v, 0)
            else if quad == 1 then Then(left * 4 + v / 16, Scan(rest, 2, v % 16, 0))
            else if quad == 2 then Then(left * 16 + v / 4, Scan(rest, 3, v % 4, 0))
            else Then(left * 64 + v, Scan(rest, 0, 0, 0))
  {
    DigitValue(v);
    assert ([Digit(v)] + rest)[1..] == rest;
  }

  lemma {:induction false} ScanTwo(a: byte, b: byte, rest: string)
    ensures Scan([Digit(a / 4)] + ([Digit(a % 4 * 16 + b / 16)] + rest), 0, 0, 0) == Then(a, Scan(rest, 2, b / 16, 0))
  {
    ScanDigit(a / 4, [Digit(a % 4 * 16 + b / 16)] + rest, 0, 0);
    ScanDigit(a % 4 * 16 + b / 16, rest, 1, a / 4);
  }

  lemma {:induction false} ScanThird(b: byte, c: byte, rest: string)
    ensures Scan([Digit(b % 16 * 4 + c / 64)] + rest, 2, b / 16, 0) == Then(b, Scan(rest, 3, c / 64, 0))
  {
    ScanDigit(b % 16 * 4 + c / 64, rest, 2, b / 16);
  }

  lemma {:induction false} ScanTriple(a: byte, b: byte, c: byte, rest: string)
    ensures Scan(Triple(a, b, c) + rest, 0, 0, 0) == Then(a, Then(b, Then(c, Scan(rest, 0, 0, 0))))
  {
    var fourth := [Digit(c % 64)] + rest;
    var third := [Digit(b % 16 * 4 + c / 64)] + fourth;
    assert Triple(a, b, c) + rest == [Digit(a / 4)] + ([Digit(a % 4 * 16 + b / 16)] + third);
    ScanTwo(a, b, third);
    ScanThird(b, c, fourth);
    ScanDigit(c % 64, rest, 3, c / 64);
  }

  lemma {:induction false} ScanPads()
    ensures Scan("=", 3, 0, 0) == Some([]) && Scan("==", 2, 0, 0) == Some([])
  {
    assert "=="[1..] == "=";
    assert Scan("=", 2, 0, 1) == Some([]);
    assert Scan("==", 2, 0, 0) == Scan("=", 2, 0, 1);
  }

  lemma {:induction false} DecodesOne(a: byte)
    ensures Scan(Triple(a, 0, 0)[..2] + "==", 0, 0, 0) == Some([a])
  {
    ScanPads();
    assert Triple(a, 0, 0)[..2] + "==" == [Digit(a / 4)] + ([Digit(a % 4 * 16 + 0 / 16)] + "==");
    ScanTwo(a, 0, "==");
    assert [a] + [] == [a];
  }

  lemma {:induction false} DecodesTwo(a: byte, b: byte)
    ensures Scan(Triple(a, b, 0)[..3] + "=", 0, 0, 0) == Some([a, b])
  {
    ScanPads();
    var third := [Digit(b % 16 * 4 + 0 / 64)] + "=";
    assert Triple(a, b, 0)[..3] + "=" == [Digit(a / 4)] + ([Digit(a % 4 * 16 + b / 16)] + third);
    ScanTwo(a, b, third);
    ScanThird(b, 0, "=");
    assert [a] + ([b] + []) == [a, b];
  }

  /** Decoding undoes encoding. */
  lemma {:induction false} DecodesEncoded(b: seq<byte>)
    ensures Decode(Encode(b)) == Some(b)
  {
    if |b| == 1 {
      DecodesOne(b[0]);
      assert b == [b[0]];
    } else if |b| == 2 {
      DecodesTwo(b[0], b[1]);
      assert b == [b[0], b[1]];
    } else if |b| > 2 {
      ScanTriple(b[0], b[1], b[2], Encode(b[3..]));
      DecodesEncoded(b[3..]);
      assert [b[0]] + ([b[1]] + ([b[2]] + b[3..])) == b;
    }
  }

  lemma {:induction false} StripsOnlyPads(front: string, s: string)
    requires s != "" && StripPads(s) != ""
    ensures StripPads(front + s) == front + StripPads(s)
  {
    if s[|s| - 1] == '=' {
      assert (front + s)[..|front + s| - 1] == front + s[..|s| - 1];
      StripsOnlyPads(front, s[..|s| - 1]);
    }
  }

  lemma {:induction false} RepadAppend(head: string, rest: string)
    requires |head| == 4
    ensures Repad(head + rest) == head + Repad(rest)
  {
    assert |head + rest| % 4 == |rest| % 4;
  }

  lemma {:induction false} EncodedEnds(a: byte, b: byte, c: byte)
    ensures var t := Triple(a, b, c); t[1] != '=' && t[2] != '=' && t[3] != '='
  {
    DigitValue(a % 4 * 16 + b / 16);
    DigitValue(b % 16 * 4 + c / 64);
    DigitValue(c % 64);
  }

  lemma {:induction false} RepadGroup(head: string, rest: string)
    requires |head| == 4 && head[3] != '='
    requires Repad(StripPads(rest)) == rest && (rest != "" ==> StripPads(rest) != "")
    ensures Repad(StripPads(head + rest)) == head + rest && StripPads(head + rest) != ""
  {
    if rest == "" {
      assert head + rest == head;
      StripTail(head, 0);
    } else {
      StripsOnlyPads(head, rest);
      RepadAppend(head, StripPads(rest));
    }
  }

  /** Padding back what was stripped gives the encoding again. */
  lemma {:induction false} RepadRestores(b: seq<byte>)
    ensures Repad(StripPads(Encode(b))) == Encode(b)
    ensures b != [] ==> StripPads(Encode(b)) != ""
  {
    if |b| == 1 {
      EncodedEnds(b[0], 0, 0);
      StripTail(Triple(b[0], 0, 0)[..2], 2);
    } else if |b| == 2 {
      EncodedEnds(b[0], b[1], 0);
      StripTail(Triple(b[0], b[1], 0)[..3], 1);
    } else if |b| > 2 {
      EncodedEnds(b[0], b[1], b[2]);
      RepadRestores(b[3..]);
      RepadGroup(Triple(b[0], b[1], b[2]), Encode(b[3..]));
    }
  }

  lemma {:induction false} StripTail(digits: string, n: nat)
    requires digits != "" && digits[|digits| - 1] != '=' && n <= 2 && (|digits| + n) % 4 == 0
    ensures StripPads(digits + if n == 0 then "" else if n == 1 then "=" else "==") == digits
    ensures Repad(digits) == digits + if n == 0 then "" else if n == 1 then "=" else "=="
  {
    assert digits + "" == digits;
    assert (digits + "=")[..|digits|] == digits;
    assert (digits + "==")[..|digits| + 1] == digits + "=";
    assert StripPads(digits + "=") == StripPads(digits);
  }

  /** Main codec result: what the verifier decodes from an unpadded hash is what the builder encoded. */
  lemma {:induction false} UnpaddedRoundTrip(b: seq<byte>)
    ensures Decode(Repad(StripPads(Encode(b)))) == Some(b)
  {
    RepadRestores(b);
    DecodesEncoded(b);
  }

  // ---- Hash cells ------------------------------------------------------------------------------------

  const PREFIX := "sha256="

  /** `_record_hash`, given the digest. */
  function RecordHash(digest: seq<byte>): (s: string)
    ensures s != ""
  {
    PREFIX + StripPads(Encode(digest))
  }

  /** Python's `partition`: the part before the first `=`, and the part after it if there is one. */
  function Partition(s: string): (string, Option<string>) {
    if s == "" then ("", None)
    else if s[0] == '=' then ("", Some(s[1..]))
    else var (before, after) := Partition(s[1..]); ([s[0]] + before, after)
  }

  /** `_decode_record_hash`; `None` when it raises. */
  function DecodeRecordHash(s: string): Option<seq<byte>> {
    var (algorithm, encoded) := Partition(s);
    if algorithm != "sha256" || encoded.None? then None else Decode(Repad(encoded.value))
  }

  lemma {:induction false} PartitionSplits(before: string, after: string)
    requires '=' !in before
    ensures Partition(before + "=" + after) == (before, Some(after))
  {
    var s := before + "=" + after;
    if before == "" {
      assert s == "=" + after;
    } else {
      assert s[1..] == before[1..] + "=" + after && s[0] == before[0];
      PartitionSplits(before[1..], after);
      assert [before[0]] + before[1..] == before;
    }
  }

  lemma {:induction false} RecordHashRoundTrip(digest: seq<byte>)
    ensures DecodeRecordHash(RecordHash(digest)) == Some(digest)
  {
    var encoded := StripPads(Encode(digest));
    assert RecordHash(digest) == "sha256" + "=" + encoded;
    PartitionSplits("sha256", encoded);
    UnpaddedRoundTrip(digest);
  }

  // ---- Size cells --------------------------------------------------------------------------------------

  function Decimal(n: nat): (s: string)
    ensures s != ""
  {
    (if n < 10 then "" else Decimal(n / 10)) + ['0' + (n % 10) as char]
  }

  function ParseDecimal(s: string): Option<nat> {
    if s == "" || !('0' <= s[|s| - 1] <= '9') then None
    else
      var last := (s[|s| - 1] - '0') as int;
      if |s| == 1 then Some(last)
      else match ParseDecimal(s[..|s| - 1]) case None => None case Some(n) => Some(10 * n + last)
  }

  lemma {:induction false} DecimalRoundTrip(n: nat)
    ensures ParseDecimal(Decimal(n)) == Some(n)
  {
    var s := Decimal(n);
    if n >= 10 {
      assert s[..|s| - 1] == Decimal(n / 10);
      DecimalRoundTrip(n / 10);
    }
  }

  // ---- Rows ----------------------------------------------------------------------------------------------

  datatype Name = Name(text: string)
  datatype Row = Row(name: Name, digest: string, size: string)
  datatype Content = Content(bytes: seq<byte>)

  function BuiltRow(name: Name, c: Content, hash: Content -> seq<byte>): Row {
    Row(name, RecordHash(hash(c)), Decimal(|c.bytes|))
  }

  /** The rows for an enumeration of the entries, without the record's own. */
  function PayloadRows(entries: map<Name, Content>, names: seq<Name>, record: Name,
      hash: Content -> seq<byte>): seq<Row>
    requires forall n :: n in names ==> n in entries
  {
    if names == [] then []
    else
      var last := names[|names| - 1];
      PayloadRows(entries, names[..|names| - 1], record, hash) +
      if last == record then [] else [BuiltRow(last, entries[last], hash)]
  }

  /** `_record_content`, before the rows are rendered. */
  method RecordRows(entries: map<Name, Content>, names: seq<Name>, record: Name, hash: Content -> seq<byte>)
    returns (rows: seq<Row>)
    requires forall n :: n in names ==> n in entries
    ensures rows == PayloadRows(entries, names, record, hash) + [Row(record, "", "")]
  {
    rows := [];
    for i := 0 to |names|
      invariant rows == PayloadRows(entries, names[..i], record, hash)
    {
      assert names[..i + 1][..i] == names[..i] && names[i] in names;
      if names[i] != record {
        rows := rows + [BuiltRow(names[i], entries[names[i]], hash)];
      }
    }
    assert names[..|names|] == names;
    rows := rows + [Row(record, "", "")];
  }

  /** A final component that ends in `.pyc` and is more than that. */
  predicate IsBytecode(name: Name) {
    var t := name.text;
    |t| > 4 && t[|t| - 4..] == ".pyc" && t[|t| - 5] != '/'
  }

  predicate RowHolds(row: Row, installed: map<Name, Content>, record: Name, hash: Content -> seq<byte>) {
    if row.digest == "" then row.name == record || IsBytecode(row.name)
    else
      && row.name in installed
      && DecodeRecordHash(row.digest) == Some(hash(installed[row.name]))
      && (row.size == "" || ParseDecimal(row.size) == Some(|installed[row.name].bytes|))
  }

  function Digested(rows: seq<Row>): nat {
    if rows == [] then 0 else Digested(rows[..|rows| - 1]) + if rows[|rows| - 1].digest == "" then 0 else 1
  }

  ghost predicate Verifies(rows: seq<Row>, installed: map<Name, Content>, record: Name, hash: Content -> seq<byte>) {
    (forall i :: 0 <= i < |rows| ==> RowHolds(rows[i], installed, record, hash)) && Digested(rows) >= 1
  }

  /** `verify_installed_record`: the number of verified payloads, `None` when it raises. */
  method VerifyInstalledRecord(rows: seq<Row>, installed: map<Name, Content>, record: Name, hash: Content -> seq<byte>)
    returns (r: Option<nat>)
    ensures r == if Verifies(rows, installed, record, hash) then Some(Digested(rows)) else None
  {
    var verified := 0;
    for i := 0 to |rows|
      invariant forall j :: 0 <= j < i ==> RowHolds(rows[j], installed, record, hash)
      invariant verified == Digested(rows[..i])
    {
      var row := rows[i];
      assert rows[..i + 1][..i] == rows[..i];
      if row.digest == "" {
        if row.name != record && !IsBytecode(row.name) {
          assert !RowHolds(rows[i], installed, record, hash);
          return None;
        }
        continue;
      }
      if row.name !in installed || DecodeRecordHash(row.digest) != Some(hash(installed[row.name])) {
        assert !RowHolds(rows[i], installed, record, hash);
        return None;
      }
      if row.size != "" && ParseDecimal(row.size) != Some(|installed[row.name].bytes|) {
        assert !RowHolds(rows[i], installed, record, hash);
        return None;
      }
      verified := verified + 1;
    }
    assert rows[..|rows|] == rows;
    if verified < 1 {
      return None;
    }
    return Some(verified);
  }

  /** The one row of an entry holds exactly when the installed payload is that entry. */
  lemma {:induction false} BuiltRowHolds(name: Name, c: Content, installed: map<Name, Content>, record: Name,
      hash: Content -> seq<byte>)
    requires name in installed && hash(installed[name]) == hash(c) ==> installed[name] == c
    ensures RowHolds(BuiltRow(name, c, hash), installed, record, hash) <==> name in installed && installed[name] == c
  {
    RecordHashRoundTrip(hash(c));
    DecimalRoundTrip(|c.bytes|);
  }

  /** No two different contents that are compared share a hash. */
  ghost predicate CollisionFree(entries: map<Name, Content>, installed: map<Name, Content>,
      hash: Content -> seq<byte>) {
    forall n :: n in entries && n in installed && hash(installed[n]) == hash(entries[n]) ==> installed[n] == entries[n]
  }

  predicate Same(name: Name, entries: map<Name, Content>, installed: map<Name, Content>)
    requires name in entries
  {
    name in installed && installed[name] == entries[name]
  }

  ghost predicate AllSame(names: seq<Name>, record: Name, entries: map<Name, Content>, installed: map<Name, Content>)
    requires forall n :: n in names ==> n in entries
  {
    forall n :: n in names && n != record ==> Same(n, entries, installed)
  }

  predicate AllHold(rows: seq<Row>, installed: map<Name, Content>, record: Name, hash: Content -> seq<byte>) {
    forall i :: 0 <= i < |rows| ==> RowHolds(rows[i], installed, record, hash)
  }

  lemma {:induction false} AllHoldAppend(rows: seq<Row>, last: Row, installed: map<Name, Content>, record: Name,
      hash: Content -> seq<byte>)
    ensures AllHold(rows + [last], installed, record, hash) <==>
            AllHold(rows, installed, record, hash) && RowHolds(last, installed, record, hash)
    ensures Digested(rows + [last]) == Digested(rows) + if last.digest == "" then 0 else 1
  {
    var all := rows + [last];
    assert all[..|all| - 1] == rows && all[|rows|] == last;
    assert forall i :: 0 <= i < |rows| ==> all[i] == rows[i];
  }

  ghost predicate HasPayload(names: seq<Name>, record: Name) {
    exists n :: n in names && n != record
  }

  lemma {:induction false} NamesSplit(front: seq<Name>, last: Name, record: Name, entries: map<Name, Content>,
      installed: map<Name, Content>)
    requires forall n :: n in front + [last] ==> n in entries
    ensures last in entries && forall n :: n in front ==> n in entries
    ensures AllSame(front + [last], record, entries, installed) <==>
            AllSame(front, record, entries, installed) && (last != record ==> Same(last, entries, installed))
    ensures HasPayload(front + [last], record) <==> HasPayload(front, record) || last != record
  {
    var names := front + [last];
    assert last in names && forall n :: n in front ==> n in names;
  }

  lemma {:induction false} PayloadRowsSplit(front: seq<Name>, last: Name, record: Name, entries: map<Name, Content>,
      hash: Content -> seq<byte>)
    requires last in entries && (forall n :: n in front ==> n in entries)
    requires forall n :: n in front + [last] ==> n in entries
    ensures PayloadRows(entries, front + [last], record, hash) ==
            if last == record then PayloadRows(entries, front, record, hash)
            else PayloadRows(entries, front, record, hash) + [BuiltRow(last, entries[last], hash)]
  {
    var names := front + [last];
    assert names[..|names| - 1] == front && names[|names| - 1] == last;
  }

  lemma {:induction false} PayloadRowsHold(
    entries: map<Name, Content>, names: seq<Name>, record: Name, installed: map<Name, Content>,
    hash: Content -> seq<byte>)
    requires forall n :: n in names ==> n in entries
    requires CollisionFree(entries, installed, hash)
    ensures AllHold(PayloadRows(entries, names, record, hash), installed, record, hash) <==>
            AllSame(names, record, entries, installed)
    ensures Digested(PayloadRows(entries, names, record, hash)) >= 1 <==> HasPayload(names, record)
  {
    if names != [] {
      var front, last := names[..|names| - 1], names[|names| - 1];
      assert names == front + [last];
      NamesSplit(front, last, record, entries, installed);
      PayloadRowsSplit(front, last, record, entries, hash);
      PayloadRowsHold(entries, front, record, installed, hash);
      if last != record {
        BuiltRowHolds(last, entries[last], installed, record, hash);
        AllHoldAppend(PayloadRows(entries, front, record, hash), BuiltRow(last, entries[last], hash), installed, record,
          hash);
      }
    }
  }

  /** Main result: an installation verifies against the built rows exactly when there is a payload and
      every entry but the record itself is installed unchanged. */
  lemma {:induction false} RecordAgreement(
    entries: map<Name, Content>, names: seq<Name>, record: Name, installed: map<Name, Content>,
    hash: Content -> seq<byte>)
    requires forall n :: n in names <==> n in entries
    requires CollisionFree(entries, installed, hash)
    ensures Verifies(PayloadRows(entries, names, record, hash) + [Row(record, "", "")], installed, record, hash) <==>
            (exists n :: n in entries && n != record) &&
            forall n :: n in entries && n != record ==> Same(n, entries, installed)
  {
    var rows, last := PayloadRows(entries, names, record, hash), Row(record, "", "");
    PayloadRowsHold(entries, names, record, installed, hash);
    AllHoldAppend(rows, last, installed, record, hash);
    assert Verifies(rows + [last], installed, record, hash) <==>
           AllHold(rows + [last], installed, record, hash) && Digested(rows + [last]) >= 1;
  }
}
