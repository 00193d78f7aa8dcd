/** The byte string hashed for the native implementation fingerprint: a tag, then for each source
    file in path order its length-framed path and length-framed normalised content. */
module ImplementationDigest {
  import opened Bytes
  import opened Sequences

  type File = (seq<byte>, seq<byte>)

  /** Width of every length field. The definitions below hold it as a parameter `w`. */
  const LENGTH_WIDTH: nat := 8

  const CR: byte := 13
  const LF: byte := 10

  /** Every CR LF pair becomes one LF. */
  function Normalise(content: seq<byte>): (r: seq<byte>)
    ensures |r| <= |content|
  {
    if content == [] then []
    else if |content| >= 2 && content[0] == CR && content[1] == LF then [LF] + Normalise(content[2..])
    else [content[0]] + Normalise(content[1..])
  }

  /** Both lengths fit `w` bytes; the source uses eight. */
  predicate Representable(w: nat, f: File) {
    |f.0| < Pow256(w) && |f.1| < Pow256(w)
  }

  function Framed(w: nat, data: seq<byte>): seq<byte> {
    BigEndian(|data|, w) + data
  }

  function FramedFile(w: nat, f: File): seq<byte> {
    Framed(w, f.0) + Framed(w, Normalise(f.1))
  }

  function DigestInput(w: nat, tag: seq<byte>, files: seq<File>): seq<byte> {
    if files == [] then tag else DigestInput(w, tag, files[..|files| - 1]) + FramedFile(w, files[|files| - 1])
  }

  /** The digest loop: four updates per file, after the fixed `tag`. */
  method FeedDigest(w: nat, tag: seq<byte>, files: seq<File>) returns (fed: seq<byte>)
    ensures fed == DigestInput(w, tag, files)
  {
    fed := tag;
    for i := 0 to |files|
      invariant fed == DigestInput(w, tag, files[..i])
    {
      var (name, raw) := files[i];
      var content := Normalise(raw);
      ghost var before := fed;
      fed := fed + BigEndian(|name|, w);
      fed := fed + name;
      fed := fed + BigEndian(|content|, w);
      fed := fed + content;
      assert fed == before + FramedFile(w, files[i]);
      assert files[..i + 1][..i] == files[..i];
    }
    assert files[..|files|] == files;
  }

  lemma {:induction false} FramedIsSelfDelimiting(w: nat, a: seq<byte>, b: seq<byte>, restA: seq<byte>,
      restB: seq<byte>)
    requires |a| < Pow256(w) && |b| < Pow256(w)
    requires Framed(w, a) + restA == Framed(w, b) + restB
    ensures a == b && restA == restB
  {
    var s := Framed(w, a) + restA;
    assert s[..w] == BigEndian(|a|, w) && s[..w] == BigEndian(|b|, w);
    BigEndianRoundTrip(|a|, w);
    BigEndianRoundTrip(|b|, w);
    assert s[w..w + |a|] == a && s[w..w + |b|] == b;
    assert s[w + |a|..] == restA && s[w + |b|..] == restB;
  }

  /** The frames of a list, first file first. */
  ghost function Frames(w: nat, files: seq<File>): seq<byte> {
    if files == [] then [] else FramedFile(w, files[0]) + Frames(w, files[1..])
  }

  lemma {:induction false} FramesAppend(w: nat, files: seq<File>, f: File)
    ensures Frames(w, files + [f]) == Frames(w, files) + FramedFile(w, f)
  {
    if files != [] {
      assert (files + [f])[1..] == files[1..] + [f];
      FramesAppend(w, files[1..], f);
      Assoc(FramedFile(w, files[0]), Frames(w, files[1..]), FramedFile(w, f));
    }
  }

  lemma {:induction false} InputIsTaggedFrames(w: nat, tag: seq<byte>, files: seq<File>)
    ensures DigestInput(w, tag, files) == tag + Frames(w, files)
  {
    if files != [] {
      var front := files[..|files| - 1];
      InputIsTaggedFrames(w, tag, front);
      FramesAppend(w, front, files[|files| - 1]);
      Assoc(tag, Frames(w, front), FramedFile(w, files[|files| - 1]));
      assert files == front + [files[|files| - 1]];
    }
  }

  ghost predicate SameFiles(a: seq<File>, b: seq<File>) {
    |a| == |b| && forall i :: 0 <= i < |a| ==> a[i].0 == b[i].0 && Normalise(a[i].1) == Normalise(b[i].1)
  }

  lemma {:induction false} FirstFileIsDetermined(w: nat, f: File, g: File, tailF: seq<byte>, tailG: seq<byte>)
    requires Representable(w, f) && Representable(w, g)
    requires FramedFile(w, f) + tailF == FramedFile(w, g) + tailG
    ensures f.0 == g.0 && Normalise(f.1) == Normalise(g.1) && tailF == tailG
  {
    var restF, restG := Framed(w, Normalise(f.1)) + tailF, Framed(w, Normalise(g.1)) + tailG;
    Assoc(Framed(w, f.0), Framed(w, Normalise(f.1)), tailF);
    Assoc(Framed(w, g.0), Framed(w, Normalise(g.1)), tailG);
    FramedIsSelfDelimiting(w, f.0, g.0, restF, restG);
    FramedIsSelfDelimiting(w, Normalise(f.1), Normalise(g.1), tailF, tailG);
  }

  ghost predicate AllRepresentable(w: nat, files: seq<File>) {
    forall i :: 0 <= i < |files| ==> Representable(w, files[i])
  }

  lemma {:induction false} FramesInjective(w: nat, a: seq<File>, b: seq<File>)
    requires w >= 1 && AllRepresentable(w, a) && AllRepresentable(w, b) && Frames(w, a) == Frames(w, b)
    ensures SameFiles(a, b)
  {
    if a != [] && b != [] {
      FirstFileIsDetermined(w, a[0], b[0], Frames(w, a[1..]), Frames(w, b[1..]));
      FramesInjective(w, a[1..], b[1..]);
      SameFilesCons(a, b);
    }
  }

  lemma {:induction false} SameFilesCons(a: seq<File>, b: seq<File>)
    requires a != [] && b != [] && SameFiles(a[1..], b[1..])
    requires a[0].0 == b[0].0 && Normalise(a[0].1) == Normalise(b[0].1)
    ensures SameFiles(a, b)
  {
    forall i | 0 <= i < |a| ensures a[i].0 == b[i].0 && Normalise(a[i].1) == Normalise(b[i].1) {
      if i > 0 {
        assert a[i] == a[1..][i - 1] && b[i] == b[1..][i - 1];
      }
    }
  }

  /** Two lists of any lengths feed the digest the same bytes exactly when they name the same files
      with the same contents up to line endings. */
  lemma {:induction false} DigestInputInjective(w: nat, tag: seq<byte>, a: seq<File>, b: seq<File>)
    requires w >= 1 && AllRepresentable(w, a) && AllRepresentable(w, b)
    ensures DigestInput(w, tag, a) == DigestInput(w, tag, b) <==> SameFiles(a, b)
  {
    InputIsTaggedFrames(w, tag, a);
    InputIsTaggedFrames(w, tag, b);
    if DigestInput(w, tag, a) == DigestInput(w, tag, b) {
      assert Frames(w, a) == DigestInput(w, tag, a)[|tag|..] && Frames(w, b) == DigestInput(w, tag, b)[|tag|..];
      FramesInjective(w, a, b);
    }
    if SameFiles(a, b) {
      SameFilesSameFrames(w, a, b);
    }
  }

  /** The same, for the width the source uses. */
  lemma {:induction false} FingerprintInputInjective(tag: seq<byte>, a: seq<File>, b: seq<File>)
    requires AllRepresentable(LENGTH_WIDTH, a) && AllRepresentable(LENGTH_WIDTH, b)
    ensures DigestInput(LENGTH_WIDTH, tag, a) == DigestInput(LENGTH_WIDTH, tag, b) <==> SameFiles(a, b)
  {
    DigestInputInjective(LENGTH_WIDTH, tag, a, b);
  }

  lemma {:induction false} SameFilesSameFrames(w: nat, a: seq<File>, b: seq<File>)
    requires SameFiles(a, b)
    ensures Frames(w, a) == Frames(w, b)
  {
    if a != [] {
      assert SameFiles(a[1..], b[1..]);
      SameFilesSameFrames(w, a[1..], b[1..]);
    }
  }

  /** The same text with CR LF line ends. */
  ghost function WithCrLf(text: seq<byte>): seq<byte> {
    if text == [] then [] else (if text[0] == LF then [CR, LF] else [text[0]]) + WithCrLf(text[1..])
  }

  /** A text without stray carriage returns feeds the same bytes whichever line ends it was
      checked out with. */
  lemma {:induction false} LineEndsDoNotMatter(text: seq<byte>)
    requires CR !in text
    ensures Normalise(WithCrLf(text)) == text == Normalise(text)
  {
    if text != [] {
      LineEndsDoNotMatter(text[1..]);
      var s := WithCrLf(text);
      if text[0] == LF {
        assert s[2..] == WithCrLf(text[1..]);
      } else {
        assert s[1..] == WithCrLf(text[1..]);
      }
    }
  }
}
