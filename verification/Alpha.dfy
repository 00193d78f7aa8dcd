/** Alpha release trains: the next alpha number computed from the registry, against the validator that
    a release has to pass. Versions have three-part releases. */
module Alpha {
  import opened Options

  datatype Phase = AlphaPhase | BetaPhase | CandidatePhase
  datatype Pre = Pre(phase: Phase, number: nat)
  datatype Release = Release(major: nat, minor: nat, patch: nat)

  /** A parsed version (PEP 440). */
  datatype Version = Version(
    epoch: nat, release: Release, pre: Option<Pre>, post: Option<nat>, dev: Option<nat>, local: Option<string>)

  /** A version text: not a version, or one, written canonically or not. */
  datatype Text = Invalid | Parsed(version: Version, canonical: bool)

  // ---- The computer -----------------------------------------------------------------------------------

  datatype Train = Train22 | Train30 | Train31

  function ReleaseOf(train: Train): Release {
    match train
    case Train22 => Release(2, 2, 0)
    case Train30 => Release(3, 0, 1)
    case Train31 => Release(3, 1, 0)
  }

  datatype Seen = Skip | Refuse | Number(n: nat)

  /** One turn of the loop over the existing versions. */
  function Look(release: Release, text: Text): Seen {
    if text.Invalid? then Refuse
    else
      var v := text.version;
      if !text.canonical || v.local.Some? then Refuse
      else if v.release != release then Skip
      else if v.post.Some? then Refuse
      else if v.pre.None? && v.dev.None? && v.post.None? then Refuse
      else if v.pre.Some? && v.pre.value.phase != AlphaPhase then Refuse
      else if v.pre.Some? && v.dev.Some? then Refuse
      else if v.pre.Some? then Number(v.pre.value.number)
      else Skip
  }

  predicate Open(release: Release, existing: seq<Text>) {
    forall t :: t in existing ==> !Look(release, t).Refuse?
  }

  function Numbers(release: Release, existing: seq<Text>): seq<nat> {
    if existing == [] then []
    else
      var last := Look(release, existing[|existing| - 1]);
      Numbers(release, existing[..|existing| - 1]) + if last.Number? then [last.n] else []
  }

  /** `_alpha_versions`; `None` when it raises. */
  method AlphaVersions(train: Train, existing: seq<Text>) returns (r: Option<seq<nat>>)
    ensures r == if Open(ReleaseOf(train), existing) then Some(Numbers(ReleaseOf(train), existing)) else None
  {
    var release := ReleaseOf(train);
    var numbers: seq<nat> := [];
    for i := 0 to |existing|
      invariant forall j :: 0 <= j < i ==> !Look(release, existing[j]).Refuse?
      invariant numbers == Numbers(release, existing[..i])
    {
      assert existing[..i + 1][..i] == existing[..i];
      match Look(release, existing[i])
      case Refuse =>
        assert existing[i] in existing;
        return None;
      case Number(n) => numbers := numbers + [n];
      case Skip =>
    }
    assert existing[..|existing|] == existing;
    return Some(numbers);
  }

  function Max(numbers: seq<nat>): (m: nat)
    ensures forall n :: n in numbers ==> n <= m
    ensures m == 0 || m in numbers
  {
    if numbers == [] then 0
    else
      var front, last := Max(numbers[..|numbers| - 1]), numbers[|numbers| - 1];
      assert forall n :: n in numbers ==> n in numbers[..|numbers| - 1] || n == last;
      if front < last then last else front
  }

  function AlphaOf(release: Release, n: nat): Version {
    Version(0, release, Some(Pre(AlphaPhase, n)), None, None, None)
  }

  /** `compute_alpha_release_version`; `None` when it raises. */
  function Compute(train: Train, existing: seq<Text>): Option<Version> {
    var release := ReleaseOf(train);
    if Open(release, existing) then Some(AlphaOf(release, Max(Numbers(release, existing)) + 1)) else None
  }

  // ---- The validator ------------------------------------------------------------------------------------

  datatype Branch = Branch21 | Branch22 | Branch30 | Branch31 | OtherBranch

  function BranchRelease(b: Branch): Option<Release> {
    match b
    case Branch21 => Some(Release(2, 1, 0))
    case Branch22 => Some(Release(2, 2, 0))
    case Branch30 => Some(Release(3, 0, 1))
    case Branch31 => Some(Release(3, 1, 0))
    case OtherBranch => None
  }

  function BranchOf(train: Train): Branch {
    match train case Train22 => Branch22 case Train30 => Branch30 case Train31 => Branch31
  }

  datatype Channel = AlphaChannel | StableChannel
  datatype Ref = OfBranch(b: Branch) | OfTag(version: Version) | OtherRef

  /** `_is_train_alpha`. */
  predicate IsTrainAlpha(v: Version, release: Release) {
    && v.epoch == 0 && v.release == release
    && v.pre.Some? && v.pre.value.phase == AlphaPhase && v.pre.value.number >= 1
    && v.dev.None? && v.post.None? && v.local.None?
  }

  /** `_is_train_stable`. */
  predicate IsTrainStable(v: Version, release: Release) {
    v.epoch == 0 && v.release == release && v.pre.None? && v.dev.None? && v.post.None? && v.local.None?
  }

  /** The order of versions without a local part. */
  predicate NotAfter(a: Version, b: Version) {
    if a.epoch != b.epoch then a.epoch < b.epoch
    else if a.release != b.release then ReleaseBefore(a.release, b.release)
    else if PreRank(a) != PreRank(b) then PreRank(a) < PreRank(b)
    else if PreNumber(a) != PreNumber(b) then PreNumber(a) < PreNumber(b)
    else if a.post != b.post then a.post.None? || (b.post.Some? && a.post.value < b.post.value)
    else a.dev == b.dev || b.dev.None? || (a.dev.Some? && a.dev.value < b.dev.value)
  }

  predicate ReleaseBefore(a: Release, b: Release) {
    a.major < b.major || (a.major == b.major && (a.minor < b.minor || (a.minor == b.minor && a.patch < b.patch)))
  }

  /** A development release of a final version comes before its alphas, the final version after its candidates. */
  function PreRank(v: Version): nat {
    match v.pre
    case Some(p) => (match p.phase case AlphaPhase => 1 case BetaPhase => 2 case CandidatePhase => 3)
    case None => if v.post.None? && v.dev.Some? then 0 else 4
  }

  function PreNumber(v: Version): nat {
    match v.pre case Some(p) => p.number case None => 0
  }

  predicate Superseded(v: Version, release: Release, existing: seq<Text>) {
    exists t :: t in existing && t.Parsed? && IsTrainAlpha(t.version, release) && NotAfter(v, t.version)
  }

  /** `validate_release_train`, from the train lookup on: whether the release is accepted. */
  predicate Accepted(text: Text, b: Branch, channel: Channel, existing: seq<Text>, actual: Option<Ref>) {
    && BranchRelease(b).Some?
    && (channel == StableChannel ==> b == Branch22)
    && text.Parsed? && text.canonical
    && var v, release := text.version, BranchRelease(b).value;
    && (if channel == AlphaChannel then IsTrainAlpha(v, release) else IsTrainStable(v, release))
    && (if channel == AlphaChannel then actual in {None, Some(OfBranch(b))} else actual == Some(OfTag(v)))
    && (forall t :: t in existing ==> t.Parsed?)
    && (forall t :: t in existing ==> t.version != v)
    && (channel == AlphaChannel ==> !Superseded(v, release, existing))
  }

  // ---- They agree ----------------------------------------------------------------------------------------

  lemma {:induction false} NumbersAre(release: Release, existing: seq<Text>, n: nat)
    ensures n in Numbers(release, existing) <==> exists t :: t in existing && Look(release, t) == Number(n)
  {
    if existing != [] {
      var front, last := existing[..|existing| - 1], existing[|existing| - 1];
      NumbersAre(release, front, n);
      assert existing == front + [last];
      if exists t :: t in front && Look(release, t) == Number(n) {
        var t :| t in front && Look(release, t) == Number(n);
        assert t in existing;
      }
      if Look(release, last) == Number(n) {
        assert last in existing;
      }
    }
  }

  /** Among alphas of one train, the order is the order of their numbers. */
  lemma {:induction false} AlphasByNumber(v: Version, w: Version, release: Release)
    requires IsTrainAlpha(v, release) && IsTrainAlpha(w, release)
    ensures NotAfter(v, w) <==> v.pre.value.number <= w.pre.value.number
  {
  }

  /** The alpha numbers the validator accepts: those above every existing alpha of epoch 0. */
  lemma {:induction false} AcceptsAbove(train: Train, existing: seq<Text>, n: nat)
    requires Open(ReleaseOf(train), existing)
    ensures Accepted(Parsed(AlphaOf(ReleaseOf(train), n), true), BranchOf(train), AlphaChannel, existing, None) <==>
            n >= 1 && forall t :: t in existing && IsTrainAlpha(t.version, ReleaseOf(train)) ==>
              t.version.pre.value.number < n
  {
    var release, v := ReleaseOf(train), AlphaOf(ReleaseOf(train), n);
    forall t | t in existing && IsTrainAlpha(t.version, release) && n >= 1
      ensures NotAfter(v, t.version) <==> n <= t.version.pre.value.number
    {
      AlphasByNumber(v, t.version, release);
    }
  }

  /** Main result: what the computer computes, the validator accepts, from the train's own branch. */
  lemma {:induction false} ComputedIsAccepted(train: Train, existing: seq<Text>)
    requires Compute(train, existing).Some?
    ensures var text := Parsed(Compute(train, existing).value, true);
            && Accepted(text, BranchOf(train), AlphaChannel, existing, None)
            && Accepted(text, BranchOf(train), AlphaChannel, existing, Some(OfBranch(BranchOf(train))))
  {
    var release := ReleaseOf(train);
    var m := Max(Numbers(release, existing));
    forall t | t in existing && IsTrainAlpha(t.version, release) ensures t.version.pre.value.number < m + 1 {
      assert Look(release, t) == Number(t.version.pre.value.number);
      NumbersAre(release, existing, t.version.pre.value.number);
    }
    AcceptsAbove(train, existing, m + 1);
  }

  /** The largest number is taken in epoch 0, or none is. The computer does not look at the epoch. */
  ghost predicate TopIsPlain(release: Release, existing: seq<Text>) {
    var m := Max(Numbers(release, existing));
    m == 0 || exists t :: t in existing && t.Parsed? && Look(release, t) == Number(m) && t.version.epoch == 0
  }

  ghost predicate IsLeastAccepted(train: Train, existing: seq<Text>, n: nat) {
    var release := ReleaseOf(train);
    && Accepted(Parsed(AlphaOf(release, n), true), BranchOf(train), AlphaChannel, existing, None)
    && forall k :: 0 <= k < n ==>
       !Accepted(Parsed(AlphaOf(release, k), true), BranchOf(train), AlphaChannel, existing, None)
  }

  /** The computed number is the least the validator accepts exactly when no alpha of another epoch is on top. */
  lemma {:induction false} ComputedIsLeast(train: Train, existing: seq<Text>)
    requires Compute(train, existing).Some?
    ensures IsLeastAccepted(train, existing, Compute(train, existing).value.pre.value.number) <==>
            TopIsPlain(ReleaseOf(train), existing)
  {
    var release := ReleaseOf(train);
    var m := Max(Numbers(release, existing));
    ComputedIsAccepted(train, existing);
    if TopIsPlain(release, existing) {
      forall k | 0 <= k < m + 1
        ensures !Accepted(Parsed(AlphaOf(release, k), true), BranchOf(train), AlphaChannel, existing, None)
      {
        AcceptsAbove(train, existing, k);
      }
    } else {
      forall t | t in existing && IsTrainAlpha(t.version, release) ensures t.version.pre.value.number < m {
        assert Look(release, t) == Number(t.version.pre.value.number);
        NumbersAre(release, existing, t.version.pre.value.number);
      }
      AcceptsAbove(train, existing, m);
    }
  }

  /** One such registry: the computer goes past an alpha that the validator does not count. */
  lemma {:induction false} OtherEpochIsCounted(train: Train, epoch: nat, n: nat)
    requires epoch > 0 && n > 0
    ensures var other := Parsed(AlphaOf(ReleaseOf(train), n).(epoch := epoch), true);
            && Compute(train, [other]) == Some(AlphaOf(ReleaseOf(train), n + 1))
            && IsLeastAccepted(train, [other], 1)
  {
    var release, other := ReleaseOf(train), Parsed(AlphaOf(ReleaseOf(train), n).(epoch := epoch), true);
    OneNumber(release, other, n);
    AcceptsAbove(train, [other], 0);
    AcceptsAbove(train, [other], 1);
  }

  lemma {:induction false} OneNumber(release: Release, text: Text, n: nat)
    requires Look(release, text) == Number(n)
    ensures Open(release, [text]) && Numbers(release, [text]) == [n] && Max(Numbers(release, [text])) == n
  {
    var existing := [text];
    assert existing[|existing| - 1] == text && existing[..|existing| - 1] == [];
    assert Numbers(release, existing) == Numbers(release, []) + [n];
    assert n in [n];
  }

  // ---- Over many releases -----------------------------------------------------------------------------------

  /** A run of releases: each is computed from the registry that holds the ones before it. */
  ghost predicate Published(train: Train, existing: seq<Text>, run: seq<Version>)
    decreases |run|
  {
    run == [] ||
    (Compute(train, existing) == Some(run[0]) && Published(train, existing + [Parsed(run[0], true)], run[1..]))
  }

  lemma {:induction false} PublishOne(train: Train, existing: seq<Text>, n: nat)
    requires Compute(train, existing) == Some(AlphaOf(ReleaseOf(train), n))
    ensures Compute(train, existing + [Parsed(AlphaOf(ReleaseOf(train), n), true)])
            == Some(AlphaOf(ReleaseOf(train), n + 1))
  {
    var release, published := ReleaseOf(train), Parsed(AlphaOf(ReleaseOf(train), n), true);
    var after := existing + [published];
    assert after[..|after| - 1] == existing && after[|after| - 1] == published;
    assert Look(release, published) == Number(n);
    assert Numbers(release, after) == Numbers(release, existing) + [n];
    assert n in Numbers(release, after);
  }

  /** The alphas `first`, `first + 1`, ... */
  function Alphas(release: Release, first: nat, rounds: nat): (r: seq<Version>)
    ensures |r| == rounds
    decreases rounds
  {
    if rounds == 0 then [] else [AlphaOf(release, first)] + Alphas(release, first + 1, rounds - 1)
  }

  /** Main result: repeated computing and publishing goes on for ever and gives consecutive alphas. */
  lemma {:induction false} PublishedAreConsecutive(train: Train, existing: seq<Text>, first: nat, run: seq<Version>)
    requires Compute(train, existing) == Some(AlphaOf(ReleaseOf(train), first))
    ensures Published(train, existing, run) <==> run == Alphas(ReleaseOf(train), first, |run|)
    decreases |run|
  {
    if run != [] && run[0] == AlphaOf(ReleaseOf(train), first) {
      PublishOne(train, existing, first);
      PublishedAreConsecutive(train, existing + [Parsed(run[0], true)], first + 1, run[1..]);
      assert run == [run[0]] + run[1..];
    }
  }

  /** A train that is closed stays closed, whatever is published later. */
  lemma {:induction false} ClosedStaysClosed(train: Train, existing: seq<Text>, more: seq<Text>)
    requires Compute(train, existing).None?
    ensures Compute(train, existing + more).None?
  {
    var t :| t in existing && Look(ReleaseOf(train), t).Refuse?;
    assert t in existing + more;
  }

  /** Publishing a stable release that the validator accepts closes its train. */
  lemma {:induction false} StableCloses(text: Text, b: Branch, existing: seq<Text>, actual: Option<Ref>, train: Train,
      more: seq<Text>)
    requires Accepted(text, b, StableChannel, existing, actual) && BranchOf(train) == b
    ensures Compute(train, existing + [text] + more).None?
  {
    var all := existing + [text] + more;
    assert all[|existing|] == text;
    assert Look(ReleaseOf(train), text).Refuse?;
  }
}
