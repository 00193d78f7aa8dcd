/** Publishing a fixed set of artifacts to an append-only registry: the upload planner and the
    classifiers that decide whether a release is exact, still propagating, or in conflict. */
module Publication {
  import opened Options

  datatype FileName = FileName(text: string)
  datatype Sha256 = Sha256(hex: string)

  /** The digest of each file, local or as the registry reports it. */
  type Digests = map<FileName, Sha256>

  /** What a registry lookup returned. */
  datatype Inspection = Absent | Pending | Existing(digests: Digests)

  /** `inspect_release`: `reported` is the registry's file list, or nothing when it does not know the
      release. A release whose files are not listed yet is pending. */
  function InspectRelease(reported: Option<Digests>): (r: Inspection)
    ensures r.Existing? <==> Held(reported) != map[]
    ensures r.Existing? ==> r.digests == Held(reported)
  {
    match reported
    case None => Absent
    case Some(digests) => if digests == map[] then Pending else Existing(digests)
  }

  /** What the registry holds. */
  function Held(reported: Option<Digests>): Digests {
    if reported.Some? then reported.value else map[]
  }

  // ---- The reference classification -----------------------------------------------------------

  datatype Verdict = Exact | Incomplete | Conflicting

  /** Everything the registry holds is one of ours, byte for byte. */
  predicate Consistent(local: Digests, remote: Digests) {
    forall f :: f in remote ==> f in local && remote[f] == local[f]
  }

  function Classify(local: Digests, remote: Digests): Verdict {
    if !Consistent(local, remote) then Conflicting
    else if remote == local then Exact
    else Incomplete
  }

  function MissingNames(local: Digests, remote: Digests): set<FileName> {
    local.Keys - remote.Keys
  }

  function ExtraNames(local: Digests, remote: Digests): set<FileName> {
    remote.Keys - local.Keys
  }

  function MismatchedNames(local: Digests, remote: Digests): set<FileName> {
    set f | f in local && f in remote && local[f] != remote[f]
  }

  // ---- The in-process comparison ---------------------------------------------------------------

  datatype Comparison = Matches | Retryable | Fatal

  /** `_is_eventually_complete_distribution_set`. */
  predicate IsEventuallyComplete(local: Digests, remote: Digests) {
    remote.Keys < local.Keys && forall f :: f in remote.Keys ==> local[f] == remote[f]
  }

  /** `_compare_digest_sets`. */
  function CompareDigestSets(local: Digests, remote: Digests): Comparison {
    if local.Keys != remote.Keys then
      if IsEventuallyComplete(local, remote) then Retryable else Fatal
    else if forall f :: f in local ==> remote[f] == local[f] then Matches
    else Fatal
  }

  lemma {:induction false} ComparisonIsClassification(local: Digests, remote: Digests)
    ensures CompareDigestSets(local, remote) ==
            match Classify(local, remote) case Exact => Matches case Incomplete => Retryable case Conflicting => Fatal
  {
    if Consistent(local, remote) {
      assert remote.Keys <= local.Keys;
      if remote.Keys == local.Keys {
        assert remote == local;
      }
    } else if local.Keys != remote.Keys && IsEventuallyComplete(local, remote) {
      assert Consistent(local, remote);
    }
  }

  // ---- The published check ------------------------------------------------------------------------

  datatype Published =
    | PublishedExact
    | NoRelease
    | NothingListed
    | NotExact(missing: set<FileName>, extra: set<FileName>, mismatched: set<FileName>)

  /** `assert_published_exact`. */
  function CheckPublished(local: Digests, reported: Option<Digests>): Published {
    match InspectRelease(reported)
    case Absent => NoRelease
    case Pending => NothingListed
    case Existing(remote) =>
      if remote == local then PublishedExact
      else NotExact(MissingNames(local, remote), ExtraNames(local, remote), MismatchedNames(local, remote))
  }

  /** The three reported sets say which of the three cases an existing release is in. */
  lemma {:induction false} ReportedSetsClassify(local: Digests, remote: Digests)
    ensures Classify(local, remote) == Conflicting
            <==> ExtraNames(local, remote) != {} || MismatchedNames(local, remote) != {}
    ensures Classify(local, remote) == Incomplete
            <==> MissingNames(local, remote) != {} && ExtraNames(local, remote) == {}
                 && MismatchedNames(local, remote) == {}
  {
    if !Consistent(local, remote) {
      var f :| f in remote && !(f in local && remote[f] == local[f]);
      if f in local {
        assert f in MismatchedNames(local, remote);
      } else {
        assert f in ExtraNames(local, remote);
      }
    } else {
      assert ExtraNames(local, remote) == {};
      assert MismatchedNames(local, remote) == {};
      if MissingNames(local, remote) == {} {
        assert remote.Keys == local.Keys;
        assert remote == local;
      }
    }
  }

  // ---- The upload planner ------------------------------------------------------------------------

  datatype Plan = Planned(files: seq<FileName>) | NotListedYet | Unexpected | DifferentBytes | Occupied(file: FileName)

  /** `order` lists exactly the local names, each once; the source uses the sorted names. */
  ghost predicate Enumerates(order: seq<FileName>, local: Digests) {
    (forall f :: f in local <==> f in order) && Distinct(order)
  }

  ghost predicate Distinct(names: seq<FileName>) {
    names == [] || (Distinct(names[..|names| - 1]) && names[|names| - 1] !in names[..|names| - 1])
  }

  lemma {:induction false} DistinctPrefix(names: seq<FileName>, i: nat)
    requires Distinct(names) && i < |names|
    ensures Distinct(names[..i]) && names[i] !in names[..i]
  {
    if i < |names| - 1 {
      DistinctPrefix(names[..|names| - 1], i);
      assert names[..|names| - 1][..i] == names[..i];
    }
  }

  function Without(order: seq<FileName>, remote: Digests): seq<FileName> {
    if order == [] then []
    else
      var before := Without(order[..|order| - 1], remote);
      if order[|order| - 1] in remote then before else before + [order[|order| - 1]]
  }

  /** `before` with a copy of every listed artifact the registry lacks. */
  ghost function Staged(before: Digests, order: seq<FileName>, local: Digests, remote: Digests): Digests
    requires forall f :: f in order ==> f in local
  {
    if order == [] then before
    else
      var last := order[|order| - 1];
      var rest := Staged(before, order[..|order| - 1], local, remote);
      if last in remote then rest else rest[last := local[last]]
  }

  lemma {:induction false} StagedHolds(before: Digests, order: seq<FileName>, local: Digests, remote: Digests)
    requires forall f :: f in order ==> f in local
    ensures var now := Staged(before, order, local, remote);
            && (forall f :: f in now <==> f in before || (f in order && f !in remote))
            && (forall f :: f in order && f !in remote ==> now[f] == local[f])
            && (forall f :: f in before && (f !in order || f in remote) ==> now[f] == before[f])
  {
    if order != [] {
      var front := order[..|order| - 1];
      StagedHolds(before, front, local, remote);
      assert order == front + [order[|order| - 1]];
    }
  }

  ghost predicate NothingInTheWay(before: Digests, order: seq<FileName>, remote: Digests) {
    forall i :: 0 <= i < |order| && order[i] !in remote ==> order[i] !in before
  }

  lemma {:induction false} StagedKeeps(before: Digests, order: seq<FileName>, local: Digests, remote: Digests)
    requires (forall f :: f in order ==> f in local) && NothingInTheWay(before, order, remote)
    ensures var now := Staged(before, order, local, remote);
            && (forall f :: f in before ==> f in now && now[f] == before[f])
            && (forall f :: f in order && f !in remote ==> f !in before && f in now && now[f] == local[f])
            && (forall f :: f in now <==> f in before || (f in order && f !in remote))
  {
    StagedHolds(before, order, local, remote);
  }

  /** The directory the planner copies the upload artifacts into. */
  class Staging {
    var files: Digests

    constructor (files: Digests)
      ensures this.files == files
    {
      this.files := files;
    }

    /** Copies every local artifact the registry lacks, refusing to overwrite. */
    method StageMissing(local: Digests, order: seq<FileName>, remote: Digests) returns (r: Plan, ghost reached: nat)
      requires Enumerates(order, local)
      modifies this
      ensures r.Planned? || r.Occupied?
      ensures reached <= |order| && NothingInTheWay(old(files), order[..reached], remote)
      ensures files == Staged(old(files), order[..reached], local, remote)
      ensures r.Planned? ==> reached == |order| && r.files == Without(order, remote)
      ensures r.Occupied? ==> r.file in MissingNames(local, remote) && r.file in old(files)
    {
      var planned: seq<FileName> := [];
      for i := 0 to |order|
        invariant planned == Without(order[..i], remote)
        invariant files == Staged(old(files), order[..i], local, remote)
        invariant NothingInTheWay(old(files), order[..i], remote)
      {
        var f := order[i];
        assert order[..i + 1][..i] == order[..i];
        if f !in remote {
          if f in files {
            StagedHolds(old(files), order[..i], local, remote);
            DistinctPrefix(order, i);
            return Occupied(f), i;
          }
          StagedHolds(old(files), order[..i], local, remote);
          files := files[f := local[f]];
          planned := planned + [f];
        }
      }
      assert order[..|order|] == order;
      return Planned(planned), |order|;
    }

    /** `plan_upload`, after the local set was selected. It fails exactly on a release without a file
        list, on a conflicting registry, or on a name that is already staged; the first two before
        copying anything. Otherwise it stages exactly the artifacts the registry lacks. A file that is
        already there is never overwritten. */
    method PlanUpload(local: Digests, order: seq<FileName>, reported: Option<Digests>) returns (r: Plan)
      requires Enumerates(order, local)
      modifies this
      ensures r.NotListedYet? <==> reported == Some(map[])
      ensures r.Unexpected? || r.DifferentBytes? <==> Classify(local, Held(reported)) == Conflicting
      ensures r.Unexpected? <==> ExtraNames(local, Held(reported)) != {}
      ensures r.Planned? <==> && reported != Some(map[]) && Classify(local, Held(reported)) != Conflicting
                              && MissingNames(local, Held(reported)) !! old(files).Keys
      ensures r.NotListedYet? || r.Unexpected? || r.DifferentBytes? ==> files == old(files)
      ensures r.Planned? ==>
                && r.files == Without(order, Held(reported))
                && (forall f :: f in MissingNames(local, Held(reported)) ==> f in files && files[f] == local[f])
                && files.Keys == old(files).Keys + MissingNames(local, Held(reported))
      ensures r.Occupied? ==> r.file in MissingNames(local, Held(reported)) && r.file in old(files)
      ensures forall f :: f in old(files) ==> f in files && files[f] == old(files)[f]
    {
      var inspection := InspectRelease(reported);
      var remote := Held(reported);
      if inspection.Pending? {
        return NotListedYet;
      }
      if ExtraNames(local, remote) != {} {
        assert !Consistent(local, remote) by {
          ReportedSetsClassify(local, remote);
        }
        return Unexpected;
      }
      if exists f :: f in remote && (f !in local || local[f] != remote[f]) {
        return DifferentBytes;
      }
      ghost var reached;
      r, reached := StageMissing(local, order, remote);
      StagedKeeps(old(files), order[..reached], local, remote);
      assert order[..|order|] == order;
    }
  }

  /** The plan is the missing names in order, each once. */
  lemma {:induction false} PlanIsTheMissing(order: seq<FileName>, local: Digests, remote: Digests)
    requires Enumerates(order, local)
    ensures forall f :: f in Without(order, remote) <==> f in MissingNames(local, remote)
    ensures Distinct(Without(order, remote))
  {
    WithoutElements(order, remote);
  }

  lemma {:induction false} WithoutElements(order: seq<FileName>, remote: Digests)
    requires Distinct(order)
    ensures forall f :: f in Without(order, remote) <==> f in order && f !in remote
    ensures Distinct(Without(order, remote))
  {
    if order != [] {
      var front := order[..|order| - 1];
      WithoutElements(front, remote);
      assert order == front + [order[|order| - 1]];
      var kept := Without(front, remote);
      assert (kept + [order[|order| - 1]])[..|kept|] == kept;
    }
  }

  // ---- Convergence -----------------------------------------------------------------------------------

  /** The registry after uploading the named local artifacts, in that order. It never replaces or
      removes a file, so an upload only ever adds. */
  ghost function AfterUploads(local: Digests, remote: Digests, uploads: seq<FileName>): Digests
    requires forall f :: f in uploads ==> f in local
  {
    if uploads == [] then remote
    else AfterUploads(local, remote, uploads[..|uploads| - 1])[uploads[|uploads| - 1] := local[uploads[|uploads| - 1]]]
  }

  lemma {:induction false} UploadsAdd(local: Digests, remote: Digests, uploads: seq<FileName>)
    requires Consistent(local, remote) && forall f :: f in uploads ==> f in local
    ensures var now := AfterUploads(local, remote, uploads);
            Consistent(local, now) && forall f :: f in now <==> f in remote || f in uploads
  {
    if uploads != [] {
      var front := uploads[..|uploads| - 1];
      UploadsAdd(local, remote, front);
      assert uploads == front + [uploads[|uploads| - 1]];
    }
  }

  /** From any state that is not in conflict, uploading planned artifacts in any order keeps the
      release incomplete until the last missing one is there, and then it is exact. A planner run
      in between plans exactly what is left. */
  lemma {:induction false} Convergence(local: Digests, remote: Digests, uploads: seq<FileName>)
    requires Classify(local, remote) != Conflicting
    requires forall f :: f in uploads ==> f in local && f in MissingNames(local, remote)
    ensures var now := AfterUploads(local, remote, uploads);
            && MissingNames(local, now) == MissingNames(local, remote) - (set f | f in uploads)
            && Classify(local, now) == if MissingNames(local, now) == {} then Exact else Incomplete
  {
    var now := AfterUploads(local, remote, uploads);
    UploadsAdd(local, remote, uploads);
    assert MissingNames(local, now) == MissingNames(local, remote) - (set f | f in uploads);
    ReportedSetsClassify(local, now);
  }

  /** A conflict cannot heal: whatever else an append-only registry gains, it stays a conflict. */
  lemma {:induction false} ConflictIsPermanent(local: Digests, remote: Digests, later: Digests)
    requires Classify(local, remote) == Conflicting
    requires forall f :: f in remote ==> f in later && later[f] == remote[f]
    ensures Classify(local, later) == Conflicting
  {
    var f :| f in remote && !(f in local && remote[f] == local[f]);
    assert f in later;
  }
}
