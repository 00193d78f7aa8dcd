/** Claim notices on merged contributions: which identities may be invited, and the comments a run
    posts, refreshes or withdraws, over any number of runs. */
module ClaimNotices {
  import opened Options

  datatype ExtensionId = ExtensionId(text: string)
  datatype AccountId = AccountId(digits: string)

  /** A publisher listing: rejected by the listing contract, or the accounts it accepts. */
  datatype Listing = Invalid | Accepts(ids: seq<AccountId>)

  /** What the repository shows for one candidate extension: its listing at the merge commit, before
      the merge and at the tip of the default branch, and where its native contribution exists. */
  datatype View = View(
    extension: ExtensionId,
    contributionChanged: bool, listingChanged: bool,
    atMerge: Option<Listing>, before: Option<Listing>, atTip: Option<Listing>,
    nativeAtMerge: bool, nativeBefore: bool, nativeAtTip: bool)

  datatype Status = NoMapping | SourceNotCurrent | EligibleForNotice
  datatype Record = Record(extension: ExtensionId, status: Status, missingMapping: bool)
  datatype Item = Item(extension: ExtensionId, ids: seq<AccountId>)

  // ---- Planning ----------------------------------------------------------------------------------

  predicate AcceptsAny(l: Option<Listing>) {
    l.Some? && l.value.Accepts? && l.value.ids != []
  }

  function Keep(ids: seq<AccountId>, wanted: set<AccountId>): (r: seq<AccountId>)
    ensures forall a :: a in r <==> a in ids && a in wanted
  {
    if ids == [] then []
    else
      var rest := Keep(ids[..|ids| - 1], wanted);
      assert ids == ids[..|ids| - 1] + [ids[|ids| - 1]];
      if ids[|ids| - 1] in wanted then rest + [ids[|ids| - 1]] else rest
  }

  function Drop(ids: seq<AccountId>, unwanted: set<AccountId>): (r: seq<AccountId>)
    ensures forall a :: a in r <==> a in ids && a !in unwanted
  {
    Keep(ids, (set a | a in ids) - unwanted)
  }

  function IdSet(ids: seq<AccountId>): set<AccountId> {
    set a | a in ids
  }

  datatype Candidate = Noted(record: Record) | Invited(item: Item) | Broken

  /** The identities a merge newly authorises, before the current authority is consulted; `None`
      when a listing it must read is invalid. */
  function NotifyIds(v: View): Option<seq<AccountId>>
    requires AcceptsAny(v.atMerge)
  {
    var merged := v.atMerge.value.ids;
    if !v.nativeBefore then Some(merged)
    else if !v.listingChanged then Some([])
    else match v.before
      case None => Some(merged)
      case Some(Invalid) => None
      case Some(Accepts(previous)) => Some(Drop(merged, IdSet(previous)))
  }

  /** One turn of the planning loop. */
  function PlanOne(v: View): Candidate {
    if v.atMerge == Some(Invalid) then Broken
    else if !AcceptsAny(v.atMerge) then
      Noted(Record(v.extension, NoMapping, v.contributionChanged && !v.nativeBefore))
    else if !v.nativeAtMerge then Broken
    else if !v.nativeAtTip then Noted(Record(v.extension, SourceNotCurrent, false))
    else if NotifyIds(v).None? then Broken
    else if NotifyIds(v).value == [] then Noted(Record(v.extension, NoMapping, false))
    else match v.atTip
      case None => Noted(Record(v.extension, SourceNotCurrent, false))
      case Some(Invalid) => Noted(Record(v.extension, SourceNotCurrent, false))
      case Some(Accepts(current)) =>
        var revalidated := Keep(NotifyIds(v).value, IdSet(current));
        if revalidated == [] then Noted(Record(v.extension, SourceNotCurrent, false))
        else Invited(Item(v.extension, revalidated))
  }

  function RecordOf(c: Candidate): Record
    requires !c.Broken?
  {
    match c case Noted(r) => r case Invited(i) => Record(i.extension, EligibleForNotice, false)
  }

  datatype Plan = Plan(items: seq<Item>, records: seq<Record>)

  /** The plan of a list of candidates, none of which breaks the run. */
  function PlanAll(views: seq<View>): Plan
    requires forall v :: v in views ==> !PlanOne(v).Broken?
  {
    if views == [] then Plan([], [])
    else
      var front, last := PlanAll(views[..|views| - 1]), PlanOne(views[|views| - 1]);
      Plan(if last.Invited? then front.items + [last.item] else front.items, front.records + [RecordOf(last)])
  }

  /** `_plan_notice_items`, from the candidate loop on. */
  method PlanNoticeItems(views: seq<View>) returns (r: Option<Plan>)
    ensures r.None? <==> exists v :: v in views && PlanOne(v).Broken?
    ensures r.Some? ==> r.value == PlanAll(views)
  {
    var items: seq<Item>, records: seq<Record> := [], [];
    for i := 0 to |views|
      invariant forall v :: v in views[..i] ==> !PlanOne(v).Broken?
      invariant Plan(items, records) == PlanAll(views[..i])
    {
      var c := PlanOne(views[i]);
      assert views[i] in views;
      if c.Broken? {
        return None;
      }
      assert views[..i + 1][..i] == views[..i] && views[..i + 1] == views[..i] + [views[i]];
      records := records + [RecordOf(c)];
      if c.Invited? {
        items := items + [c.item];
      }
    }
    assert views[..|views|] == views;
    return Some(Plan(items, records));
  }

  /** The current authority for an invitation: accepted when merged and still accepted, and new if
      the contribution was already there. */
  ghost predicate MayInvite(v: View, a: AccountId) {
    && AcceptsAny(v.atMerge) && a in v.atMerge.value.ids
    && AcceptsAny(v.atTip) && a in v.atTip.value.ids
    && v.nativeAtMerge && v.nativeAtTip
    && (v.nativeBefore ==>
          v.listingChanged && (v.before.Some? ==> v.before.value.Accepts? && a !in v.before.value.ids))
  }

  /** A candidate invites exactly the identities that may be invited, in listing order. */
  lemma {:induction false} InvitesExactly(v: View)
    requires !PlanOne(v).Broken?
    ensures PlanOne(v).Invited? <==> exists a :: MayInvite(v, a)
    ensures PlanOne(v).Invited? ==> forall a :: a in PlanOne(v).item.ids <==> MayInvite(v, a)
  {
    if AcceptsAny(v.atMerge) && v.nativeAtMerge && v.nativeAtTip && v.atTip.Some? && v.atTip.value.Accepts? {
      var revalidated := Keep(NotifyIds(v).value, IdSet(v.atTip.value.ids));
      forall a ensures a in revalidated <==> MayInvite(v, a) {
        assert a in IdSet(v.atTip.value.ids) <==> a in v.atTip.value.ids;
      }
      if revalidated != [] {
        assert MayInvite(v, revalidated[0]);
      }
    }
  }

  lemma {:induction false} PlannedItems(views: seq<View>, item: Item)
    requires forall v :: v in views ==> !PlanOne(v).Broken?
    requires item in PlanAll(views).items
    ensures exists v :: v in views && v.extension == item.extension && forall a :: a in item.ids <==> MayInvite(v, a)
  {
    var last := views[|views| - 1];
    if PlanOne(last) == Invited(item) {
      InvitesExactly(last);
      assert last in views && last.extension == item.extension;
    } else {
      PlannedItems(views[..|views| - 1], item);
      var v :| v in views[..|views| - 1] && v.extension == item.extension
        && forall a :: a in item.ids <==> MayInvite(v, a);
      assert v in views;
    }
  }

  // ---- Comments -------------------------------------------------------------------------------------

  /** A comment body: the three bodies this tool writes, or anything else, of which only the presence
      of the two markers matters. */
  datatype Body =
    | Notice(items: seq<Item>, logins: seq<Option<string>>, studio: string)
    | Withdrawn
    | Guidance(extensions: seq<ExtensionId>)
    | Text(noticeMarker: bool, guidanceMarker: bool, text: string)

  predicate HasNoticeMarker(b: Body) {
    b.Notice? || b.Withdrawn? || (b.Text? && b.noticeMarker)
  }

  predicate HasGuidanceMarker(b: Body) {
    b.Guidance? || (b.Text? && b.guidanceMarker)
  }

  /** `trusted`: posted by the workflow's own bot account. */
  datatype Comment = Comment(id: int, trusted: bool, body: Body)

  predicate IsTrustedNotice(c: Comment) {
    c.trusted && HasNoticeMarker(c.body)
  }

  predicate IsTrustedGuidance(c: Comment) {
    c.trusted && HasGuidanceMarker(c.body)
  }

  /** `trusted_notice_comment`: the index of the first one. */
  function FirstTrustedNotice(comments: seq<Comment>): (r: Option<nat>)
    ensures r.Some? ==> r.value < |comments| && IsTrustedNotice(comments[r.value])
    ensures r.Some? ==> forall i :: 0 <= i < r.value ==> !IsTrustedNotice(comments[i])
    ensures r.None? ==> forall i :: 0 <= i < |comments| ==> !IsTrustedNotice(comments[i])
  {
    if comments == [] then None
    else if IsTrustedNotice(comments[0]) then Some(0)
    else match FirstTrustedNotice(comments[1..]) case None => None case Some(k) => Some(k + 1)
  }

  predicate GuidanceExists(comments: seq<Comment>) {
    exists i :: 0 <= i < |comments| && IsTrustedGuidance(comments[i])
  }

  ghost predicate DistinctIds(comments: seq<Comment>) {
    forall i, j :: 0 <= i < j < |comments| ==> comments[i].id != comments[j].id
  }

  datatype Flags = Flags(dryRun: bool, refresh: bool, reportOnly: bool)

  /** What one run finds outside the comments. `eligible` is false when the pull request is not a
      merged one on the canonical branch; `portal` is `None` when no readiness URL is configured. */
  datatype World = World(
    eligible: bool, views: seq<View>, renamesExcluded: bool, portal: Option<bool>,
    logins: seq<Option<string>>, studio: string)

  /** `current_unmapped_contributions`. */
  predicate StillUnmapped(v: View) {
    && !PlanOne(v).Broken? && RecordOf(PlanOne(v)).missingMapping
    && v.nativeAtMerge && v.nativeAtTip
    && (v.atTip.None? || v.atTip == Some(Accepts([])))
  }

  function Unmapped(views: seq<View>): seq<ExtensionId> {
    if views == [] then []
    else
      var last := views[|views| - 1];
      Unmapped(views[..|views| - 1]) + if StillUnmapped(last) then [last.extension] else []
  }

  // ---- One run -----------------------------------------------------------------------------------------

  function FreshId(comments: seq<Comment>): (n: int)
    ensures n > 0 && forall i :: 0 <= i < |comments| ==> comments[i].id < n
  {
    if comments == [] then 1
    else
      var rest := FreshId(comments[..|comments| - 1]);
      if comments[|comments| - 1].id >= rest then comments[|comments| - 1].id + 1 else rest
  }

  function Post(comments: seq<Comment>, body: Body): seq<Comment> {
    comments + [Comment(FreshId(comments), true, body)]
  }

  function Updated(c: Comment, id: int, body: Body): Comment {
    if c.id == id then c.(body := body) else c
  }

  /** The GitHub call replaces the body of the comment with this id. */
  function Update(comments: seq<Comment>, id: int, body: Body): (r: seq<Comment>)
    ensures |r| == |comments|
    ensures forall i :: 0 <= i < |comments| ==> r[i] == Updated(comments[i], id, body)
  {
    seq(|comments|, i requires 0 <= i < |comments| => Updated(comments[i], id, body))
  }

  lemma {:induction false} UpdateFront(comments: seq<Comment>, id: int, body: Body)
    requires comments != []
    ensures var n := |comments| - 1;
            Update(comments, id, body) == Update(comments[..n], id, body) + [Updated(comments[n], id, body)]
  {
  }

  predicate RunBreaks(w: World) {
    w.eligible && exists v :: v in w.views && PlanOne(v).Broken?
  }

  function RunPlan(w: World): Plan
    requires !RunBreaks(w)
  {
    if w.eligible then PlanAll(w.views) else Plan([], [])
  }

  predicate PortalBlocks(w: World)
    requires !RunBreaks(w)
  {
    RunPlan(w).items != [] && w.portal == Some(false)
  }

  function DeliveredItems(w: World): seq<Item>
    requires !RunBreaks(w)
  {
    if PortalBlocks(w) then [] else RunPlan(w).items
  }

  function NoticeBody(w: World): Body
    requires !RunBreaks(w)
  {
    Notice(DeliveredItems(w), w.logins, w.studio)
  }

  /** Nothing is eligible any more, and that is known, not just unavailable. */
  predicate NothingEligible(w: World)
    requires !RunBreaks(w)
  {
    && DeliveredItems(w) == [] && !PortalBlocks(w) && !w.renamesExcluded
    && RunPlan(w).records != []
    && forall i :: 0 <= i < |RunPlan(w).records| ==> !RunPlan(w).records[i].status.EligibleForNotice?
  }

  /** The comments after the guidance step. */
  function WithGuidance(comments: seq<Comment>, w: World, f: Flags): seq<Comment>
    requires !RunBreaks(w)
  {
    if w.eligible && Unmapped(w.views) != [] && !GuidanceExists(comments) && !f.dryRun
    then Post(comments, Guidance(Unmapped(w.views)))
    else comments
  }

  /** The body a run wants its notice to have, if it wants to write one. */
  function WantedBody(comments: seq<Comment>, w: World, f: Flags): Option<Body>
    requires !RunBreaks(w)
  {
    var existing := FirstTrustedNotice(comments).Some?;
    if DeliveredItems(w) != [] && (!existing || (f.refresh && !w.renamesExcluded)) then Some(NoticeBody(w))
    else if f.refresh && existing && NothingEligible(w) then Some(Withdrawn)
    else None
  }

  /** Bringing the notice to this body: posted if there was none, else updated by its id if it differs. */
  function Write(guided: seq<Comment>, existing: Option<Comment>, body: Body): seq<Comment> {
    match existing
    case None => Post(guided, body)
    case Some(c) => if c.id <= 0 || c.body == body then guided else Update(guided, c.id, body)
  }

  function Existing(comments: seq<Comment>): Option<Comment> {
    match FirstTrustedNotice(comments) case None => None case Some(k) => Some(comments[k])
  }

  /** `process`: the comments afterwards. A run that raises keeps what it had written by then. */
  function Run(comments: seq<Comment>, w: World, f: Flags): seq<Comment> {
    if f.reportOnly || RunBreaks(w) then comments
    else
      var guided, wanted := WithGuidance(comments, w, f), WantedBody(comments, w, f);
      if wanted.None? || f.dryRun then guided else Write(guided, Existing(comments), wanted.value)
  }

  /** When `process` ends in an error: the plan breaks, or the notice to bring up to date has no usable id. */
  predicate RunRaises(comments: seq<Comment>, w: World, f: Flags) {
    !f.reportOnly &&
    (RunBreaks(w) ||
     (var wanted, existing := WantedBody(comments, w, f), Existing(comments);
      && !f.dryRun && wanted.Some? && existing.Some? && existing.value.id <= 0
      && (wanted.value.Notice? || existing.value.body != wanted.value)))
  }

  class PullRequest {
    var comments: seq<Comment>

    constructor (comments: seq<Comment>)
      ensures this.comments == comments
    {
      this.comments := comments;
    }

    method PostComment(body: Body)
      modifies this
      ensures comments == Post(old(comments), body)
    {
      comments := comments + [Comment(FreshId(comments), true, body)];
    }

    method UpdateComment(id: int, body: Body)
      modifies this
      ensures comments == Update(old(comments), id, body)
    {
      comments := Update(comments, id, body);
    }

    /** `process`; `raised` is whether it ended in an error. */
    method Process(w: World, f: Flags) returns (raised: bool)
      modifies this
      ensures comments == Run(old(comments), w, f)
      ensures raised <==> RunRaises(old(comments), w, f)
    {
      raised := false;
      if f.reportOnly {
        return;
      }
      var fetched := comments;
      var existing := FirstTrustedNotice(fetched);
      var guidanceExists := GuidanceExists(fetched);
      var items: seq<Item>, records: seq<Record> := [], [];
      if w.eligible {
        var plan := PlanNoticeItems(w.views);
        if plan.None? {
          raised := true;
          return;
        }
        items, records := plan.value.items, plan.value.records;
      }
      var unmapped := if w.eligible then Unmapped(w.views) else [];
      var portalBlocked := false;
      if items != [] && w.portal.Some? && !w.portal.value {
        items := [];
        portalBlocked := true;
      }
      if unmapped != [] && !guidanceExists && !f.dryRun {
        PostComment(Guidance(unmapped));
      }
      if items != [] && (existing.None? || (f.refresh && !w.renamesExcluded)) {
        var body := Notice(items, w.logins, w.studio);
        if !f.dryRun {
          if existing.Some? {
            var id := fetched[existing.value].id;
            if id <= 0 {
              raised := true;
              return;
            }
            if fetched[existing.value].body != body {
              UpdateComment(id, body);
            }
          } else {
            PostComment(body);
          }
        }
      }
      if f.refresh && existing.Some? && items == [] && !portalBlocked && !w.renamesExcluded && records != []
         && (forall i :: 0 <= i < |records| ==> !records[i].status.EligibleForNotice?) {
        if !f.dryRun && fetched[existing.value].body != Withdrawn {
          var id := fetched[existing.value].id;
          if id <= 0 {
            raised := true;
            return;
          }
          UpdateComment(id, Withdrawn);
        }
      }
    }
  }

  // ---- At most one of each ---------------------------------------------------------------------------------

  function CountNotices(comments: seq<Comment>): nat {
    if comments == [] then 0
    else CountNotices(comments[..|comments| - 1]) + if IsTrustedNotice(comments[|comments| - 1]) then 1 else 0
  }

  function CountGuidance(comments: seq<Comment>): nat {
    if comments == [] then 0
    else CountGuidance(comments[..|comments| - 1]) + if IsTrustedGuidance(comments[|comments| - 1]) then 1 else 0
  }

  lemma {:induction false} CountsZero(comments: seq<Comment>)
    ensures CountNotices(comments) == 0 <==> FirstTrustedNotice(comments).None?
    ensures CountGuidance(comments) == 0 <==> !GuidanceExists(comments)
  {
    if comments != [] {
      var front, last := comments[..|comments| - 1], comments[|comments| - 1];
      CountsZero(front);
      assert forall i :: 0 <= i < |front| ==> front[i] == comments[i];
      assert comments[|front|] == last;
      if FirstTrustedNotice(front).Some? {
        assert IsTrustedNotice(comments[FirstTrustedNotice(front).value]);
      }
      if GuidanceExists(front) {
        var i :| 0 <= i < |front| && IsTrustedGuidance(front[i]);
        assert IsTrustedGuidance(comments[i]);
      }
    }
  }

  lemma {:induction false} CountsPost(comments: seq<Comment>, body: Body)
    ensures CountNotices(Post(comments, body)) == CountNotices(comments) + if HasNoticeMarker(body) then 1 else 0
    ensures CountGuidance(Post(comments, body)) == CountGuidance(comments) + if HasGuidanceMarker(body) then 1 else 0
  {
    CountsLast(comments, Comment(FreshId(comments), true, body));
  }

  /** Rewriting comments into notices that stay notices. */
  lemma {:induction false} CountsLast(front: seq<Comment>, last: Comment)
    ensures CountNotices(front + [last]) == CountNotices(front) + if IsTrustedNotice(last) then 1 else 0
    ensures CountGuidance(front + [last]) == CountGuidance(front) + if IsTrustedGuidance(last) then 1 else 0
  {
    var all := front + [last];
    assert all[..|all| - 1] == front;
  }

  lemma {:induction false} CountsUpdate(comments: seq<Comment>, id: int, body: Body)
    requires HasNoticeMarker(body) && !HasGuidanceMarker(body)
    requires forall i :: 0 <= i < |comments| && comments[i].id == id ==> IsTrustedNotice(comments[i])
    ensures CountNotices(Update(comments, id, body)) == CountNotices(comments)
    ensures CountGuidance(Update(comments, id, body)) <= CountGuidance(comments)
  {
    if comments != [] {
      var front := comments[..|comments| - 1];
      assert forall i :: 0 <= i < |front| ==> front[i] == comments[i];
      CountsUpdate(front, id, body);
      UpdateFront(comments, id, body);
      CountsLast(Update(front, id, body), Updated(comments[|front|], id, body));
    }
  }

  /** Guidance first, then the notice: neither step disturbs what the other looks at. */
  lemma {:induction false} GuidanceStep(comments: seq<Comment>, w: World, f: Flags)
    requires !RunBreaks(w)
    ensures var guided := WithGuidance(comments, w, f);
            && comments <= guided
            && CountNotices(guided) == CountNotices(comments)
            && (guided != comments ==> CountGuidance(comments) == 0 && CountGuidance(guided) == 1)
            && (DistinctIds(comments) ==> DistinctIds(guided))
            && forall i :: |comments| <= i < |guided| ==> !IsTrustedNotice(guided[i])
  {
    CountsZero(comments);
    if WithGuidance(comments, w, f) != comments {
      CountsPost(comments, Guidance(Unmapped(w.views)));
    }
  }

  /** What writing the notice does to the comments. */
  lemma {:induction false} WriteCounts(guided: seq<Comment>, existing: Option<Comment>, k: nat, body: Body)
    requires DistinctIds(guided) && HasNoticeMarker(body) && !HasGuidanceMarker(body)
    requires existing.Some? ==> k < |guided| && guided[k] == existing.value && IsTrustedNotice(guided[k])
    ensures DistinctIds(Write(guided, existing, body))
    ensures CountNotices(Write(guided, existing, body)) == CountNotices(guided) + if existing.None? then 1 else 0
    ensures CountGuidance(Write(guided, existing, body)) <= CountGuidance(guided)
  {
    if existing.None? {
      CountsPost(guided, body);
    } else {
      CountsUpdate(guided, existing.value.id, body);
    }
  }

  lemma {:induction false} ExistingIs(comments: seq<Comment>, guided: seq<Comment>) returns (k: nat)
    requires comments <= guided
    ensures Existing(comments).Some? ==> k < |comments| && FirstTrustedNotice(comments) == Some(k)
    ensures Existing(comments).Some? ==> guided[k] == Existing(comments).value && IsTrustedNotice(guided[k])
    ensures Existing(comments).None? <==> FirstTrustedNotice(comments).None?
  {
    k := if FirstTrustedNotice(comments).None? then 0 else FirstTrustedNotice(comments).value;
  }

  /** A run posts a notice or guidance only where there was none, and never adds a second one. */
  lemma {:induction false} RunCounts(comments: seq<Comment>, w: World, f: Flags)
    requires DistinctIds(comments)
    ensures DistinctIds(Run(comments, w, f))
    ensures CountNotices(Run(comments, w, f)) <= if CountNotices(comments) == 0 then 1 else CountNotices(comments)
    ensures CountGuidance(Run(comments, w, f)) <= if CountGuidance(comments) == 0 then 1 else CountGuidance(comments)
  {
    if !f.reportOnly && !RunBreaks(w) {
      CountsZero(comments);
      GuidanceStep(comments, w, f);
      var guided, wanted := WithGuidance(comments, w, f), WantedBody(comments, w, f);
      if wanted.Some? && !f.dryRun {
        var k := ExistingIs(comments, guided);
        WriteCounts(guided, Existing(comments), k, wanted.value);
      }
    }
  }

  /** Runs, and comments that other people and other workflows add in between. */
  datatype Event = ARun(world: World, flags: Flags) | Others(added: seq<Comment>)

  predicate Harmless(comments: seq<Comment>, added: seq<Comment>) {
    && (forall i :: 0 <= i < |added| ==> !IsTrustedNotice(added[i]) && !IsTrustedGuidance(added[i]))
    && forall i, j :: 0 <= i < j < |comments + added| && j >= |comments| ==>
       (comments + added)[i].id != (comments + added)[j].id
  }

  ghost predicate History(comments: seq<Comment>, events: seq<Event>)
    decreases |events|
  {
    events == [] ||
    match events[0]
    case ARun(w, f) => History(Run(comments, w, f), events[1..])
    case Others(added) => Harmless(comments, added) && History(comments + added, events[1..])
  }

  ghost function AfterAll(comments: seq<Comment>, events: seq<Event>): seq<Comment>
    requires History(comments, events)
    decreases |events|
  {
    if events == [] then comments
    else match events[0]
      case ARun(w, f) => AfterAll(Run(comments, w, f), events[1..])
      case Others(added) => AfterAll(comments + added, events[1..])
  }

  lemma {:induction false} CountsOthers(comments: seq<Comment>, added: seq<Comment>)
    requires forall i :: 0 <= i < |added| ==> !IsTrustedNotice(added[i]) && !IsTrustedGuidance(added[i])
    ensures CountNotices(comments + added) == CountNotices(comments)
    ensures CountGuidance(comments + added) == CountGuidance(comments)
  {
    if added == [] {
      assert comments + added == comments;
    } else {
      var front := added[..|added| - 1];
      CountsOthers(comments, front);
      assert (comments + added)[..|comments + added| - 1] == comments + front;
    }
  }

  /** Main result: over any history of sequential runs that starts without them, there is never more
      than one trusted claim notice and one trusted guidance comment. */
  lemma {:induction false} AtMostOneOfEach(comments: seq<Comment>, events: seq<Event>)
    requires DistinctIds(comments) && History(comments, events)
    requires CountNotices(comments) <= 1 && CountGuidance(comments) <= 1
    ensures CountNotices(AfterAll(comments, events)) <= 1 && CountGuidance(AfterAll(comments, events)) <= 1
    decreases |events|
  {
    if events != [] {
      match events[0]
      case ARun(w, f) =>
        RunCounts(comments, w, f);
        AtMostOneOfEach(Run(comments, w, f), events[1..]);
      case Others(added) =>
        CountsOthers(comments, added);
        AtMostOneOfEach(comments + added, events[1..]);
    }
  }

  // ---- Repeating a run -----------------------------------------------------------------------------------------

  lemma {:induction false} FirstNoticeIs(comments: seq<Comment>, k: nat)
    requires k < |comments| && IsTrustedNotice(comments[k])
    requires forall i :: 0 <= i < k ==> !IsTrustedNotice(comments[i])
    ensures FirstTrustedNotice(comments) == Some(k) && Existing(comments) == Some(comments[k])
  {
  }

  /** The one way a second run can have something left to write: guidance is due, and the only trusted
      guidance marker sits in the very comment that the first run rewrites into a notice. */
  ghost predicate MarkerLost(comments: seq<Comment>, w: World, f: Flags) {
    && !f.reportOnly && !f.dryRun && !RunBreaks(w) && w.eligible && Unmapped(w.views) != []
    && Existing(comments).Some? && Existing(comments).value.id > 0
    && WantedBody(comments, w, f).Some?
    && CountGuidance(comments) == 1 && IsTrustedGuidance(Existing(comments).value)
  }

  /** What the second run finds after the first one wrote a notice. */
  lemma {:induction false} WriteSettles(guided: seq<Comment>, existing: Option<Comment>, k: nat, body: Body)
    requires DistinctIds(guided) && HasNoticeMarker(body) && !HasGuidanceMarker(body)
    requires existing.Some? ==> k < |guided| && guided[k] == existing.value && IsTrustedNotice(guided[k])
    requires existing.Some? ==> forall i :: 0 <= i < k ==> !IsTrustedNotice(guided[i])
    requires existing.None? ==> forall i :: 0 <= i < |guided| ==> !IsTrustedNotice(guided[i])
    ensures Existing(Write(guided, existing, body)).Some?
    ensures var c := Existing(Write(guided, existing, body)).value; c.body == body || (existing == Some(c) && c.id <= 0)
  {
    var later := Write(guided, existing, body);
    if existing.None? {
      FirstNoticeIs(later, |guided|);
    } else {
      FirstNoticeIs(later, k);
    }
  }

  lemma {:induction false} CountsGuidanceElsewhere(comments: seq<Comment>, id: int, body: Body)
    requires forall i :: 0 <= i < |comments| ==> comments[i].id != id
    ensures Update(comments, id, body) == comments
  {
  }

  lemma {:induction false} CountsGuidanceUpdate(guided: seq<Comment>, k: nat, id: int, body: Body)
    requires k < |guided| && guided[k].id == id && !HasGuidanceMarker(body)
    requires forall i :: 0 <= i < |guided| && i != k ==> guided[i].id != id
    ensures CountGuidance(Update(guided, id, body)) ==
            CountGuidance(guided) - if IsTrustedGuidance(guided[k]) then 1 else 0
  {
    var n := |guided| - 1;
    var front := guided[..n];
    UpdateFront(guided, id, body);
    CountsLast(Update(front, id, body), Updated(guided[n], id, body));
    if k < n {
      CountsGuidanceUpdate(front, k, id, body);
    } else {
      CountsGuidanceElsewhere(front, id, body);
    }
  }

  /** When the guidance marker is gone after the notice step. */
  lemma {:induction false} WriteKeepsGuidance(guided: seq<Comment>, existing: Option<Comment>, k: nat, body: Body)
    requires DistinctIds(guided) && !HasGuidanceMarker(body) && HasNoticeMarker(body)
    requires existing.Some? ==> k < |guided| && guided[k] == existing.value
    ensures CountGuidance(Write(guided, existing, body)) == CountGuidance(guided) -
            if existing.Some? && existing.value.id > 0 && IsTrustedGuidance(existing.value)
              && existing.value.body != body
            then 1 else 0
  {
    if existing.None? {
      CountsPost(guided, body);
    } else {
      CountsGuidanceUpdate(guided, k, guided[k].id, body);
    }
  }

  lemma {:induction false} ExistingGuidance(comments: seq<Comment>)
    requires Existing(comments).Some? && IsTrustedGuidance(Existing(comments).value)
    ensures GuidanceExists(comments)
  {
    assert IsTrustedGuidance(comments[FirstTrustedNotice(comments).value]);
  }

  /** Whether guidance is still due after a run. */
  lemma {:induction false} GuidanceAfterRun(comments: seq<Comment>, w: World, f: Flags)
    requires DistinctIds(comments) && !f.reportOnly && !RunBreaks(w)
    ensures WithGuidance(Run(comments, w, f), w, f) == Run(comments, w, f) <==> !MarkerLost(comments, w, f)
  {
    hide Unmapped, RunPlan, DeliveredItems, PortalBlocks, NothingEligible, CountGuidance, CountNotices, DistinctIds,
         Update, GuidanceExists;
    CountsZero(comments);
    GuidanceStep(comments, w, f);
    var guided, later, wanted := WithGuidance(comments, w, f), Run(comments, w, f), WantedBody(comments, w, f);
    CountsZero(guided);
    CountsZero(later);
    if wanted.Some? && !f.dryRun {
      var k := ExistingIs(comments, guided);
      if Existing(comments).Some? && IsTrustedGuidance(Existing(comments).value) {
        ExistingGuidance(comments);
      }
      WriteKeepsGuidance(guided, Existing(comments), k, wanted.value);
    }
  }

  /** After a run, the notice step has nothing left to do. */
  lemma {:induction false} NoticeAfterRun(comments: seq<Comment>, w: World, f: Flags)
    requires DistinctIds(comments) && !f.reportOnly && !f.dryRun && !RunBreaks(w)
    ensures var later := Run(comments, w, f);
            WantedBody(later, w, f).Some? ==>
              Existing(later).Some?
                && (Existing(later).value.body == WantedBody(later, w, f).value || Existing(later).value.id <= 0)
  {
    GuidanceStep(comments, w, f);
    var guided, later, wanted := WithGuidance(comments, w, f), Run(comments, w, f), WantedBody(comments, w, f);
    var k := ExistingIs(comments, guided);
    if wanted.Some? {
      WriteSettles(guided, Existing(comments), k, wanted.value);
    } else if Existing(comments).Some? {
      FirstNoticeIs(later, k);
    } else {
      assert FirstTrustedNotice(later).None?;
    }
  }

  /** Main result: a second run on unchanged state writes nothing, except in that one case. */
  lemma {:induction false} SecondRunWritesNothing(comments: seq<Comment>, w: World, f: Flags)
    requires DistinctIds(comments)
    ensures Run(Run(comments, w, f), w, f) == Run(comments, w, f) <==> !MarkerLost(comments, w, f)
  {
    if !f.reportOnly && !RunBreaks(w) {
      GuidanceAfterRun(comments, w, f);
      if !f.dryRun {
        NoticeAfterRun(comments, w, f);
      }
    }
  }

  /** That case exists. */
  lemma {:induction false} MarkerCanBeLost(extension: ExtensionId, text: string)
    ensures var view := View(extension, true, false, None, None, None, true, false, true);
            MarkerLost([Comment(1, true, Text(true, true, text))],
                       World(true, [view], false, None, [], ""), Flags(false, true, false))
  {
    var view := View(extension, true, false, None, None, None, true, false, true);
    var views := [view];
    var w := World(true, views, false, None, [], "");
    assert views[|views| - 1] == view && views[..|views| - 1] == [];
    assert PlanOne(view) == Noted(Record(extension, NoMapping, true));
    assert PlanAll(views) == Plan([], [Record(extension, NoMapping, true)]);
    assert Unmapped(views) == Unmapped([]) + [extension];
    var comments := [Comment(1, true, Text(true, true, text))];
    assert comments[..0] == [];
    FirstNoticeIs(comments, 0);
  }

  /** No trusted comment carries both markers. */
  ghost predicate MarkersApart(comments: seq<Comment>) {
    forall i :: 0 <= i < |comments| ==> !(IsTrustedNotice(comments[i]) && IsTrustedGuidance(comments[i]))
  }

  lemma {:induction false} WriteKeepsMarkersApart(guided: seq<Comment>, existing: Option<Comment>, body: Body)
    requires MarkersApart(guided) && !(HasNoticeMarker(body) && HasGuidanceMarker(body))
    ensures MarkersApart(Write(guided, existing, body))
  {
    var later := Write(guided, existing, body);
    forall i | 0 <= i < |later| ensures !(IsTrustedNotice(later[i]) && IsTrustedGuidance(later[i])) {
      if i >= |guided| || later[i] != guided[i] {
        WriteBodies(guided, existing, body, i);
      }
    }
  }

  lemma {:induction false} RunKeepsMarkersApart(comments: seq<Comment>, w: World, f: Flags)
    requires MarkersApart(comments)
    ensures MarkersApart(Run(comments, w, f))
  {
    if !f.reportOnly && !RunBreaks(w) {
      var guided, wanted := WithGuidance(comments, w, f), WantedBody(comments, w, f);
      assert MarkersApart(guided);
      if wanted.Some? {
        WriteKeepsMarkersApart(guided, Existing(comments), wanted.value);
      }
    }
  }

  lemma {:induction false} HistoryKeepsMarkersApart(comments: seq<Comment>, events: seq<Event>)
    requires DistinctIds(comments) && MarkersApart(comments) && History(comments, events)
    ensures DistinctIds(AfterAll(comments, events)) && MarkersApart(AfterAll(comments, events))
    decreases |events|
  {
    if events != [] {
      match events[0]
      case ARun(w, f) =>
        RunCounts(comments, w, f);
        RunKeepsMarkersApart(comments, w, f);
        HistoryKeepsMarkersApart(Run(comments, w, f), events[1..]);
      case Others(added) =>
        OthersKeepMarkersApart(comments, added);
        HistoryKeepsMarkersApart(comments + added, events[1..]);
    }
  }

  lemma {:induction false} OthersKeepMarkersApart(comments: seq<Comment>, added: seq<Comment>)
    requires DistinctIds(comments) && MarkersApart(comments) && Harmless(comments, added)
    ensures DistinctIds(comments + added) && MarkersApart(comments + added)
  {
    var all := comments + added;
    forall i, j | 0 <= i < j < |all| ensures all[i].id != all[j].id {
      if j < |comments| {
        assert all[i] == comments[i] && all[j] == comments[j];
      }
    }
  }

  /** Main result: whatever happened on a pull request that began without comments, a repeated run writes
      nothing. */
  lemma {:induction false} RepeatedRunWritesNothing(events: seq<Event>, w: World, f: Flags)
    requires History([], events)
    ensures var comments := AfterAll([], events); Run(Run(comments, w, f), w, f) == Run(comments, w, f)
  {
    var comments := AfterAll([], events);
    HistoryKeepsMarkersApart([], events);
    SecondRunWritesNothing(comments, w, f);
    if Existing(comments).Some? {
      var k := ExistingIs(comments, comments);
      assert !IsTrustedGuidance(comments[k]);
    }
  }

  // ---- Who is invited ------------------------------------------------------------------------------------------

  /** Every identity in a notice that a run newly writes is currently authorised for its extension. */
  lemma {:induction false} WrittenNoticeIsAuthorised(comments: seq<Comment>, w: World, f: Flags, i: nat, item: Item)
    requires i < |Run(comments, w, f)|
    requires Run(comments, w, f)[i].body.Notice? && (i >= |comments| || Run(comments, w, f)[i] != comments[i])
    requires item in Run(comments, w, f)[i].body.items
    ensures exists v :: v in w.views && v.extension == item.extension && forall a :: a in item.ids <==> MayInvite(v, a)
  {
    GuidanceStepBodies(comments, w, f, i);
    PlannedItems(w.views, item);
  }

  lemma {:induction false} WriteBodies(guided: seq<Comment>, existing: Option<Comment>, body: Body, i: nat)
    requires i < |Write(guided, existing, body)|
    requires i >= |guided| || Write(guided, existing, body)[i] != guided[i]
    ensures Write(guided, existing, body)[i].body == body
  {
  }

  lemma {:induction false} GuidanceStepBodies(comments: seq<Comment>, w: World, f: Flags, i: nat)
    requires i < |Run(comments, w, f)|
    requires Run(comments, w, f)[i].body.Notice? && (i >= |comments| || Run(comments, w, f)[i] != comments[i])
    ensures !RunBreaks(w) && WantedBody(comments, w, f) == Some(Run(comments, w, f)[i].body)
  {
    var guided, wanted := WithGuidance(comments, w, f), WantedBody(comments, w, f);
    assert i < |guided| ==> guided[i].body.Guidance? || (i < |comments| && guided[i] == comments[i]);
    if wanted.Some? && !f.dryRun && (i >= |guided| || Run(comments, w, f)[i] != guided[i]) {
      WriteBodies(guided, Existing(comments), wanted.value, i);
    }
  }
}
