/** Request-local route evidence: which route each benchmark request took, recovered from
    thread-local nesting and one locked map, over every interleaving of threads. */
module RouteProvenance {
  import opened Options

  type Token = string
  type Thread = nat

  /** A recorded route; `Unrecognised` is anything outside the safe route names. */
  datatype Route = NativeResident | NativeOneshot | NativeFailSafe | PythonSemantic | Unrecognised(text: string)

  /** One activation of `_invoke`: its saved depth, the token of its payload, and whether the
      wrapped call has returned, so that only the `finally` block is left to run. */
  datatype Frame = Frame(depth: nat, token: Option<Token>, returned: bool)

  /** Thread-local data of one thread, with the activations on its stack, outermost first. */
  datatype Local = Local(depth: nat, route: Option<Route>, frames: seq<Frame>)

  datatype State = State(active: map<Token, Option<Route>>, closed: bool, locals: map<Thread, Local>)

  /** The atomic steps. `Return` is the part of `_invoke` that inspects the result; `Leave` is its
      `finally` block, reached after a return or straight from an exception. */
  datatype Action =
    | Begin(token: Token)
    | Finish(token: Token)
    | Enter(thread: Thread, payloadToken: Option<Token>)
    | Capture(thread: Thread, route: Route)
    | Return(thread: Thread, evidence: bool)
    | Leave(thread: Thread)
    | Close

  const INITIAL := State(map[], false, map[])

  function LocalOf(locals: map<Thread, Local>, t: Thread): Local {
    if t in locals then locals[t] else Local(0, None, [])
  }

  /** A thread runs user code, not the end of an activation. */
  predicate Running(l: Local) {
    l.frames == [] || !l.frames[|l.frames| - 1].returned
  }

  predicate Enabled(s: State, a: Action) {
    match a
    case Enter(t, _) => Running(LocalOf(s.locals, t))
    case Capture(t, _) => Running(LocalOf(s.locals, t))
    case Return(t, _) => LocalOf(s.locals, t).frames != [] && Running(LocalOf(s.locals, t))
    case Leave(t) => LocalOf(s.locals, t).frames != []
    case _ => true
  }

  function SafeRoute(r: Route): Option<Route> {
    if r.Unrecognised? then None else Some(r)
  }

  function Step(s: State, a: Action): State
    requires Enabled(s, a)
  {
    match a
    case Begin(token) => if s.closed then s else s.(active := s.active[token := None])
    case Finish(token) => s.(active := s.active - {token})
    case Enter(t, token) =>
      var l := LocalOf(s.locals, t);
      s.(locals := s.locals[t := Local(l.depth + 1, if l.depth == 0 then None else l.route,
                                       l.frames + [Frame(l.depth, token, false)])])
    case Capture(t, route) =>
      var l := LocalOf(s.locals, t);
      if l.depth == 0 then s else s.(locals := s.locals[t := l.(route := SafeRoute(route))])
    case Return(t, evidence) =>
      var l := LocalOf(s.locals, t);
      var last := |l.frames| - 1;
      var f := l.frames[last];
      var s' := s.(locals := s.locals[t := l.(frames := l.frames[last := f.(returned := true)])]);
      if f.depth == 0 && evidence && f.token.Some? && f.token.value in s.active
      then s'.(active := s.active[f.token.value := l.route])
      else s'
    case Leave(t) =>
      var l := LocalOf(s.locals, t);
      var last := |l.frames| - 1;
      var f := l.frames[last];
      s.(locals := s.locals[t := Local(f.depth, if f.depth == 0 then None else l.route, l.frames[..last])])
    case Close => if s.closed then s else s.(closed := true, active := map[])
  }

  /** What `finish` answers. */
  function Answer(s: State, token: Token): Route {
    if token in s.active && s.active[token].Some? then s.active[token].value else NativeFailSafe
  }

  // ---- The tracker as the object it is in the source -------------------------------------------

  class RequestRouteTracker {
    var active: map<Token, Option<Route>>
    var closed: bool
    var locals: map<Thread, Local>

    ghost function Now(): State
      reads this
    {
      State(active, closed, locals)
    }

    constructor ()
      ensures Now() == INITIAL
    {
      active, closed, locals := map[], false, map[];
    }

    method BeginRequest(token: Token) returns (refused: bool)
      modifies this
      ensures Now() == Step(old(Now()), Begin(token))
      ensures refused <==> old(closed)
    {
      if closed {
        return true;
      }
      active := active[token := None];
      return false;
    }

    method FinishRequest(token: Token) returns (route: Route)
      modifies this
      ensures Now() == Step(old(Now()), Finish(token))
      ensures route == Answer(old(Now()), token)
    {
      route := NativeFailSafe;
      if token in active && active[token].Some? {
        route := active[token].value;
      }
      active := active - {token};
    }

    method CaptureRoute(t: Thread, route: Route)
      requires Enabled(Now(), Capture(t, route))
      modifies this
      ensures Now() == Step(old(Now()), Capture(t, route))
    {
      var l := LocalOf(locals, t);
      if l.depth != 0 {
        locals := locals[t := l.(route := SafeRoute(route))];
      }
    }

    method EnterInvoke(t: Thread, token: Option<Token>)
      requires Enabled(Now(), Enter(t, token))
      modifies this
      ensures Now() == Step(old(Now()), Enter(t, token))
    {
      var l := LocalOf(locals, t);
      var depth, route := l.depth, l.route;
      if depth == 0 {
        route := None;
      }
      locals := locals[t := Local(depth + 1, route, l.frames + [Frame(depth, token, false)])];
    }

    method StoreResult(t: Thread, evidence: bool)
      requires Enabled(Now(), Return(t, evidence))
      modifies this
      ensures Now() == Step(old(Now()), Return(t, evidence))
    {
      var l := LocalOf(locals, t);
      var f := l.frames[|l.frames| - 1];
      if f.depth == 0 && evidence && f.token.Some? {
        if f.token.value in active {
          active := active[f.token.value := l.route];
        }
      }
      locals := locals[t := l.(frames := l.frames[|l.frames| - 1 := f.(returned := true)])];
    }

    method LeaveInvoke(t: Thread)
      requires Enabled(Now(), Leave(t))
      modifies this
      ensures Now() == Step(old(Now()), Leave(t))
    {
      var l := LocalOf(locals, t);
      var f := l.frames[|l.frames| - 1];
      var route := l.route;
      if f.depth == 0 {
        route := None;
      }
      locals := locals[t := Local(f.depth, route, l.frames[..|l.frames| - 1])];
    }

    method CloseTracker()
      modifies this
      ensures Now() == Step(old(Now()), Close)
    {
      if closed {
        return;
      }
      closed := true;
      active := map[];
    }
  }

  // ---- Runs --------------------------------------------------------------------------------------

  type Trace = seq<Action>

  ghost function Front(tr: Trace): Trace
    requires tr != []
  {
    tr[..|tr| - 1]
  }

  ghost function Last(tr: Trace): Action
    requires tr != []
  {
    tr[|tr| - 1]
  }

  /** Every action is possible when it happens, and no token is ever drawn twice. */
  ghost predicate Valid(tr: Trace)
    decreases |tr|, 0
  {
    tr == [] ||
    (&& Valid(Front(tr)) && Enabled(After(Front(tr)), Last(tr))
     && (Last(tr).Begin? ==> Last(tr) !in Front(tr)))
  }

  ghost function After(tr: Trace): State
    requires Valid(tr)
    decreases |tr|, 1
  {
    if tr == [] then INITIAL else Step(After(Front(tr)), Last(tr))
  }

  // ---- What a run says by itself -----------------------------------------------------------------

  /** How many calls of thread `t` are open: entries less exits. */
  ghost function Depth(tr: Trace, t: Thread): int
    decreases |tr|
  {
    if tr == [] then 0
    else Depth(Front(tr), t) + (if Last(tr).Enter? && Last(tr).thread == t then 1
                                else if Last(tr) == Leave(t) then -1 else 0)
  }

  /** `e` is where the outermost call that thread `t` is still in began. */
  ghost predicate OpenSince(tr: Trace, t: Thread, e: nat) {
    && e < |tr| && tr[e].Enter? && tr[e].thread == t
    && Depth(tr[..e], t) == 0
    && forall k :: e < k <= |tr| ==> Depth(tr[..k], t) >= 1
  }

  ghost predicate IsCapture(a: Action, t: Thread) {
    a.Capture? && a.thread == t
  }

  /** Thread `t`, in the outermost call opened at `e`, last recorded `r` there. */
  ghost predicate LastRecorded(tr: Trace, t: Thread, e: nat, r: Route) {
    exists c: nat :: e < c && LastCaptureAt(tr, t, c, r)
  }

  ghost predicate LastCaptureAt(tr: Trace, t: Thread, c: nat, r: Route) {
    c < |tr| && tr[c] == Capture(t, r) && forall k :: c < k < |tr| ==> !IsCapture(tr[k], t)
  }

  /** The request is registered: begun before any close and not finished since. */
  ghost predicate Registered(tr: Trace, token: Token) {
    && Close !in tr
    && exists b :: 0 <= b < |tr| && tr[b] == Begin(token) && Finish(token) !in tr[b..]
  }

  /** At `p` the outermost call carrying `token` ended with a payload or a reason code. */
  ghost predicate Concludes(tr: Trace, p: nat, e: nat, token: Token) {
    && p < |tr| && tr[p].Return? && tr[p].evidence
    && Depth(tr[..p], tr[p].thread) == 1
    && OpenSince(tr[..p], tr[p].thread, e)
    && tr[e].payloadToken == Some(token)
  }

  /** The last action of the run is such a conclusion. */
  ghost predicate ConcludesNow(tr: Trace, e: nat, token: Token) {
    tr != [] && Concludes(tr, |tr| - 1, e, token)
  }

  /** The evidence for `r`: the last such conclusion that found the request registered, and the
      last route its own thread recorded inside that call. */
  ghost predicate Evidence(tr: Trace, token: Token, p: nat, e: nat, r: Route) {
    && Concludes(tr, p, e, token)
    && Registered(tr[..p], token)
    && LastRecorded(tr[..p], tr[p].thread, e, r) && !r.Unrecognised?
    && forall q, f :: p < q < |tr| ==> !Concludes(tr, q, f, token)
  }

  // ---- Invariant ---------------------------------------------------------------------------------

  ghost predicate ThreadConsistent(tr: Trace, l: Local, t: Thread) {
    && l.depth == |l.frames| == Depth(tr, t)
    && (forall i :: 0 <= i < |l.frames| ==> l.frames[i].depth == i)
    && (l.depth == 0 ==> l.route == None)
    && (l.depth > 0 ==> exists e :: OpenedAt(tr, l, t, e))
  }

  ghost predicate OpenedAt(tr: Trace, l: Local, t: Thread, e: nat)
    requires l.frames != []
  {
    && OpenSince(tr, t, e) && tr[e].payloadToken == l.frames[0].token
    && forall r :: l.route == Some(r) <==> LastRecorded(tr, t, e, r) && !r.Unrecognised?
  }

  /** The frames of a thread record the depths they were entered at, and no route outlives them. */
  ghost predicate Nested(l: Local) {
    l.depth == |l.frames| && (l.depth == 0 ==> l.route == None) && forall i :: 0 <= i < |l.frames| ==>
      l.frames[i].depth == i
  }

  ghost function DepthChange(a: Action, t: Thread): int {
    if a.Enter? && a.thread == t then 1 else if a == Leave(t) then -1 else 0
  }

  lemma {:induction false} StepNests(s: State, a: Action, t: Thread)
    requires Enabled(s, a) && Nested(LocalOf(s.locals, t))
    ensures var l := LocalOf(Step(s, a).locals, t);
            Nested(l) && l.depth == LocalOf(s.locals, t).depth + DepthChange(a, t)
  {
  }

  /** Inside a call, a step keeps the outermost token, and only the thread's own capture sets its route. */
  lemma {:induction false} StepInsideCall(s: State, a: Action, t: Thread)
    requires Enabled(s, a) && Nested(LocalOf(s.locals, t)) && LocalOf(s.locals, t).frames != []
    requires LocalOf(Step(s, a).locals, t).frames != []
    ensures var before, l := LocalOf(s.locals, t), LocalOf(Step(s, a).locals, t);
            && l.frames[0].token == before.frames[0].token
            && l.route == if IsCapture(a, t) then SafeRoute(a.route) else before.route
  {
  }

  lemma {:induction false} DepthNonNegative(tr: Trace, t: Thread)
    requires Valid(tr)
    ensures Nested(LocalOf(After(tr).locals, t)) && LocalOf(After(tr).locals, t).depth == Depth(tr, t)
    decreases |tr|
  {
    if tr != [] {
      DepthNonNegative(Front(tr), t);
      StepNests(After(Front(tr)), Last(tr), t);
    }
  }

  /** One more action of another kind leaves an open call open since the same point. */
  lemma {:induction false} OpenStaysOpen(tr: Trace, t: Thread, e: nat)
    requires tr != [] && OpenSince(Front(tr), t, e) && Depth(tr, t) >= 1
    ensures OpenSince(tr, t, e)
  {
    assert tr[..e] == Front(tr)[..e];
    forall k | e < k <= |tr| ensures Depth(tr[..k], t) >= 1 {
      if k == |tr| {
        assert tr[..k] == tr;
      } else {
        assert tr[..k] == Front(tr)[..k];
      }
    }
  }

  lemma {:induction false} RecordedStep(tr: Trace, t: Thread, e: nat, r: Route)
    requires tr != [] && e < |tr| - 1
    ensures LastRecorded(tr, t, e, r) <==>
            if IsCapture(Last(tr), t) then Last(tr) == Capture(t, r) else LastRecorded(Front(tr), t, e, r)
  {
    var n := |tr| - 1;
    if IsCapture(Last(tr), t) {
      assert IsCapture(tr[n], t);
      if Last(tr) == Capture(t, r) {
        assert LastCaptureAt(tr, t, n, r);
      }
    } else {
      forall c: nat ensures LastCaptureAt(tr, t, c, r) <==> LastCaptureAt(Front(tr), t, c, r) {
        assert forall k :: 0 <= k < n ==> tr[k] == Front(tr)[k];
      }
    }
  }

  lemma {:induction false} OpenBegins(tr: Trace, t: Thread)
    requires tr != [] && Last(tr).Enter? && Last(tr).thread == t && Depth(Front(tr), t) == 0
    ensures OpenSince(tr, t, |tr| - 1)
  {
    var e := |tr| - 1;
    assert tr[..e] == Front(tr);
    forall k | e < k <= |tr| ensures Depth(tr[..k], t) >= 1 {
      assert tr[..k] == tr;
    }
  }

  /** Thread-local state says exactly what the run says about its open call, whatever the other
      threads did; in particular a thread outside every call holds no route. */
  lemma {:induction false} ThreadsAreConsistent(tr: Trace, t: Thread)
    requires Valid(tr)
    ensures ThreadConsistent(tr, LocalOf(After(tr).locals, t), t)
    decreases |tr|
  {
    DepthNonNegative(tr, t);
    var l := LocalOf(After(tr).locals, t);
    if tr != [] && l.depth > 0 {
      ThreadsAreConsistent(Front(tr), t);
      DepthNonNegative(Front(tr), t);
      var before := LocalOf(After(Front(tr)).locals, t);
      if before.depth == 0 {
        OpenBegins(tr, t);
        assert OpenedAt(tr, l, t, |tr| - 1);
      } else {
        var e: nat :| OpenedAt(Front(tr), before, t, e);
        StillOpenedAt(tr, t, e);
      }
    }
  }

  lemma {:induction false} StillOpenedAt(tr: Trace, t: Thread, e: nat)
    requires Valid(tr) && tr != []
    requires var before := LocalOf(After(Front(tr)).locals, t);
             Nested(before) && before.frames != [] && OpenedAt(Front(tr), before, t, e)
    requires var l := LocalOf(After(tr).locals, t); l.frames != [] && Depth(tr, t) >= 1
    ensures OpenedAt(tr, LocalOf(After(tr).locals, t), t, e)
  {
    var before, l := LocalOf(After(Front(tr)).locals, t), LocalOf(After(tr).locals, t);
    OpenStaysOpen(tr, t, e);
    StepInsideCall(After(Front(tr)), Last(tr), t);
    assert tr[e] == Front(tr)[e];
    forall r ensures l.route == Some(r) <==> LastRecorded(tr, t, e, r) && !r.Unrecognised? {
      RecordedStep(tr, t, e, r);
    }
  }

  /** The active map holds exactly the registered requests. */
  lemma {:induction false} ActiveIsRegistered(tr: Trace, token: Token)
    requires Valid(tr)
    ensures token in After(tr).active <==> Registered(tr, token)
    ensures After(tr).closed <==> Close in tr
    decreases |tr|
  {
    if tr != [] {
      ActiveIsRegistered(Front(tr), token);
      RegisteredStep(tr, token);
      assert tr == Front(tr) + [Last(tr)];
    }
  }

  lemma {:induction false} RegisteredStep(tr: Trace, token: Token)
    requires tr != []
    ensures Registered(tr, token) <==>
            match Last(tr)
            case Close => false
            case Begin(x) => if x == token then Close !in Front(tr) else Registered(Front(tr), token)
            case Finish(x) => x != token && Registered(Front(tr), token)
            case _ => Registered(Front(tr), token)
  {
    var n := |tr| - 1;
    assert tr == Front(tr) + [Last(tr)];
    if Registered(tr, token) {
      var b :| 0 <= b < |tr| && tr[b] == Begin(token) && Finish(token) !in tr[b..];
      assert b < n ==> tr[b..] == Front(tr)[b..] + [Last(tr)] && Front(tr)[b] == Begin(token);
      assert tr[b..][n - b] == Last(tr);
    }
    if Registered(Front(tr), token) {
      var b :| 0 <= b < n && Front(tr)[b] == Begin(token) && Finish(token) !in Front(tr)[b..];
      assert tr[b] == Begin(token) && tr[b..] == Front(tr)[b..] + [Last(tr)];
    }
    if Last(tr) == Begin(token) {
      assert tr[n..] == [Begin(token)];
    }
  }

  // ---- Provenance ----------------------------------------------------------------------------------

  ghost predicate Proven(tr: Trace, token: Token, r: Route) {
    exists p, e :: Evidence(tr, token, p, e, r)
  }

  lemma {:induction false} ConcludesInFront(tr: Trace, p: nat, e: nat, token: Token)
    requires tr != [] && p < |tr| - 1
    ensures Concludes(tr, p, e, token) <==> Concludes(Front(tr), p, e, token)
  {
    assert tr[..p] == Front(tr)[..p];
    assert tr[p] == Front(tr)[p];
    assert e < p ==> tr[e] == Front(tr)[e];
  }

  /** An action that concludes no call for `token` neither adds nor removes evidence for it. */
  lemma {:induction false} EvidenceKept(tr: Trace, token: Token, r: Route)
    requires tr != [] && forall e :: !ConcludesNow(tr, e, token)
    ensures Proven(tr, token, r) <==> Proven(Front(tr), token, r)
  {
    var n := |tr| - 1;
    if Proven(tr, token, r) {
      var p: nat, e: nat :| Evidence(tr, token, p, e, r);
      assert p == n ==> ConcludesNow(tr, e, token);
      ConcludesInFront(tr, p, e, token);
      assert tr[..p] == Front(tr)[..p] && tr[p] == Front(tr)[p];
      forall q, f | p < q < n ensures !Concludes(Front(tr), q, f, token) {
        ConcludesInFront(tr, q, f, token);
      }
      assert Evidence(Front(tr), token, p, e, r);
    }
    if Proven(Front(tr), token, r) {
      var p: nat, e: nat :| Evidence(Front(tr), token, p, e, r);
      ConcludesInFront(tr, p, e, token);
      assert tr[..p] == Front(tr)[..p] && tr[p] == Front(tr)[p];
      forall q, f | p < q < |tr| ensures !Concludes(tr, q, f, token) {
        if q < n {
          ConcludesInFront(tr, q, f, token);
        } else {
          assert !ConcludesNow(tr, f, token);
        }
      }
      assert Evidence(tr, token, p, e, r);
    }
  }

  /** A conclusion for a registered token replaces its evidence by the concluding thread's own. */
  lemma {:induction false} EvidenceReplaced(tr: Trace, token: Token, e: nat, r: Route)
    requires ConcludesNow(tr, e, token) && Registered(Front(tr), token)
    ensures Proven(tr, token, r) <==> LastRecorded(Front(tr), Last(tr).thread, e, r) && !r.Unrecognised?
  {
    var n := |tr| - 1;
    assert tr[..n] == Front(tr);
    if Proven(tr, token, r) {
      var p: nat, f: nat :| Evidence(tr, token, p, f, r);
      assert p == n;
      OpenSinceUnique(Front(tr), Last(tr).thread, e, f);
    }
    if LastRecorded(Front(tr), Last(tr).thread, e, r) && !r.Unrecognised? {
      assert Evidence(tr, token, n, e, r);
    }
  }

  lemma {:induction false} OpenSinceUnique(tr: Trace, t: Thread, e: nat, f: nat)
    requires OpenSince(tr, t, e) && OpenSince(tr, t, f)
    ensures e == f
  {
  }

  /** A fresh token has no evidence: no earlier conclusion can have found it registered. */
  lemma {:induction false} FreshHasNoEvidence(tr: Trace, token: Token, r: Route)
    requires tr != [] && Last(tr) == Begin(token) && Last(tr) !in Front(tr)
    ensures !Proven(tr, token, r)
  {
    forall p: nat, e: nat ensures !Evidence(tr, token, p, e, r) {
      assert p < |tr| ==> tr[..p] == Front(tr)[..p];
    }
  }

  /** Main result: in every run, the route kept for a registered request is exactly the one its
      evidence proves; with no evidence nothing is kept. */
  lemma {:induction false} KeptRouteIsProven(tr: Trace, token: Token, r: Route)
    requires Valid(tr) && token in After(tr).active
    ensures After(tr).active[token] == Some(r) <==> Proven(tr, token, r)
    decreases |tr|
  {
    var s, a := After(Front(tr)), Last(tr);
    if a == Begin(token) {
      ActiveIsRegistered(Front(tr), token);
      FreshHasNoEvidence(tr, token, r);
    } else {
      assert token in s.active;
      KeptRouteIsProven(Front(tr), token, r);
      if e: nat :| ConcludesNow(tr, e, token) {
        ActiveIsRegistered(Front(tr), token);
        EvidenceReplaced(tr, token, e, r);
        ConcludingStores(tr, token, e);
        ThreadsAreConsistent(Front(tr), a.thread);
        var l := LocalOf(s.locals, a.thread);
        var f: nat :| OpenedAt(Front(tr), l, a.thread, f);
        OpenSinceUnique(Front(tr), a.thread, e, f);
      } else {
        EvidenceKept(tr, token, r);
        NotConcludingKeeps(tr, token);
      }
    }
  }

  lemma {:induction false} ConcludingStores(tr: Trace, token: Token, e: nat)
    requires Valid(tr) && ConcludesNow(tr, e, token) && token in After(Front(tr)).active
    ensures LocalOf(After(Front(tr)).locals, Last(tr).thread).frames != []
    ensures OpenSince(Front(tr), Last(tr).thread, e)
    ensures token in After(tr).active
    ensures After(tr).active[token] == LocalOf(After(Front(tr)).locals, Last(tr).thread).route
  {
    var t := Last(tr).thread;
    assert tr[..|tr| - 1] == Front(tr);
    ThreadsAreConsistent(Front(tr), t);
    var l := LocalOf(After(Front(tr)).locals, t);
    var f: nat :| OpenedAt(Front(tr), l, t, f);
    OpenSinceUnique(Front(tr), t, e, f);
  }

  lemma {:induction false} NotConcludingKeeps(tr: Trace, token: Token)
    requires Valid(tr) && tr != [] && Last(tr) != Begin(token)
    requires token in After(tr).active && token in After(Front(tr)).active
    requires forall e :: !ConcludesNow(tr, e, token)
    ensures After(tr).active[token] == After(Front(tr)).active[token]
  {
    if Last(tr).Return? {
      var t := Last(tr).thread;
      var l := LocalOf(After(Front(tr)).locals, t);
      ThreadsAreConsistent(Front(tr), t);
      var f := l.frames[|l.frames| - 1];
      if f.depth == 0 && Last(tr).evidence {
        assert |l.frames| == 1;
        var e: nat :| OpenedAt(Front(tr), l, t, e);
        assert tr[..|tr| - 1] == Front(tr) && tr[e] == Front(tr)[e];
        assert !ConcludesNow(tr, e, token);
      }
    }
  }

  /** What a `finish` at the end of any run answers: a route other than the fail-safe one exactly
      when the request is registered and that route is proven. */
  lemma {:induction false} FinishAnswersEvidence(tr: Trace, token: Token, r: Route)
    requires Valid(tr) && r != NativeFailSafe
    ensures Answer(After(tr), token) == r <==> Registered(tr, token) && Proven(tr, token, r)
  {
    ActiveIsRegistered(tr, token);
    if token in After(tr).active {
      KeptRouteIsProven(tr, token, r);
    }
  }

  /** A token that was finished, or that a close swept away, is never active again. */
  lemma {:induction false} FinishedNeverReturns(tr: Trace, token: Token, b: nat, k: nat)
    requires Valid(tr) && b < k < |tr| && tr[b] == Begin(token)
    requires tr[k] == Finish(token) || tr[k] == Close
    ensures token !in After(tr).active && Answer(After(tr), token) == NativeFailSafe
  {
    assert tr[b..][k - b] == tr[k];
    ActiveIsRegistered(tr, token);
    if Registered(tr, token) {
      var c :| 0 <= c < |tr| && tr[c] == Begin(token) && Finish(token) !in tr[c..];
      BeginsAreUnique(tr, token, b, c);
    }
  }

  lemma {:induction false} BeginsAreUnique(tr: Trace, token: Token, b: nat, c: nat)
    requires Valid(tr) && b < |tr| && c < |tr| && tr[b] == tr[c] == Begin(token)
    ensures b == c
    decreases |tr|
  {
    var n := |tr| - 1;
    assert b < n ==> Front(tr)[b] == Begin(token);
    assert c < n ==> Front(tr)[c] == Begin(token);
    if b < n && c < n {
      BeginsAreUnique(Front(tr), token, b, c);
    }
  }

  /** Whatever happened, exceptions included, a thread outside every tracked call holds no route. */
  lemma {:induction false} IdleThreadHoldsNoRoute(tr: Trace, t: Thread)
    requires Valid(tr) && Depth(tr, t) == 0
    ensures LocalOf(After(tr).locals, t) == Local(0, None, [])
  {
    DepthNonNegative(tr, t);
  }
}
