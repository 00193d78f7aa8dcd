/** Overload inference and route reconciliation of one capacity wave: labels of responses may be
    upgraded only when the daemon's counters prove every one of them. */
module Overload {

  datatype Route = NativeResident | NativeFailSafe | OtherRoute(text: string)

  /** One response; `rest` stands for harness, event, size class and timings, which nothing here reads. */
  datatype Observation = Observation(route: Route, allowed: bool, overloaded: bool, rest: string)

  type Counters = map<Route, int>

  function At(c: Counters, k: Route): int {
    if k in c then c[k] else 0
  }

  /** `after - before` keeps the positive differences only. */
  function Delta(before: Counters, after: Counters, k: Route): nat {
    var d := At(after, k) - At(before, k);
    if d > 0 then d else 0
  }

  /** The two labels a proven wave may carry, and how often. */
  function Expected(resident: int, failSafe: int): Counters {
    map[NativeResident := resident, NativeFailSafe := failSafe]
  }

  predicate IsCandidate(o: Observation) {
    o.route == NativeFailSafe && !o.allowed
  }

  function CountAllowed(obs: seq<Observation>): nat {
    if obs == [] then 0 else CountAllowed(obs[..|obs| - 1]) + (if obs[|obs| - 1].allowed then 1 else 0)
  }

  function CountCandidates(obs: seq<Observation>): nat {
    if obs == [] then 0 else CountCandidates(obs[..|obs| - 1]) + (if IsCandidate(obs[|obs| - 1]) then 1 else 0)
  }

  function CountOverloaded(obs: seq<Observation>): nat {
    if obs == [] then 0 else CountOverloaded(obs[..|obs| - 1]) + (if obs[|obs| - 1].overloaded then 1 else 0)
  }

  function CountLabel(obs: seq<Observation>, k: Route): nat {
    if obs == [] then 0 else CountLabel(obs[..|obs| - 1], k) + (if obs[|obs| - 1].route == k then 1 else 0)
  }

  /** `_wave_routes_match`. */
  predicate WaveRoutesMatch(obs: seq<Observation>, errors: nat, before: Counters, after: Counters, expected: Counters) {
    && errors == 0 && obs != []
    && (forall k :: k in before ==> At(after, k) >= before[k])
    && (forall i :: 0 <= i < |obs| ==> obs[i].route.NativeResident? || obs[i].route.NativeFailSafe?)
    && forall k :: k in before.Keys + after.Keys + expected.Keys ==> Delta(before, after, k) == At(expected, k)
  }

  function MarkCandidates(obs: seq<Observation>): (r: seq<Observation>)
    ensures |r| == |obs|
  {
    seq(|obs|, i requires 0 <= i < |obs| => if IsCandidate(obs[i]) then obs[i].(overloaded := true) else obs[i])
  }

  function LabelResident(obs: seq<Observation>): (r: seq<Observation>)
    ensures |r| == |obs|
  {
    seq(|obs|, i requires 0 <= i < |obs| => if !obs[i].overloaded then obs[i].(route := NativeResident) else obs[i])
  }

  predicate AnyOverloaded(obs: seq<Observation>) {
    exists i :: 0 <= i < |obs| && obs[i].overloaded
  }

  /** `_classify_native_overloads`. */
  function ClassifyNativeOverloads(obs: seq<Observation>, overloadDelta: int, errors: nat, before: Counters,
      after: Counters): seq<Observation> {
    var candidates := CountCandidates(obs);
    if AnyOverloaded(obs) then obs
    else if candidates == 0 || overloadDelta != candidates then obs
    else if CountAllowed(obs) + candidates != |obs| then obs
    else if !WaveRoutesMatch(obs, errors, before, after, Expected(CountAllowed(obs), candidates)) then obs
    else MarkCandidates(obs)
  }

  /** `_reconcile_wave_routes`. */
  function ReconcileWaveRoutes(obs: seq<Observation>, errors: nat, before: Counters,
      after: Counters): seq<Observation> {
    if exists i :: 0 <= i < |obs| && obs[i].overloaded == obs[i].allowed then obs
    else if !WaveRoutesMatch(obs, errors, before, after, Expected(|obs| - CountOverloaded(obs), CountOverloaded(obs)))
      then obs
    else LabelResident(obs)
  }

  /** `_concurrent_observations_are_bounded`. */
  predicate ObservationsAreBounded(obs: seq<Observation>, allowOverload: bool) {
    && obs != []
    && forall i :: 0 <= i < |obs| ==>
         if allowOverload then obs[i].overloaded || obs[i].route.NativeResident?
         else !obs[i].overloaded && obs[i].route.NativeResident?
  }

  // ---- Counting ------------------------------------------------------------------------------------

  ghost predicate DeniedIffOverloaded(obs: seq<Observation>) {
    forall i :: 0 <= i < |obs| ==> obs[i].overloaded != obs[i].allowed
  }

  lemma {:induction false} OverloadedAtMost(obs: seq<Observation>)
    ensures CountOverloaded(obs) <= |obs|
    ensures DeniedIffOverloaded(obs) ==> CountAllowed(obs) + CountOverloaded(obs) == |obs|
  {
    if obs != [] {
      OverloadedAtMost(obs[..|obs| - 1]);
    }
  }

  /** If the allowed responses and the candidates make up the wave, each response is one of the two. */
  lemma {:induction false} AllowedOrCandidate(obs: seq<Observation>)
    ensures CountAllowed(obs) + CountCandidates(obs) <= |obs|
    ensures CountAllowed(obs) + CountCandidates(obs) == |obs| ==>
              forall i :: 0 <= i < |obs| ==> obs[i].allowed || IsCandidate(obs[i])
  {
    if obs != [] {
      AllowedOrCandidate(obs[..|obs| - 1]);
    }
  }

  lemma {:induction false} NoCandidate(obs: seq<Observation>)
    ensures CountCandidates(obs) > 0 <==> exists i :: 0 <= i < |obs| && IsCandidate(obs[i])
  {
    if obs != [] {
      NoCandidate(obs[..|obs| - 1]);
      if CountCandidates(obs[..|obs| - 1]) > 0 {
        var i :| 0 <= i < |obs| - 1 && IsCandidate(obs[..|obs| - 1][i]);
        assert IsCandidate(obs[i]);
      }
    }
  }

  /** Marking turns candidates into overloads, one for one, and touches no other field. */
  lemma {:induction false} MarkingCounts(obs: seq<Observation>)
    requires !AnyOverloaded(obs)
    ensures CountOverloaded(MarkCandidates(obs)) == CountCandidates(obs)
    ensures CountAllowed(MarkCandidates(obs)) == CountAllowed(obs)
  {
    if obs != [] {
      var front := obs[..|obs| - 1];
      assert !AnyOverloaded(front) by {
        assert forall i :: 0 <= i < |front| ==> front[i] == obs[i];
      }
      assert MarkCandidates(obs)[..|obs| - 1] == MarkCandidates(front);
      MarkingCounts(front);
    }
  }

  /** How often a label occurs after relabelling: residents are the responses without overload, and
      overloads keep whatever label they had. */
  lemma {:induction false} LabelCounts(obs: seq<Observation>, k: Route)
    ensures CountOverloaded(obs) <= |obs|
    ensures CountLabel(LabelResident(obs), k) ==
            (if k == NativeResident then |obs| - CountOverloaded(obs) else 0) + CountOverloadedAs(obs, k)
  {
    if obs != [] {
      var front := obs[..|obs| - 1];
      assert LabelResident(obs)[..|obs| - 1] == LabelResident(front);
      LabelCounts(front, k);
    }
  }

  function CountOverloadedAs(obs: seq<Observation>, k: Route): nat {
    if obs == [] then 0
    else
      CountOverloadedAs(obs[..|obs| - 1], k)
      + (if obs[|obs| - 1].overloaded && obs[|obs| - 1].route == k then 1 else 0)
  }

  ghost predicate OverloadsLabelledFailSafe(obs: seq<Observation>) {
    forall i :: 0 <= i < |obs| && obs[i].overloaded ==> obs[i].route == NativeFailSafe
  }

  lemma {:induction false} OverloadLabels(obs: seq<Observation>)
    ensures CountOverloadedAs(obs, NativeFailSafe) <= CountOverloaded(obs)
    ensures CountOverloadedAs(obs, NativeFailSafe) == CountOverloaded(obs) <==> OverloadsLabelledFailSafe(obs)
    ensures forall k :: OverloadsLabelledFailSafe(obs) && k != NativeFailSafe ==> CountOverloadedAs(obs, k) == 0
  {
    if obs != [] {
      var front := obs[..|obs| - 1];
      OverloadLabels(front);
      assert OverloadsLabelledFailSafe(obs) <==>
             OverloadsLabelledFailSafe(front)
               && (obs[|obs| - 1].overloaded ==> obs[|obs| - 1].route == NativeFailSafe) by {
        assert forall i :: 0 <= i < |front| ==> front[i] == obs[i];
      }
    }
  }

  // ---- What reconciliation proves ---------------------------------------------------------------------

  ghost predicate Fires(obs: seq<Observation>, errors: nat, before: Counters, after: Counters) {
    && DeniedIffOverloaded(obs)
    && CountOverloaded(obs) <= |obs|
    && WaveRoutesMatch(obs, errors, before, after, Expected(|obs| - CountOverloaded(obs), CountOverloaded(obs)))
  }

  ghost predicate LabelsEqualDeltas(obs: seq<Observation>, before: Counters, after: Counters) {
    forall k :: CountLabel(obs, k) == Delta(before, after, k)
  }

  /** Reconciliation relabels exactly when the counters account for every response; it then changes
      only routes of responses that are not overloaded, and the wave passes the bounded gate. */
  lemma {:induction false} ReconcileExactly(obs: seq<Observation>, errors: nat, before: Counters, after: Counters)
    ensures var r := ReconcileWaveRoutes(obs, errors, before, after);
            if Fires(obs, errors, before, after)
            then r == LabelResident(obs) && ObservationsAreBounded(r, true)
            else r == obs
  {
    OverloadedAtMost(obs);
    if DeniedIffOverloaded(obs) {
      assert !(exists i :: 0 <= i < |obs| && obs[i].overloaded == obs[i].allowed);
    } else {
      var i :| 0 <= i < |obs| && obs[i].overloaded == obs[i].allowed;
    }
  }

  /** Once it fires, the labels tally with the counters exactly when every overloaded response was
      already labelled fail-safe. */
  lemma {:induction false} LabelsTallyExactly(obs: seq<Observation>, errors: nat, before: Counters, after: Counters)
    requires Fires(obs, errors, before, after)
    ensures LabelsEqualDeltas(LabelResident(obs), before, after) <==> OverloadsLabelledFailSafe(obs)
  {
    var r := LabelResident(obs);
    var expected := Expected(|obs| - CountOverloaded(obs), CountOverloaded(obs));
    OverloadLabels(obs);
    forall k ensures Delta(before, after, k) == At(expected, k) {
      if k !in before.Keys + after.Keys + expected.Keys {
        assert At(before, k) == At(after, k) == 0;
      }
    }
    LabelCounts(obs, NativeFailSafe);
    if OverloadsLabelledFailSafe(obs) {
      forall k ensures CountLabel(r, k) == Delta(before, after, k) {
        LabelCounts(obs, k);
      }
    }
    if LabelsEqualDeltas(r, before, after) {
      assert CountLabel(r, NativeFailSafe) == Delta(before, after, NativeFailSafe);
    }
  }

  /** It can fire on an overloaded response that still carries the resident label, and then they do not. */
  lemma {:induction false} ResidentOverloadDoesNotTally(rest: string)
    ensures var obs, after := [Observation(NativeResident, false, true, rest)], map[NativeFailSafe := 1];
            && Fires(obs, 0, map[], after) && !OverloadsLabelledFailSafe(obs)
            && !LabelsEqualDeltas(ReconcileWaveRoutes(obs, 0, map[], after), map[], after)
  {
    var obs, before: Counters, after: Counters :=
      [Observation(NativeResident, false, true, rest)], map[], map[NativeFailSafe := 1];
    assert obs[..0] == [] && CountOverloaded(obs) == 1;
    assert obs[0].overloaded && obs[0].route != NativeFailSafe;
    ReconcileExactly(obs, 0, before, after);
    LabelsTallyExactly(obs, 0, before, after);
  }

  /** Inference composes: when classification marks anything, every response was allowed or a denied
      fail-safe one, the marks are exactly the latter, reconciliation fires, labels equal the counter
      differences, and the 64-client gate holds. */
  lemma {:induction false} InferenceIsSound(obs: seq<Observation>, overloadDelta: int, errors: nat, before: Counters,
      after: Counters)
    ensures var c := ClassifyNativeOverloads(obs, overloadDelta, errors, before, after);
            var r := ReconcileWaveRoutes(c, errors, before, after);
            c != obs ==>
              && |r| == |obs|
              && (forall i :: 0 <= i < |obs| ==>
                    && r[i] == obs[i].(
                         overloaded := !obs[i].allowed,
                         route := if obs[i].allowed then NativeResident else obs[i].route)
                    && (!obs[i].allowed ==> IsCandidate(obs[i])))
              && LabelsEqualDeltas(r, before, after)
              && CountOverloaded(c) == overloadDelta
              && ObservationsAreBounded(r, true)
  {
    var c := ClassifyNativeOverloads(obs, overloadDelta, errors, before, after);
    if c != obs {
      AllowedOrCandidate(obs);
      MarkingCounts(obs);
      assert c == MarkCandidates(obs);
      assert DeniedIffOverloaded(c);
      OverloadedAtMost(c);
      MarkingKeepsMatch(obs, errors, before, after);
      ReconcileExactly(c, errors, before, after);
      assert OverloadsLabelledFailSafe(c);
      LabelsTallyExactly(c, errors, before, after);
    }
  }

  lemma {:induction false} MarkingKeepsMatch(obs: seq<Observation>, errors: nat, before: Counters, after: Counters)
    requires !AnyOverloaded(obs) && CountAllowed(obs) + CountCandidates(obs) == |obs|
    requires WaveRoutesMatch(obs, errors, before, after, Expected(CountAllowed(obs), CountCandidates(obs)))
    ensures CountOverloaded(MarkCandidates(obs)) <= |obs|
    ensures WaveRoutesMatch(MarkCandidates(obs), errors, before, after,
                            Expected(|obs| - CountOverloaded(MarkCandidates(obs)),
                              CountOverloaded(MarkCandidates(obs))))
  {
    MarkingCounts(obs);
    forall i | 0 <= i < |obs| ensures MarkCandidates(obs)[i].route == obs[i].route {
    }
  }

  /** When classification marks nothing, any change of labels is proven by the counters alone. */
  lemma {:induction false} ChangeNeedsProof(obs: seq<Observation>, overloadDelta: int, errors: nat, before: Counters,
      after: Counters)
    requires ClassifyNativeOverloads(obs, overloadDelta, errors, before, after) == obs
    ensures var r := ReconcileWaveRoutes(obs, errors, before, after);
            r != obs ==>
              && errors == 0
              && (forall i :: 0 <= i < |obs| ==>
                 obs[i].overloaded != obs[i].allowed && r[i] == obs[i].(route := r[i].route))
              && Delta(before, after, NativeResident) == CountAllowed(obs)
              && Delta(before, after, NativeFailSafe) == CountOverloaded(obs)
              && Delta(before, after, NativeResident) + Delta(before, after, NativeFailSafe) == |obs|
  {
    ReconcileExactly(obs, errors, before, after);
    OverloadedAtMost(obs);
    if Fires(obs, errors, before, after) {
      var expected := Expected(|obs| - CountOverloaded(obs), CountOverloaded(obs));
      assert NativeResident in expected && NativeFailSafe in expected;
    }
  }
}
