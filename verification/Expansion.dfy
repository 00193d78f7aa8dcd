/** The expansion check that runs before any recursive use of evaluated values. It walks a
    worklist and aborts early; it is proved to decide the recursive measures exactly. */
module Expansion {
  import opened Powers
  import opened StaticValues

  type Pending = seq<(Value, nat)>

  ghost predicate WithinBudgets(v: Value) {
    && Occurrences(v) <= MAX_EVALUATED_ITEMS
    && Height(v) <= MAX_AST_DEPTH
    && StringBytes(v) <= MAX_JSON_BYTES
  }

  ghost function PendingOccurrences(p: Pending): nat {
    if p == [] then 0 else PendingOccurrences(p[..|p| - 1]) + Occurrences(p[|p| - 1].0)
  }

  ghost function PendingBytes(p: Pending): nat {
    if p == [] then 0 else PendingBytes(p[..|p| - 1]) + StringBytes(p[|p| - 1].0)
  }

  ghost predicate NoneTallerThan(p: Pending, bound: nat) {
    forall i :: 0 <= i < |p| ==> p[i].1 + Height(p[i].0) <= bound
  }

  /** What every state of the worklist owes to the root it came from. */
  ghost predicate Accounts(root: Value, pending: Pending, items: nat, bytes: nat) {
    && Occurrences(root) == items + PendingOccurrences(pending)
    && StringBytes(root) == bytes + PendingBytes(pending)
    && NoneTallerThan(pending, Height(root))
    && (NoneTallerThan(pending, MAX_AST_DEPTH) ==> Height(root) <= MAX_AST_DEPTH)
  }

  function AtDepth(values: seq<Value>, depth: nat): (p: Pending)
    ensures |p| == |values|
    ensures forall i :: 0 <= i < |p| ==> p[i] == (values[i], depth)
  {
    seq(|values|, i requires 0 <= i < |values| => (values[i], depth))
  }

  lemma {:induction false} PendingIsLong(p: Pending)
    ensures PendingOccurrences(p) >= |p|
  {
    if p != [] {
      PendingIsLong(p[..|p| - 1]);
    }
  }

  lemma {:induction false} PendingLast(p: Pending, v: Value, depth: nat)
    ensures PendingOccurrences(p + [(v, depth)]) == PendingOccurrences(p) + Occurrences(v)
    ensures PendingBytes(p + [(v, depth)]) == PendingBytes(p) + StringBytes(v)
  {
    var all := p + [(v, depth)];
    assert all[..|all| - 1] == p;
  }

  lemma {:induction false} AtDepthLast(base: Pending, values: seq<Value>, k: nat, depth: nat)
    requires 0 < k <= |values|
    ensures base + AtDepth(values[..k], depth) == base + AtDepth(values[..k - 1], depth) + [(values[k - 1], depth)]
  {
  }

  /** Enqueuing the first `k` children of `v` adds exactly what `v` owes for them. */
  lemma {:induction false} EnqueueAdds(base: Pending, v: Value, k: nat, depth: nat)
    requires k <= |Children(v)|
    ensures PendingOccurrences(base + AtDepth(Children(v)[..k], depth))
            == PendingOccurrences(base) + OccurrencesBelow(v, k)
    ensures PendingBytes(base + AtDepth(Children(v)[..k], depth)) == PendingBytes(base) + StringBytesBelow(v, k)
  {
    if k == 0 {
      assert base + AtDepth(Children(v)[..0], depth) == base;
    } else {
      EnqueueAdds(base, v, k - 1, depth);
      AtDepthLast(base, Children(v), k, depth);
      PendingLast(base + AtDepth(Children(v)[..k - 1], depth), Children(v)[k - 1], depth);
    }
  }

  lemma {:induction false} ChildHeight(v: Value, k: nat, i: nat)
    requires i < k <= |Children(v)|
    ensures 1 + Height(Children(v)[i]) <= HeightBelow(v, k)
  {
    if i < k - 1 {
      ChildHeight(v, k - 1, i);
    }
  }

  lemma {:induction false} TallestChild(v: Value, k: nat) returns (i: nat)
    requires k <= |Children(v)| && HeightBelow(v, k) > 0
    ensures i < k && HeightBelow(v, k) == 1 + Height(Children(v)[i])
  {
    if HeightBelow(v, k) == 1 + Height(Children(v)[k - 1]) {
      i := k - 1;
    } else {
      i := TallestChild(v, k - 1);
    }
  }

  /** Replacing `(v, depth)` by its children one level down keeps every height bound, both ways. */
  lemma {:induction false} ChildrenReachAsHigh(rest: Pending, v: Value, depth: nat, bound: nat)
    requires depth <= bound
    ensures NoneTallerThan(rest + [(v, depth)], bound)
            <==> NoneTallerThan(rest + AtDepth(Children(v), depth + 1), bound)
  {
    var n := |Children(v)|;
    var last, below := [(v, depth)], AtDepth(Children(v), depth + 1);
    forall i | 0 <= i < n ensures 1 + Height(Children(v)[i]) <= Height(v) {
      ChildHeight(v, n, i);
    }
    assert NoneTallerThan(rest + last, bound) <==> NoneTallerThan(rest, bound) && depth + Height(v) <= bound by {
      SplitBound(rest, last, bound);
      assert last[0] == (v, depth);
    }
    SplitBound(rest, below, bound);
    if NoneTallerThan(below, bound) && Height(v) > 0 {
      var j := TallestChild(v, n);
      assert below[j] == (Children(v)[j], depth + 1);
    }
  }

  lemma {:induction false} SplitBound(a: Pending, b: Pending, bound: nat)
    ensures NoneTallerThan(a + b, bound) <==> NoneTallerThan(a, bound) && NoneTallerThan(b, bound)
  {
    if NoneTallerThan(a + b, bound) {
      assert forall i :: 0 <= i < |a| ==> a[i] == (a + b)[i];
      assert forall i :: 0 <= i < |b| ==> b[i] == (a + b)[|a| + i];
    }
  }

  lemma {:induction false} PopKeepsCounts(rest: Pending, v: Value, depth: nat)
    ensures PendingOccurrences(rest + [(v, depth)]) == 1 + PendingOccurrences(rest + AtDepth(Children(v), depth + 1))
    ensures PendingBytes(rest + [(v, depth)]) == OwnBytes(v) + PendingBytes(rest + AtDepth(Children(v), depth + 1))
  {
    PendingLast(rest, v, depth);
    assert Children(v)[..|Children(v)|] == Children(v);
    EnqueueAdds(rest, v, |Children(v)|, depth + 1);
  }

  /** One turn of the loop: pop `v`, push its children, and nothing is lost or double counted. */
  lemma {:induction false} PopKeepsAccounts(root: Value, rest: Pending, v: Value, depth: nat, items: nat, bytes: nat)
    requires Accounts(root, rest + [(v, depth)], items, bytes)
    requires depth <= MAX_AST_DEPTH
    ensures Accounts(root, rest + AtDepth(Children(v), depth + 1), items + 1, bytes + OwnBytes(v))
  {
    PopKeepsCounts(rest, v, depth);
    assert (rest + [(v, depth)])[|rest|] == (v, depth);
    ChildrenReachAsHigh(rest, v, depth, Height(root));
    ChildrenReachAsHigh(rest, v, depth, MAX_AST_DEPTH);
  }

  /** The worklist check, with its early aborts. `pops` and `peak` are the number of values it
      looked at and the largest number it had looked at or queued at any moment. */
  method ValidateExpandedValues(root: Value) returns (accepted: bool, pops: nat, peak: nat)
    ensures accepted <==> WithinBudgets(root)
    ensures pops <= MAX_EVALUATED_ITEMS && peak <= MAX_EVALUATED_ITEMS
    ensures accepted ==> pops == Occurrences(root)
  {
    var pending: Pending := [(root, 0)];
    var items: nat, stringBytes: nat := 0, 0;
    peak := 1;
    assert pending[..0] == [];
    while pending != []
      invariant Accounts(root, pending, items, stringBytes)
      invariant items + |pending| <= peak <= MAX_EVALUATED_ITEMS
      invariant stringBytes <= MAX_JSON_BYTES
      decreases PendingOccurrences(pending)
    {
      PendingIsLong(pending);
      ghost var before := pending;
      var (value, depth) := pending[|pending| - 1];
      pending := pending[..|pending| - 1];
      items := items + 1;
      if items > MAX_EVALUATED_ITEMS || depth > MAX_AST_DEPTH {
        return false, items, peak;
      }
      assert before == pending + [(value, depth)];
      PopKeepsAccounts(root, pending, value, depth, items - 1, stringBytes);
      stringBytes := stringBytes + OwnBytes(value);
      if value.Str? && stringBytes > MAX_JSON_BYTES {
        return false, items, peak;
      }
      var children := Children(value);
      PendingIsLong(pending + AtDepth(children, depth + 1));
      if items + |pending| + |children| > MAX_EVALUATED_ITEMS {
        return false, items, peak;
      }
      pending := pending + AtDepth(children, depth + 1);
      if items + |pending| > peak {
        peak := items + |pending|;
      }
    }
    return true, items, peak;
  }

  /** A value of `k` nested pairs that share both halves: `k + 1` objects in memory. */
  function Doubling(k: nat): Value {
    if k == 0 then Null else Tuple([Doubling(k - 1), Doubling(k - 1)])
  }

  lemma {:induction false} DoublingExplodes(k: nat)
    ensures Occurrences(Doubling(k)) == 2 * Pow2(k) - 1
    ensures Height(Doubling(k)) == k && StringBytes(Doubling(k)) == 0
  {
    if k > 0 {
      DoublingExplodes(k - 1);
      var v := Doubling(k);
      assert Children(v) == [Doubling(k - 1), Doubling(k - 1)];
      assert OccurrencesBelow(v, 2) == OccurrencesBelow(v, 1) + Occurrences(Doubling(k - 1));
      assert OccurrencesBelow(v, 1) == OccurrencesBelow(v, 0) + Occurrences(Doubling(k - 1));
      assert StringBytesBelow(v, 2) == StringBytesBelow(v, 1) + StringBytes(Doubling(k - 1));
      assert StringBytesBelow(v, 1) == StringBytesBelow(v, 0) + StringBytes(Doubling(k - 1));
      assert HeightBelow(v, 1) == 1 + Height(Doubling(k - 1));
    } else {
      assert Children(Null) == [];
    }
  }

  /** Sharing alone exhausts the budget: fourteen nested shared pairs pass, fifteen do not. */
  lemma {:induction false} SharedPairsAcceptedUpToFourteen(k: nat)
    ensures WithinBudgets(Doubling(k)) <==> k <= 14
  {
    DoublingExplodes(k);
    assert Pow2(14) == 16_384 by {
      assert Pow2(7) == 128;
      assert Pow2(11) == 2_048;
    }
    assert Pow2(15) == 2 * Pow2(14);
    if k <= 14 {
      PowersGrow(k, 14);
    } else {
      PowersGrow(15, k);
    }
  }
}
