/** Values whose every sequence and mapping is within the evaluator's length limit, and which operations
    keep them so. */
module Bounds {
  import opened Options
  import opened StaticValues
  import opened PythonValues
  import opened Expressions

  predicate AllBounded(items: seq<Value>) {
    forall i :: 0 <= i < |items| ==> Bounded(items[i])
  }

  ghost predicate EnvBounded(env: Env) {
    forall id :: id in env.bindings ==> Bounded(env.bindings[id])
  }

  predicate PairsBounded(pairs: seq<(Value, Value)>) {
    forall i :: 0 <= i < |pairs| ==> Bounded(pairs[i].0) && Bounded(pairs[i].1)
  }

  predicate FieldsBounded(fields: Fields) {
    forall i :: 0 <= i < |fields| ==> Bounded(fields[i].1)
  }

  lemma {:induction false} ScalarBounded(v: Value)
    requires IsScalar(v)
    ensures Bounded(v)
  {
  }

  lemma {:induction false} SequenceBounded(v: Value)
    requires v.Tuple? || v.List? || v.FrozenSet?
    ensures Bounded(v) <==> |v.items| <= MAX_SEQUENCE_ITEMS && AllBounded(v.items)
  {
    assert Children(v) == v.items;
  }

  lemma {:induction false} DictBounded(pairs: seq<(Value, Value)>)
    ensures Bounded(Dict(pairs)) <==> |pairs| <= MAX_SEQUENCE_ITEMS && PairsBounded(pairs)
  {
    var c := Children(Dict(pairs));
    forall i | 0 <= i < |pairs| ensures c[2 * i] == pairs[i].0 && c[2 * i + 1] == pairs[i].1 {
      assert (2 * i) / 2 == i && (2 * i + 1) / 2 == i && (2 * i) % 2 == 0 && (2 * i + 1) % 2 == 1;
    }
    if PairsBounded(pairs) {
      forall i | 0 <= i < |c| ensures Bounded(c[i]) {
        assert c[i] == pairs[i / 2].0 || c[i] == pairs[i / 2].1;
      }
    } else {
      var i :| 0 <= i < |pairs| && !(Bounded(pairs[i].0) && Bounded(pairs[i].1));
      assert !Bounded(c[2 * i]) || !Bounded(c[2 * i + 1]);
    }
  }

  lemma {:induction false} MatcherBounded(v: Value)
    requires v.Matcher?
    ensures Bounded(v) <==>
            |v.matchers| <= MAX_SEQUENCE_ITEMS && Bounded(v.config) && AllBounded(v.matchers) &&
            (v.producer.Some? ==> Bounded(v.producer.value)) && (v.consumer.Some? ==> Bounded(v.consumer.value))
  {
    var c, m := Children(v), |v.matchers|;
    assert c[0] == v.config;
    assert forall i :: 0 <= i < m ==> c[1 + i] == v.matchers[i];
    if v.producer.Some? {
      assert c[1 + m] == v.producer.value;
    }
    if v.consumer.Some? {
      assert c[|c| - 1] == v.consumer.value;
    }
    if Bounded(v) {
      forall i | 0 <= i < m ensures Bounded(v.matchers[i]) {
        assert Bounded(c[1 + i]);
      }
    }
  }

  lemma {:induction false} ConstructedBounded(kind: string, fields: Value)
    ensures Bounded(Constructed(kind, fields)) <==>
            Bounded(fields) && (fields.Dict? ==> RecordSize(fields.pairs) <= MAX_SEQUENCE_ITEMS)
  {
    assert Children(Constructed(kind, fields))[0] == fields;
  }

  lemma {:induction false} MembersBounded(items: seq<Value>, part: seq<Value>)
    requires AllBounded(items) && forall v :: v in part ==> v in items
    ensures AllBounded(part)
  {
    forall i | 0 <= i < |part| ensures Bounded(part[i]) {
      assert part[i] in items;
    }
  }

  lemma {:induction false} IterateBounded(v: Value)
    requires Bounded(v) && Iterate(v).Ok?
    ensures AllBounded(Iterate(v).value)
  {
    if v.Dict? {
      DictBounded(v.pairs);
    } else if v.Str? {
      assert forall i :: 0 <= i < |v.s| ==> Iterate(v).value[i] == Str([v.s[i]]);
    } else {
      SequenceBounded(v);
    }
  }

  lemma {:induction false} SequenceItemsBounded(v: Value)
    requires Bounded(v) && AsSequence(v).Ok?
    ensures |AsSequence(v).value| <= MAX_SEQUENCE_ITEMS && AllBounded(AsSequence(v).value)
  {
    SequenceBounded(v);
  }

  lemma {:induction false} DistinctBounded(items: seq<Value>)
    requires AllBounded(items) && |items| <= MAX_SEQUENCE_ITEMS
    ensures Bounded(FrozenSet(Distinct(items)))
  {
    MembersBounded(items, Distinct(items));
    SequenceBounded(FrozenSet(Distinct(items)));
  }

  lemma {:induction false} LookupBounded(key: Value, pairs: seq<(Value, Value)>)
    requires PairsBounded(pairs) && Lookup(key, pairs).Ok?
    ensures Bounded(Lookup(key, pairs).value)
  {
    if !Equal(key, pairs[0].0) {
      LookupBounded(key, pairs[1..]);
    }
  }

  lemma {:induction false} ItemBounded(container: Value, index: Value)
    requires Bounded(container) && Item(container, index).Ok?
    ensures Bounded(Item(container, index).value)
  {
    if container.Dict? {
      DictBounded(container.pairs);
      LookupBounded(index, container.pairs);
    } else if !container.Str? {
      SequenceBounded(container);
    }
  }

  lemma {:induction false} SumBounded(a: Value, b: Value)
    requires Bounded(a) && Bounded(b) && Sum(a, b).Ok? && SizeOf(a) + SizeOf(b) <= MAX_SEQUENCE_ITEMS
    ensures Bounded(Sum(a, b).value)
  {
    if !a.Str? {
      SequenceBounded(a);
      SequenceBounded(b);
      SequenceBounded(Sum(a, b).value);
    }
  }

  lemma {:induction false} UnionBounded(a: Value, b: Value)
    requires Bounded(a) && Bounded(b) && Union(a, b).Ok? && SizeOf(Union(a, b).value) <= MAX_SEQUENCE_ITEMS
    ensures Bounded(Union(a, b).value)
  {
    if a.FrozenSet? {
      SequenceBounded(a);
      SequenceBounded(b);
      MembersBounded(a.items + b.items, Distinct(a.items + b.items));
      SequenceBounded(Union(a, b).value);
    } else {
      DictBounded(a.pairs);
      DictBounded(b.pairs);
      DictBounded(a.pairs + b.pairs);
    }
  }

  lemma {:induction false} NamedBounded(fields: Fields, name: string)
    requires FieldsBounded(fields) && Named(fields, name).Some?
    ensures Bounded(Named(fields, name).value)
  {
    if fields[0].0 != name {
      NamedBounded(fields[1..], name);
    }
  }

  lemma {:induction false} BindTargetBounded(target: Target, v: Value, env: Env)
    requires Bounded(v) && EnvBounded(env) && BindTarget(target, v, env).Ok?
    ensures EnvBounded(BindTarget(target, v, env).value)
    decreases target, 1, 0
  {
    if target.Shape? {
      SequenceBounded(v);
      BindTargetsBounded(target, target.items, v.items, env);
    }
  }

  lemma {:induction false} BindTargetsBounded(parent: Target, items: seq<Target>, values: seq<Value>, env: Env)
    requires |items| == |values| && forall i :: 0 <= i < |items| ==> items[i] < parent
    requires AllBounded(values) && EnvBounded(env) && BindTargets(parent, items, values, env).Ok?
    ensures EnvBounded(BindTargets(parent, items, values, env).value)
    decreases parent, 0, |items|
  {
    if items != [] {
      BindTargetBounded(items[0], values[0], env);
      BindTargetsBounded(parent, items[1..], values[1..], BindTarget(items[0], values[0], env).value);
    }
  }

  lemma {:induction false} BindNamesBounded(targets: seq<Option<string>>, v: Value, env: Env)
    requires Bounded(v) && EnvBounded(env) && BindNames(targets, v, env).Ok?
    ensures EnvBounded(BindNames(targets, v, env).value)
  {
    if targets != [] {
      BindNamesBounded(targets[1..], v, Bound(env, targets[0].value, v));
    }
  }
}
