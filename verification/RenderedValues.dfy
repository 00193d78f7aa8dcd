/** What rendering keeps: it is idempotent, and a value is within the length limit exactly if its rendering is. */
module RenderedValues {
  import opened Options
  import opened StaticValues
  import opened PythonValues
  import opened Rendering
  import opened Bounds

  // ---- Rendering twice ---------------------------------------------------------------------------------------

  predicate AllRendered(items: seq<Value>, lib: Library) {
    forall i :: 0 <= i < |items| ==> Json(items[i], lib) == items[i]
  }

  predicate PairsRendered(pairs: seq<(Value, Value)>, lib: Library) {
    forall i :: 0 <= i < |pairs| ==> Json(pairs[i].1, lib) == pairs[i].1
  }

  lemma {:induction false} RenderedList(items: seq<Value>, lib: Library)
    requires AllRendered(items, lib)
    ensures Json(List(items), lib) == List(items)
  {
    var r := Json(List(items), lib).items;
    assert |r| == |items| && forall i :: 0 <= i < |items| ==> r[i] == items[i];
    assert r == items;
  }

  lemma {:induction false} RenderedDict(pairs: seq<(Value, Value)>, lib: Library)
    requires PairsRendered(pairs, lib)
    ensures Json(Dict(pairs), lib) == Dict(pairs)
  {
    var r := Json(Dict(pairs), lib).pairs;
    assert |r| == |pairs| && forall i :: 0 <= i < |pairs| ==> r[i] == pairs[i];
    assert r == pairs;
  }

  lemma {:induction false} MembersRendered(items: seq<Value>, part: seq<Value>, lib: Library)
    requires AllRendered(items, lib) && forall v :: v in part ==> v in items
    ensures AllRendered(part, lib)
  {
    forall i | 0 <= i < |part| ensures Json(part[i], lib) == part[i] {
      assert part[i] in items;
    }
  }

  lemma {:induction false} KindFirstRendered(kind: string, fields: seq<(Value, Value)>, lib: Library)
    requires PairsRendered(fields, lib)
    ensures PairsRendered(KindFirst(kind, fields), lib)
  {
    var all := KindFirst(kind, fields);
    forall i | 0 <= i < |all| ensures Json(all[i].1, lib) == all[i].1 {
      assert all[i] == (Str(KIND), Str(kind)) || all[i] in fields;
    }
  }

  lemma {:induction false} OptionalRendered(key: string, v: Option<Value>, lib: Library)
    requires v.Some? ==> Json(v.value, lib) == v.value
    ensures PairsRendered(Optional(key, v), lib)
  {
  }

  lemma {:induction false} PairsRenderedJoin(a: seq<(Value, Value)>, b: seq<(Value, Value)>, lib: Library)
    requires PairsRendered(a, lib) && PairsRendered(b, lib)
    ensures PairsRendered(a + b, lib)
  {
  }

  lemma {:induction false} SourceRendered(
    op: string, config: Value, matchers: seq<Value>, producer: Option<Value>, consumer: Option<Value>, lib: Library)
    requires Json(config, lib) == config && AllRendered(matchers, lib)
    requires producer.Some? ==> Json(producer.value, lib) == producer.value
    requires consumer.Some? ==> Json(consumer.value, lib) == consumer.value
    ensures PairsRendered(Source(op, config, matchers, producer, consumer), lib)
  {
    hide Json;
    var head := [(Str("op"), Str(op)), (Str("config"), config)];
    var children := Optional("matchers", if matchers == [] then None else Some(List(matchers)));
    RenderedList(matchers, lib);
    OptionalRendered("matchers", if matchers == [] then None else Some(List(matchers)), lib);
    OptionalRendered("producer", producer, lib);
    OptionalRendered("consumer", consumer, lib);
    PairsRenderedJoin(head, children, lib);
    PairsRenderedJoin(head + children, Optional("producer", producer), lib);
    PairsRenderedJoin(head + children + Optional("producer", producer), Optional("consumer", consumer), lib);
  }

  lemma {:induction false} JsonTwice(v: Value, lib: Library)
    ensures Json(Json(v, lib), lib) == Json(v, lib)
    decreases v
  {
    match v
    case Tuple(items) => ItemsTwice(v, items, lib);
    case List(items) => ItemsTwice(v, items, lib);
    case FrozenSet(items) => SetTwice(v, lib);
    case Dict(pairs) => DictTwice(v, lib);
    case Matcher(op, config, matchers, producer, consumer) => MatcherTwice(v, lib);
    case Constructed(kind, fields) => RecordTwice(v, lib);
    case _ =>
  }

  lemma {:induction false} SetTwice(v: Value, lib: Library)
    requires v.FrozenSet?
    ensures Json(Json(v, lib), lib) == Json(v, lib)
    decreases v, 1
  {
    var all := JsonAll(v.items, lib);
    ItemsTwice(v, v.items, lib);
    SortedMembers(all, lib.textBefore);
    MembersRendered(all, SortedBy(all, lib.textBefore), lib);
    RenderedList(SortedBy(all, lib.textBefore), lib);
  }

  lemma {:induction false} DictTwice(v: Value, lib: Library)
    requires v.Dict?
    ensures PairsRendered(Json(v, lib).pairs, lib) && Json(Json(v, lib), lib) == Json(v, lib)
    decreases v, 1
  {
    var r := Json(v, lib).pairs;
    forall i | 0 <= i < |r| ensures Json(r[i].1, lib) == r[i].1 {
      JsonTwice(v.pairs[i].1, lib);
    }
    RenderedDict(r, lib);
  }

  lemma {:induction false} RecordTwice(v: Value, lib: Library)
    requires v.Constructed?
    ensures Json(Json(v, lib), lib) == Json(v, lib)
    decreases v, 1
  {
    if v.fields.Dict? {
      DictTwice(v.fields, lib);
      KindFirstRendered(v.kind, Json(v.fields, lib).pairs, lib);
      RenderedDict(KindFirst(v.kind, Json(v.fields, lib).pairs), lib);
    } else {
      JsonTwice(v.fields, lib);
    }
  }

  lemma {:induction false} ItemsTwice(parent: Value, items: seq<Value>, lib: Library)
    requires forall i :: 0 <= i < |items| ==> items[i] < parent
    ensures AllRendered(JsonAll(items, lib), lib)
    ensures Json(List(JsonAll(items, lib)), lib) == List(JsonAll(items, lib))
    decreases parent, 0
  {
    forall i | 0 <= i < |items| ensures Json(JsonAll(items, lib)[i], lib) == JsonAll(items, lib)[i] {
      JsonTwice(items[i], lib);
    }
    RenderedList(JsonAll(items, lib), lib);
  }

  lemma {:induction false} MatcherTwice(v: Value, lib: Library)
    requires v.Matcher?
    ensures Json(Json(v, lib), lib) == Json(v, lib)
    decreases v, 1
  {
    JsonTwice(v.config, lib);
    ItemsTwice(v, v.matchers, lib);
    if v.producer.Some? {
      JsonTwice(v.producer.value, lib);
    }
    if v.consumer.Some? {
      JsonTwice(v.consumer.value, lib);
    }
    var producer := if v.producer.Some? then Some(Json(v.producer.value, lib)) else None;
    var consumer := if v.consumer.Some? then Some(Json(v.consumer.value, lib)) else None;
    SourceRendered(v.op, Json(v.config, lib), JsonAll(v.matchers, lib), producer, consumer, lib);
    RenderedDict(Source(v.op, Json(v.config, lib), JsonAll(v.matchers, lib), producer, consumer), lib);
  }

  // ---- The length limit --------------------------------------------------------------------------------------

  /** A rendered record has one entry more, unless a field takes the place of its kind. */
  lemma {:induction false} RecordGrows(kind: string, fields: seq<(Value, Value)>)
    ensures |KindFirst(kind, fields)| == RecordSize(fields)
    ensures PairsBounded(KindFirst(kind, fields)) <==> PairsBounded(fields)
  {
    var all := KindFirst(kind, fields);
    if HasKey(fields, KIND) {
      var k := FirstKey(fields, KIND);
      assert all[0] == fields[k];
      assert forall i :: 0 <= i < k ==> all[1 + i] == fields[i];
      assert forall i :: k < i < |fields| ==> all[i] == fields[i];
    } else {
      ScalarBounded(Str(KIND));
      ScalarBounded(Str(kind));
      assert forall i :: 0 <= i < |fields| ==> all[1 + i] == fields[i];
    }
    if PairsBounded(all) {
      forall i | 0 <= i < |fields| ensures Bounded(fields[i].0) && Bounded(fields[i].1) {
        assert fields[i] in all;
      }
    }
    if PairsBounded(fields) {
      forall i | 0 <= i < |all| ensures Bounded(all[i].0) && Bounded(all[i].1) {
        assert all[i] == (Str(KIND), Str(kind)) || all[i] in fields;
      }
    }
  }

  lemma {:induction false} OptionalBounded(key: string, v: Option<Value>)
    ensures PairsBounded(Optional(key, v)) <==> (v.Some? ==> Bounded(v.value))
    ensures |Optional(key, v)| <= 1
  {
    ScalarBounded(Str(key));
    if v.Some? {
      assert Optional(key, v)[0] == (Str(key), v.value);
    }
  }

  lemma {:induction false} PairsBoundedJoin(a: seq<(Value, Value)>, b: seq<(Value, Value)>)
    ensures PairsBounded(a + b) <==> PairsBounded(a) && PairsBounded(b)
  {
    assert forall i :: 0 <= i < |a| ==> (a + b)[i] == a[i];
    assert forall i :: 0 <= i < |b| ==> (a + b)[|a| + i] == b[i];
    if PairsBounded(a) && PairsBounded(b) {
      forall i | 0 <= i < |a + b| ensures Bounded((a + b)[i].0) && Bounded((a + b)[i].1) {
        assert i >= |a| ==> (a + b)[i] == b[i - |a|];
      }
    }
  }

  lemma {:induction false} SourceBounded(op: string, config: Value, matchers: seq<Value>, producer: Option<Value>,
      consumer: Option<Value>)
    ensures Bounded(Dict(Source(op, config, matchers, producer, consumer))) <==>
            && |matchers| <= MAX_SEQUENCE_ITEMS && Bounded(config) && AllBounded(matchers)
            && (producer.Some? ==> Bounded(producer.value)) && (consumer.Some? ==> Bounded(consumer.value))
  {
    var head := [(Str("op"), Str(op)), (Str("config"), config)];
    var listed := if matchers == [] then None else Some(List(matchers));
    ScalarBounded(Str("op"));
    ScalarBounded(Str(op));
    ScalarBounded(Str("config"));
    assert PairsBounded(head) <==> Bounded(config) by {
      assert head[1] == (Str("config"), config);
    }
    SequenceBounded(List(matchers));
    OptionalBounded("matchers", listed);
    OptionalBounded("producer", producer);
    OptionalBounded("consumer", consumer);
    PairsBoundedJoin(head, Optional("matchers", listed));
    PairsBoundedJoin(head + Optional("matchers", listed), Optional("producer", producer));
    PairsBoundedJoin(head + Optional("matchers", listed) + Optional("producer", producer),
      Optional("consumer", consumer));
    DictBounded(Source(op, config, matchers, producer, consumer));
  }

  /** Main result: rendering neither breaks nor mends the length limit. */
  lemma {:induction false} RenderingKeepsTheLimit(v: Value, lib: Library)
    ensures Bounded(Json(v, lib)) <==> Bounded(v)
    decreases v
  {
    match v
    case Tuple(items) => ItemsKeep(v, items, lib);
    case List(items) => ItemsKeep(v, items, lib);
    case FrozenSet(items) =>
      var all := JsonAll(items, lib);
      ItemsKeep(v, items, lib);
      OrderKeeps(all, SortedBy(all, lib.textBefore));
    case Dict(pairs) => PairsKeep(v, lib);
    case Matcher(op, config, matchers, producer, consumer) => MatcherKeeps(v, lib);
    case Constructed(kind, fields) => RecordKeeps(v, lib);
    case _ =>
  }

  lemma {:induction false} OrderKeeps(items: seq<Value>, sorted: seq<Value>)
    requires multiset(sorted) == multiset(items)
    ensures Bounded(List(sorted)) <==> Bounded(List(items))
    ensures |sorted| == |items| && forall v :: v in sorted <==> v in items
  {
    assert |multiset(sorted)| == |multiset(items)|;
    forall v ensures v in sorted <==> v in items {
      assert v in multiset(sorted) <==> v in multiset(items);
    }
    SequenceBounded(List(sorted));
    SequenceBounded(List(items));
    if AllBounded(items) {
      MembersBounded(items, sorted);
    }
    if AllBounded(sorted) {
      MembersBounded(sorted, items);
    }
  }

  lemma {:induction false} ItemsKeep(parent: Value, items: seq<Value>, lib: Library)
    requires forall i :: 0 <= i < |items| ==> items[i] < parent
    ensures AllBounded(JsonAll(items, lib)) <==> AllBounded(items)
    ensures Bounded(List(JsonAll(items, lib))) <==> |items| <= MAX_SEQUENCE_ITEMS && AllBounded(items)
    ensures IsSequence(parent) && parent.items == items ==> (Bounded(List(JsonAll(items, lib))) <==> Bounded(parent))
    decreases parent, 0
  {
    var all := JsonAll(items, lib);
    forall i | 0 <= i < |items| ensures Bounded(all[i]) <==> Bounded(items[i]) {
      RenderingKeepsTheLimit(items[i], lib);
    }
    SequenceBounded(List(all));
    if IsSequence(parent) {
      SequenceBounded(parent);
    }
  }

  lemma {:induction false} PairsKeep(v: Value, lib: Library)
    requires v.Dict?
    ensures PairsBounded(Json(v, lib).pairs) <==> PairsBounded(v.pairs)
    ensures Bounded(Json(v, lib)) <==> Bounded(v)
    decreases v, 1
  {
    var r := Json(v, lib).pairs;
    forall i | 0 <= i < |r| ensures (Bounded(r[i].0) && Bounded(r[i].1))
    <==> (Bounded(v.pairs[i].0) && Bounded(v.pairs[i].1)) {
      RenderingKeepsTheLimit(v.pairs[i].1, lib);
    }
    DictBounded(r);
    DictBounded(v.pairs);
  }

  lemma {:induction false} RecordKeeps(v: Value, lib: Library)
    requires v.Constructed?
    ensures Bounded(Json(v, lib)) <==> Bounded(v)
    decreases v, 1
  {
    ConstructedBounded(v.kind, v.fields);
    if v.fields.Dict? {
      var r := Json(v.fields, lib).pairs;
      PairsKeep(v.fields, lib);
      assert HasKey(r, KIND) <==> HasKey(v.fields.pairs, KIND) by {
        assert forall i :: 0 <= i < |r| ==> r[i].0 == v.fields.pairs[i].0;
      }
      RecordGrows(v.kind, r);
      DictBounded(KindFirst(v.kind, r));
      DictBounded(v.fields.pairs);
    } else {
      RenderingKeepsTheLimit(v.fields, lib);
    }
  }

  lemma {:induction false} MatcherJson(v: Value, lib: Library)
    requires v.Matcher?
    ensures Json(v, lib) ==
            Dict(Source(v.op, Json(v.config, lib), JsonAll(v.matchers, lib),
                        if v.producer.Some? then Some(Json(v.producer.value, lib)) else None,
                        if v.consumer.Some? then Some(Json(v.consumer.value, lib)) else None))
  {
  }

  lemma {:induction false} MatcherKeeps(v: Value, lib: Library)
    requires v.Matcher?
    ensures Bounded(Json(v, lib)) <==> Bounded(v)
    decreases v, 1
  {
    hide Json, Source, Bounded, Children;
    MatcherJson(v, lib);
    RenderingKeepsTheLimit(v.config, lib);
    ItemsKeep(v, v.matchers, lib);
    if v.producer.Some? {
      RenderingKeepsTheLimit(v.producer.value, lib);
    }
    if v.consumer.Some? {
      RenderingKeepsTheLimit(v.consumer.value, lib);
    }
    SourceBounded(v.op, Json(v.config, lib), JsonAll(v.matchers, lib),
                  if v.producer.Some? then Some(Json(v.producer.value, lib)) else None,
                  if v.consumer.Some? then Some(Json(v.consumer.value, lib)) else None);
    MatcherBounded(v);
  }
}
