/** Values as the JSON-compatible ones that a matcher's configuration holds. */
module Rendering {
  import opened Options
  import opened StaticValues
  import opened PythonValues

  /** A mapping entry to move to the front, if it has this key. */
  function FirstKey(pairs: seq<(Value, Value)>, key: string): (i: nat)
    requires HasKey(pairs, key)
    ensures i < |pairs| && pairs[i].0 == Str(key)
  {
    if pairs[0].0 == Str(key) then 0 else 1 + FirstKey(pairs[1..], key)
  }

  /** The entries of a rendered record. The kind comes first; a field of that name replaces it there. */
  function KindFirst(kind: string, fields: seq<(Value, Value)>): seq<(Value, Value)> {
    if !HasKey(fields, KIND) then [(Str(KIND), Str(kind))] + fields
    else
      var i := FirstKey(fields, KIND);
      [fields[i]] + (fields[..i] + fields[i + 1..])
  }

  function Optional(key: string, v: Option<Value>): seq<(Value, Value)> {
    match v case None => [] case Some(w) => [(Str(key), w)]
  }

  /** The entries of `to_source`, from parts that are rendered already. */
  function Source(op: string, config: Value, matchers: seq<Value>, producer: Option<Value>,
      consumer: Option<Value>): seq<(Value, Value)> {
    [(Str("op"), Str(op)), (Str("config"), config)]
    + Optional("matchers", if matchers == [] then None else Some(List(matchers)))
    + Optional("producer", producer) + Optional("consumer", consumer)
  }

  /** `_json_value`. Every mapping the evaluator makes has string keys, which stay. */
  function Json(v: Value, lib: Library): (r: Value)
    ensures v.Dict? ==> r.Dict? && |r.pairs| == |v.pairs| && forall i :: 0 <= i < |v.pairs| ==>
            r.pairs[i].0 == v.pairs[i].0
    ensures IsScalar(v) ==> r == v
    decreases v
  {
    match v
    case Tuple(items) => List(seq(|items|, i requires 0 <= i < |items| => Json(items[i], lib)))
    case List(items) => List(seq(|items|, i requires 0 <= i < |items| => Json(items[i], lib)))
    case FrozenSet(items) =>
      List(SortedBy(seq(|items|, i requires 0 <= i < |items| => Json(items[i], lib)), lib.textBefore))
    case Dict(pairs) =>
      Dict(seq(|pairs|, i requires 0 <= i < |pairs| => (pairs[i].0, Json(pairs[i].1, lib))))
    case Matcher(op, config, matchers, producer, consumer) =>
      Dict(Source(op, Json(config, lib), seq(|matchers|, i requires 0 <= i < |matchers| => Json(matchers[i], lib)),
                  if producer.Some? then Some(Json(producer.value, lib)) else None,
                  if consumer.Some? then Some(Json(consumer.value, lib)) else None))
    case Constructed(kind, fields) =>
      if fields.Dict? then Dict(KindFirst(kind, Json(fields, lib).pairs)) else Json(fields, lib)
    case _ => v
  }

  /** Rendering raises exactly on a set in it whose members have no JSON text. */
  predicate JsonRaises(v: Value, lib: Library) {
    || (v.FrozenSet? && !lib.texts(v.items))
    || exists i :: 0 <= i < |Children(v)| && JsonRaises(Children(v)[i], lib)
  }

  /** Each of these, rendered. */
  function JsonAll(items: seq<Value>, lib: Library): (r: seq<Value>)
    ensures |r| == |items| && forall i :: 0 <= i < |items| ==> r[i] == Json(items[i], lib)
  {
    seq(|items|, i requires 0 <= i < |items| => Json(items[i], lib))
  }
}
