/** The values a restricted evaluation can build, and three measures of their expansion.

    A value is an immutable graph in the source; two references to one object are two equal
    sub-terms here, so every measure below charges each occurrence, however it is shared. */
module StaticValues {
  import opened Options

  const MAX_AST_DEPTH: nat := 64
  const MAX_COMPREHENSION_ITEMS: nat := 4_096
  const MAX_EVALUATION_STEPS: nat := 100_000
  const MAX_EVALUATED_ITEMS: nat := 32_768
  const MAX_SEQUENCE_ITEMS: nat := 16_384
  const MAX_STRING_BYTES: nat := 1_048_576
  const MAX_JSON_BYTES: nat := 16 * 1_048_576

  datatype Value =
    | Null
    | Bool(b: bool)
    | Int(n: int)
    | Str(s: string)
    | Tuple(items: seq<Value>)
    | List(items: seq<Value>)
    | FrozenSet(items: seq<Value>)
    | Dict(pairs: seq<(Value, Value)>)
    | Matcher(op: string, config: Value, matchers: seq<Value>, producer: Option<Value>, consumer: Option<Value>)
    | Constructed(kind: string, fields: Value)

  /** The values directly below `v`, in the order the expansion check enqueues them. */
  function Children(v: Value): (c: seq<Value>)
    ensures forall i :: 0 <= i < |c| ==> c[i] < v
  {
    match v
    case Tuple(items) => items
    case List(items) => items
    case FrozenSet(items) => items
    case Dict(pairs) =>
      seq(2 * |pairs|, i requires 0 <= i < 2 * |pairs| => if i % 2 == 0 then pairs[i / 2].0 else pairs[i / 2].1)
    case Matcher(_, config, matchers, producer, consumer) =>
      [config] + matchers
      + (if producer.Some? then [producer.value] else [])
      + (if consumer.Some? then [consumer.value] else [])
    case Constructed(_, fields) => [fields]
    case _ => []
  }

  /** Bytes of one character in UTF-8. */
  function Utf8Width(c: char): (n: nat)
    ensures 1 <= n <= 4
  {
    if c as int < 0x80 then 1 else if c as int < 0x800 then 2 else if c as int < 0x1_0000 then 3 else 4
  }

  function Utf8Length(s: string): nat {
    if s == "" then 0 else Utf8Width(s[0]) + Utf8Length(s[1..])
  }

  function OwnBytes(v: Value): nat {
    if v.Str? then Utf8Length(v.s) else 0
  }

  /** How many occurrences of values the fully expanded `v` holds, itself included. */
  function Occurrences(v: Value): nat
    decreases v, |Children(v)| + 1
  {
    1 + OccurrencesBelow(v, |Children(v)|)
  }

  function OccurrencesBelow(v: Value, k: nat): nat
    requires k <= |Children(v)|
    decreases v, k
  {
    if k == 0 then 0 else OccurrencesBelow(v, k - 1) + Occurrences(Children(v)[k - 1])
  }

  /** Total UTF-8 bytes of every string occurrence in the expanded `v`. */
  function StringBytes(v: Value): nat
    decreases v, |Children(v)| + 1
  {
    OwnBytes(v) + StringBytesBelow(v, |Children(v)|)
  }

  function StringBytesBelow(v: Value, k: nat): nat
    requires k <= |Children(v)|
    decreases v, k
  {
    if k == 0 then 0 else StringBytesBelow(v, k - 1) + StringBytes(Children(v)[k - 1])
  }

  /** Depth of the deepest occurrence, the root being at depth 0. */
  function Height(v: Value): nat
    decreases v, |Children(v)| + 1
  {
    HeightBelow(v, |Children(v)|)
  }

  function HeightBelow(v: Value, k: nat): nat
    requires k <= |Children(v)|
    decreases v, k
  {
    if k == 0 then 0
    else
      var here := 1 + Height(Children(v)[k - 1]);
      var before := HeightBelow(v, k - 1);
      if here > before then here else before
  }

  const KIND := "__kind"

  predicate HasKey(pairs: seq<(Value, Value)>, key: string) {
    exists i :: 0 <= i < |pairs| && pairs[i].0 == Str(key)
  }

  /** A record is rendered as a mapping of its fields and its kind, unless a field has that name. */
  function RecordSize(fields: seq<(Value, Value)>): nat {
    |fields| + if HasKey(fields, KIND) then 0 else 1
  }

  /** How many items a sequence, a mapping, a matcher or a record has of its own. */
  function SizeOf(v: Value): nat {
    match v
    case Tuple(items) => |items|
    case List(items) => |items|
    case FrozenSet(items) => |items|
    case Dict(pairs) => |pairs|
    case Matcher(_, _, matchers, _, _) => |matchers|
    case Constructed(_, fields) => if fields.Dict? then RecordSize(fields.pairs) else 0
    case _ => 0
  }

  /** Every sequence, mapping and record in `v` is within the length limit. */
  predicate Bounded(v: Value) {
    SizeOf(v) <= MAX_SEQUENCE_ITEMS && forall i :: 0 <= i < |Children(v)| ==> Bounded(Children(v)[i])
  }
}
