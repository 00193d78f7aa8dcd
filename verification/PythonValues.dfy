/** What Python's own operations make of static values. */
module PythonValues {
  import opened Options
  import opened StaticValues

  /** A value, a rejection with a diagnostic, or a Python error that escapes the evaluator. */
  datatype Result<+T> = Ok(value: T) | Reject | Crash

  /** The same failure at another type. */
  function Fail<T, U>(r: Result<T>): Result<U>
    requires !r.Ok?
  {
    if r.Crash? then Crash else Reject
  }

  predicate IsScalar(v: Value) {
    v.Null? || v.Bool? || v.Int? || v.Str?
  }

  predicate IsNumber(v: Value) {
    v.Bool? || v.Int?
  }

  function NumberOf(v: Value): int
    requires IsNumber(v)
  {
    if v.Bool? then (if v.b then 1 else 0) else v.n
  }

  /** `==`: booleans are numbers, sets and mappings have no order. */
  predicate Equal(a: Value, b: Value) {
    match a
    case Null => b.Null?
    case Bool(_) => IsNumber(b) && NumberOf(a) == NumberOf(b)
    case Int(_) => IsNumber(b) && NumberOf(a) == NumberOf(b)
    case Str(s) => b == a
    case Tuple(items) => b.Tuple? && |items| == |b.items| && forall i :: 0 <= i < |items| ==>
      Equal(items[i], b.items[i])
    case List(items) => b.List? && |items| == |b.items| && forall i :: 0 <= i < |items| ==> Equal(items[i], b.items[i])
    case FrozenSet(items) =>
      b.FrozenSet? && |items| == |b.items| &&
      forall i :: 0 <= i < |items| ==> exists j :: 0 <= j < |b.items| && Equal(items[i], b.items[j])
    case Dict(pairs) =>
      b.Dict? && |pairs| == |b.pairs| &&
      forall i :: 0 <= i < |pairs| ==>
        exists j :: 0 <= j < |b.pairs| && Equal(pairs[i].0, b.pairs[j].0) && Equal(pairs[i].1, b.pairs[j].1)
    case Matcher(op, config, matchers, producer, consumer) =>
      && b.Matcher? && op == b.op && Equal(config, b.config)
      && |matchers| == |b.matchers| && (forall i :: 0 <= i < |matchers| ==> Equal(matchers[i], b.matchers[i]))
      && (if producer.None? then b.producer.None? else b.producer.Some? && Equal(producer.value, b.producer.value))
      && (if consumer.None? then b.consumer.None? else b.consumer.Some? && Equal(consumer.value, b.consumer.value))
    case Constructed(kind, fields) => b.Constructed? && kind == b.kind && Equal(fields, b.fields)
  }

  predicate Hashable(v: Value) {
    match v
    case Tuple(items) => forall i :: 0 <= i < |items| ==> Hashable(items[i])
    case FrozenSet(_) => true
    case _ => IsScalar(v)
  }

  predicate Among(v: Value, items: seq<Value>) {
    exists i :: 0 <= i < |items| && Equal(v, items[i])
  }

  /** The members of `frozenset(items)`, first occurrences first. */
  function Distinct(items: seq<Value>): (r: seq<Value>)
    ensures |r| <= |items| && forall v :: v in r ==> v in items
  {
    if items == [] then []
    else
      var front, last := Distinct(items[..|items| - 1]), items[|items| - 1];
      if Among(last, front) then front else front + [last]
  }

  predicate IsSequence(v: Value) {
    v.Tuple? || v.List? || v.FrozenSet?
  }

  function AsSequence(v: Value): Result<seq<Value>> {
    if IsSequence(v) then Ok(v.items) else Crash
  }

  /** `tuple(v)`; a mapping gives its keys and a string its characters. */
  function Iterate(v: Value): Result<seq<Value>> {
    match v
    case Tuple(items) => Ok(items)
    case List(items) => Ok(items)
    case FrozenSet(items) => Ok(items)
    case Dict(pairs) => Ok(seq(|pairs|, i requires 0 <= i < |pairs| => pairs[i].0))
    case Str(s) => Ok(seq(|s|, i requires 0 <= i < |s| => Str([s[i]])))
    case _ => Reject
  }

  function ScalarSet(items: seq<Value>): Result<Value> {
    if exists i :: 0 <= i < |items| && !IsScalar(items[i]) then Reject else Ok(FrozenSet(Distinct(items)))
  }

  predicate Within(part: string, whole: string) {
    exists i :: 0 <= i <= |whole| && part <= whole[i..]
  }

  function Keys(pairs: seq<(Value, Value)>): (r: seq<Value>)
    ensures |r| == |pairs| && forall i :: 0 <= i < |pairs| ==> r[i] == pairs[i].0
  {
    seq(|pairs|, i requires 0 <= i < |pairs| => pairs[i].0)
  }

  /** `a in b`. */
  function Contains(a: Value, b: Value): Result<bool> {
    match b
    case Tuple(items) => Ok(Among(a, items))
    case List(items) => Ok(Among(a, items))
    case FrozenSet(items) => if Hashable(a) then Ok(Among(a, items)) else Crash
    case Dict(pairs) => if Hashable(a) then Ok(Among(a, Keys(pairs))) else Crash
    case Str(s) => if a.Str? then Ok(Within(a.s, s)) else Crash
    case _ => Crash
  }

  function Lookup(key: Value, pairs: seq<(Value, Value)>): Result<Value> {
    if pairs == [] then Reject
    else if Equal(key, pairs[0].0) then Ok(pairs[0].1) else Lookup(key, pairs[1..])
  }

  /** `container[index]`, with every Python error turned into a rejection. */
  function Item(container: Value, index: Value): Result<Value> {
    if !(index.Str? || IsNumber(index)) then Reject
    else if container.Dict? then Lookup(index, container.pairs)
    else if index.Str? then Reject
    else
      var n := NumberOf(index);
      match container
      case Tuple(items) => Pick(items, n)
      case List(items) => Pick(items, n)
      case Str(s) => if 0 <= n < |s| then Ok(Str([s[n]])) else if -|s| <= n < 0 then Ok(Str([s[|s| + n]])) else Reject
      case _ => Reject
  }

  function Pick(items: seq<Value>, n: int): Result<Value> {
    if 0 <= n < |items| then Ok(items[n]) else if -|items| <= n < 0 then Ok(items[|items| + n]) else Reject
  }

  predicate StringBefore(a: string, b: string) {
    b != "" && (a == "" || a[0] < b[0] || (a[0] == b[0] && StringBefore(a[1..], b[1..])))
  }

  predicate Before(a: Value, b: Value) {
    if IsNumber(a) && IsNumber(b) then NumberOf(a) < NumberOf(b)
    else if a.Str? && b.Str? then StringBefore(a.s, b.s) else false
  }

  function Insert(v: Value, sorted: seq<Value>, before: (Value, Value) -> bool): (r: seq<Value>)
    ensures multiset(r) == multiset(sorted) + multiset{v}
  {
    if sorted == [] then [v]
    else
      var front, last := sorted[..|sorted| - 1], sorted[|sorted| - 1];
      assert sorted == front + [last];
      if before(v, last) then Insert(v, front, before) + [last] else sorted + [v]
  }

  /** A stable sort, by any order. */
  function SortedBy(items: seq<Value>, before: (Value, Value) -> bool): (r: seq<Value>)
    ensures multiset(r) == multiset(items)
  {
    if items == [] then []
    else
      var front, last := items[..|items| - 1], items[|items| - 1];
      assert items == front + [last];
      Insert(last, SortedBy(front, before), before)
  }

  function Sorted(items: seq<Value>): seq<Value> {
    SortedBy(items, Before)
  }

  lemma {:induction false} SortedMembers(items: seq<Value>, before: (Value, Value) -> bool)
    ensures |SortedBy(items, before)| == |items|
    ensures forall v :: v in SortedBy(items, before) <==> v in items
  {
    var r := SortedBy(items, before);
    assert |multiset(r)| == |multiset(items)|;
    forall v ensures v in r <==> v in items {
      assert v in multiset(r) <==> v in multiset(items);
    }
  }

  /** What the model leaves open: how `sorted` orders values that are not all texts or all numbers, and for
      which it raises; how the texts that `json.dumps` makes of values are ordered, and for which it raises. */
  datatype Library = Library(
    before: (Value, Value) -> bool,
    sortable: seq<Value> -> bool,
    textBefore: (Value, Value) -> bool,
    texts: seq<Value> -> bool)

  predicate AllStrings(items: seq<Value>) {
    forall i :: 0 <= i < |items| ==> items[i].Str?
  }

  predicate AllNumbers(items: seq<Value>) {
    forall i :: 0 <= i < |items| ==> IsNumber(items[i])
  }

  /** `sorted(items)` does not raise. */
  predicate Orderable(items: seq<Value>, lib: Library) {
    AllStrings(items) || AllNumbers(items) || lib.sortable(items)
  }

  function Ordered(items: seq<Value>, lib: Library): (r: seq<Value>)
    ensures multiset(r) == multiset(items)
  {
    if AllStrings(items) || AllNumbers(items) then Sorted(items) else SortedBy(items, lib.before)
  }

  // ---- Operators ---------------------------------------------------------------------------------------

  function Sum(a: Value, b: Value): Result<Value> {
    match (a, b)
    case (Str(s), Str(t)) => Ok(Str(s + t))
    case (Tuple(s), Tuple(t)) => Ok(Tuple(s + t))
    case (List(s), List(t)) => Ok(List(s + t))
    case _ => Reject
  }

  predicate Overlap(a: seq<(Value, Value)>, b: seq<(Value, Value)>) {
    exists i, j :: 0 <= i < |a| && 0 <= j < |b| && Equal(a[i].0, b[j].0)
  }

  function Union(a: Value, b: Value): Result<Value> {
    match (a, b)
    case (FrozenSet(s), FrozenSet(t)) => Ok(FrozenSet(Distinct(s + t)))
    case (Dict(s), Dict(t)) => if Overlap(s, t) then Reject else Ok(Dict(s + t))
    case _ => Reject
  }

  datatype Op = In | NotIn | Eq | NotEq | OtherOp

  function CompareOne(op: Op, a: Value, b: Value): Result<bool> {
    match op
    case In => Contains(a, b)
    case NotIn => (match Contains(a, b) case Ok(r) => Ok(!r) case failed => Fail(failed))
    case Eq => Ok(Equal(a, b))
    case NotEq => Ok(!Equal(a, b))
    case OtherOp => Reject
  }

  /** A membership test raises on a value that holds nothing, on a key that cannot be hashed, and on a text
      asked about something else. */
  predicate MembershipRaises(a: Value, b: Value) {
    || !(IsSequence(b) || b.Dict? || b.Str?)
    || ((b.FrozenSet? || b.Dict?) && !Hashable(a))
    || (b.Str? && !a.Str?)
  }

  predicate LinkRaises(op: Op, a: Value, b: Value) {
    (op.In? || op.NotIn?) && MembershipRaises(a, b)
  }

  /** `set(v)`: its distinct members; a value that cannot be iterated or holds one that cannot be hashed raises. */
  function SetOf(v: Value): Result<seq<Value>> {
    match Iterate(v)
    case Ok(items) => if forall i :: 0 <= i < |items| ==> Hashable(items[i]) then Ok(Distinct(items)) else Crash
    case _ => Crash
  }

  /** Adding one member to a set. */
  function Adding(items: seq<Value>, v: Value): seq<Value> {
    if Among(v, items) then items else items + [v]
  }

  /** `d[key]` of a mapping with string keys, if it is there. */
  function Get(pairs: seq<(Value, Value)>, key: string): Option<Value> {
    if pairs == [] then None else if pairs[0].0 == Str(key) then Some(pairs[0].1) else Get(pairs[1..], key)
  }

  /** `d[key] = v`: in place if the key is there, else at the end. */
  function Put(pairs: seq<(Value, Value)>, key: string, v: Value): (r: seq<(Value, Value)>)
    ensures |r| == |pairs| + if Get(pairs, key).Some? then 0 else 1
    ensures (Str(key), v) in r
  {
    if pairs == [] then [(Str(key), v)]
    else if pairs[0].0 == Str(key) then [(Str(key), v)] + pairs[1..]
    else [pairs[0]] + Put(pairs[1..], key, v)
  }

  /** Keyword arguments, in order. */
  type Fields = seq<(string, Value)>

  function Named(fields: Fields, name: string): Option<Value> {
    if fields == [] then None else if fields[0].0 == name then Some(fields[0].1) else Named(fields[1..], name)
  }
}
