/** The restricted expression language of generated extension modules: what an expression denotes when
    nothing is budgeted, and what evaluating it charges. */
module Expressions {
  import opened Options
  import opened StaticValues
  import opened PythonValues

  // ---- Syntax -----------------------------------------------------------------------------------------

  datatype DisplayKind = TupleDisplay | ListDisplay | SetDisplay
  datatype CompKind = SeqComp | SetComp | DictComp

  /** A piece of an f-string: a text, a text with a lone surrogate, which UTF-8 cannot encode, or a formatted
      value. */
  datatype Piece = TextPiece(text: string) | SurrogatePiece | FormattedPiece

  /** `SurrogateText` is a text literal that UTF-8 cannot encode. */
  datatype Expr =
    | Const(v: Value)
    | SurrogateText
    | Name(id: string)
    | Display(display: DisplayKind, elts: seq<Expr>)
    | DictDisplay(entries: seq<Entry>)
    | Starred(inner: Expr)
    | Comp(comp: CompKind, key: Expr, elt: Expr, gens: seq<Generator>)
    | Call(func: Option<string>, args: seq<Expr>, keywords: seq<Keyword>)
    | Subscript(container: Expr, index: Expr)
    | Compare(left: Expr, links: seq<Link>)
    | IfExp(test: Expr, body: Expr, orelse: Expr)
    | Add(left: Expr, right: Expr)
    | BitOr(left: Expr, right: Expr)
    | Attribute(object_: Expr, attr: string)
    | FString(parts: seq<Piece>)
    | Unsupported

  datatype Entry = Entry(key: Option<Expr>, value: Expr)
  datatype Generator = Generator(target: Target, iter: Expr, plain: bool)
  datatype Target = NameTarget(id: string) | Shape(items: seq<Target>) | StarTarget | OtherTarget
  datatype Keyword = Keyword(name: Option<string>, value: Expr)
  datatype Link = Link(op: Op, right: Expr)

  datatype Env = Env(bindings: map<string, Value>)

  function Bound(env: Env, id: string, v: Value): Env {
    Env(env.bindings[id := v])
  }

  // ---- Comprehension targets ------------------------------------------------------------------------------

  /** `bind_comprehension_target`. */
  function BindTarget(target: Target, v: Value, env: Env): Result<Env>
    decreases target, 1, 0
  {
    match target
    case NameTarget(id) => Ok(Bound(env, id, v))
    case Shape(items) =>
      if StarTarget in items then Reject
      else (match AsSequence(v)
        case Ok(values) => if |values| != |items| then Reject else BindTargets(target, items, values, env)
        case failed => Fail(failed))
    case _ => Reject
  }

  /** A shaped target meets a value that is no sequence, before any other part of it is refused. */
  predicate TargetRaises(target: Target, v: Value, env: Env)
    decreases target, 1, 0
  {
    && target.Shape? && StarTarget !in target.items
    && (!IsSequence(v) || (|v.items| == |target.items| && TargetsRaise(target, target.items, v.items, env)))
  }

  predicate TargetsRaise(parent: Target, items: seq<Target>, values: seq<Value>, env: Env)
    requires |items| == |values| && forall i :: 0 <= i < |items| ==> items[i] < parent
    decreases parent, 0, |items|
  {
    && items != []
    && (TargetRaises(items[0], values[0], env)
        || (BindTarget(items[0], values[0], env).Ok?
            && TargetsRaise(parent, items[1..], values[1..], BindTarget(items[0], values[0], env).value)))
  }

  function BindTargets(parent: Target, items: seq<Target>, values: seq<Value>, env: Env): Result<Env>
    requires |items| == |values| && forall i :: 0 <= i < |items| ==> items[i] < parent
    decreases parent, 0, |items|
  {
    if items == [] then Ok(env)
    else match BindTarget(items[0], values[0], env)
      case Ok(next) => BindTargets(parent, items[1..], values[1..], next)
      case failed => failed
  }

  /** What the names that can be called do: the value a call makes, the items it is charged for, if it is, and
      the guards that tell from its arguments whether it goes beyond the length limit and whether it raises. */
  datatype CallTable = CallTable(
    apply: (string, seq<Value>, Fields) -> Result<Value>,
    charged: (string, seq<Value>, Fields) -> Option<nat>,
    widens: (string, seq<Value>, Fields) -> bool,
    raises: (string, seq<Value>, Fields) -> bool)

  // ---- Charges ------------------------------------------------------------------------------------------

  /** What an evaluation uses: sums of steps, items and string bytes; the deepest nesting, the longest
      sequence whose length is checked, and the most rows present when a comprehension goes on; whether a
      call went beyond the guard of the length limit, and whether a value beyond that limit was produced; and
      whether an operation met operands on which Python raises. */
  datatype Use = Use(
    steps: nat, items: nat, bytes: nat, depth: nat, length: nat, rows: nat, wide: bool, long: bool, raises: bool)

  const NOTHING := Use(0, 0, 0, 0, 0, 0, false, false, false)

  function Max(a: nat, b: nat): nat {
    if a < b then b else a
  }

  /** One evaluation after another. */
  function Join(a: Use, b: Use): Use {
    Use(a.steps + b.steps, a.items + b.items, a.bytes + b.bytes,
        Max(a.depth, b.depth), Max(a.length, b.length), Max(a.rows, b.rows),
        a.wide || b.wide, a.long || b.long, a.raises || b.raises)
  }

  function Steps(n: nat): Use {
    NOTHING.(steps := n)
  }

  function Bytes(n: nat): Use {
    NOTHING.(bytes := n)
  }

  function Length(n: nat): Use {
    NOTHING.(length := n)
  }

  /** `_charge_items`: it also checks the length. */
  function Items(n: nat): Use {
    NOTHING.(items := n, length := n)
  }

  function Rows(n: nat): Use {
    NOTHING.(rows := n)
  }

  /** The result of an evaluation without budgets, and its charges up to there. */
  datatype Metered<+T> = Metered(result: Result<T>, use: Use)

  function Charge<T>(u: Use, m: Metered<T>): Metered<T> {
    Metered(m.result, Join(u, m.use))
  }

  /** An operation, with whether its operands are ones on which Python raises. */
  function Noted<T>(raises: bool, m: Metered<T>): Metered<T> {
    Metered(m.result, m.use.(raises := m.use.raises || raises))
  }

  /** The charges of an expression from those of its body: one step, one level, and its value. */
  function Entered(body: Metered<Value>): Metered<Value> {
    Metered(body.result,
            body.use.(steps := body.use.steps + 1, depth := body.use.depth + 1,
                      long := body.use.long || (body.result.Ok? && !Bounded(body.result.value))))
  }

  // ---- Denotation and charges -------------------------------------------------------------------------------

  /** What an expression denotes: the evaluator without its budgets. */
  ghost function Den(e: Expr, env: Env, lib: CallTable): Result<Value> {
    Meter(e, env, lib).result
  }

  ghost function Meter(e: Expr, env: Env, lib: CallTable): Metered<Value>
    decreases e, 5, 0
  {
    Entered(MeterBody(e, env, lib))
  }

  function Constant(v: Value): Metered<Value> {
    if !IsScalar(v) then Metered(Reject, NOTHING)
    else Metered(Ok(v), if v.Str? then Bytes(Utf8Length(v.s)) else NOTHING)
  }

  function NameOf(id: string, env: Env): Result<Value> {
    if id in env.bindings then Ok(env.bindings[id])
    else if id == "True" then Ok(Bool(true)) else if id == "False" then Ok(Bool(false))
    else if id == "None" then Ok(Null) else Reject
  }

  /** The text of an f-string, encoded once all its pieces are read. A formatted value is rejected: its
      format is never a constant node. */
  function Text(parts: seq<Piece>): Result<string> {
    if parts == [] then Ok("")
    else
      var before := Text(parts[..|parts| - 1]);
      match parts[|parts| - 1]
      case TextPiece(text) => if before.Ok? then Ok(before.value + text) else before
      case SurrogatePiece => if before.Reject? then Reject else Crash
      case FormattedPiece => Reject
  }

  predicate TextRaises(parts: seq<Piece>) {
    SurrogatePiece in parts && FormattedPiece !in parts
  }

  function FStringOf(parts: seq<Piece>): Metered<Value> {
    Noted(TextRaises(parts),
         match Text(parts)
         case Ok(text) => Metered(Ok(Str(text)), Bytes(Utf8Length(text)))
         case failed => Metered(Fail(failed), NOTHING))
  }

  function SumOf(a: Value, b: Value): Metered<Value> {
    Metered(Sum(a, b),
            if Sum(a, b).Reject? then NOTHING
            else if a.Str? && b.Str? then Bytes(Utf8Length(a.s) + Utf8Length(b.s)) else Items(SizeOf(a) + SizeOf(b)))
  }

  function UnionOf(a: Value, b: Value): Metered<Value> {
    Metered(Union(a, b), if Union(a, b).Ok? then Items(SizeOf(Union(a, b).value)) else NOTHING)
  }

  function AttributeOf(v: Value, attr: string): Result<Value> {
    if v.Matcher? && attr == "matchers" then Ok(Tuple(v.matchers)) else Reject
  }

  ghost function MeterBody(e: Expr, env: Env, lib: CallTable): Metered<Value>
    decreases e, 4, 0
  {
    match e
    case Const(v) => Constant(v)
    case SurrogateText => Noted(true, Metered(Crash, NOTHING))
    case Name(id) => Metered(NameOf(id, env), NOTHING)
    case Display(display, elts) =>
      Charge(Length(|elts|), DisplayOf(display, MeterElements(e, elts, false, [], env, lib)))
    case DictDisplay(entries) => Charge(Length(|entries|), DictOf(MeterEntries(e, entries, [], env, lib)))
    case Starred(inner) => Meter(inner, env, lib)
    case Comp(comp, key, elt, gens) => Charge(Steps(1), MeterComp(e, env, lib))
    case Call(func, args, keywords) => if func.None? then Metered(Reject, NOTHING) else MeterCall(e, env, lib)
    case Subscript(container, index) =>
      var c := Meter(container, env, lib);
      if !c.result.Ok? then c
      else
        var i := Meter(index, env, lib);
        Charge(c.use, if !i.result.Ok? then i else Metered(Item(c.result.value, i.result.value), i.use))
    case Compare(left, links) =>
      var first := Meter(left, env, lib);
      if !first.result.Ok? then first
        else Charge(first.use, Truth(MeterLinks(e, Chain(first.result.value, true), links, env, lib)))
    case IfExp(test, body, orelse) =>
      var c := Meter(test, env, lib);
      if !c.result.Ok? then c
      else if !c.result.value.Bool? then Metered(Reject, c.use)
      else Charge(c.use, if c.result.value.b then Meter(body, env, lib) else Meter(orelse, env, lib))
    case Add(left, right) =>
      var a := Meter(left, env, lib);
      if !a.result.Ok? then a
      else
        var b := Meter(right, env, lib);
        Charge(a.use, if !b.result.Ok? then b else Charge(b.use, SumOf(a.result.value, b.result.value)))
    case BitOr(left, right) =>
      var a := Meter(left, env, lib);
      if !a.result.Ok? then a
      else
        var b := Meter(right, env, lib);
        Charge(a.use, if !b.result.Ok? then b else Charge(b.use, UnionOf(a.result.value, b.result.value)))
    case Attribute(object_, attr) =>
      var v := Meter(object_, env, lib);
      if !v.result.Ok? then v else Metered(AttributeOf(v.result.value, attr), v.use)
    case FString(parts) => FStringOf(parts)
    case Unsupported => Metered(Reject, NOTHING)
  }

  function DisplayValue(display: DisplayKind, items: seq<Value>): Result<Value> {
    if display.SetDisplay? then ScalarSet(items) else Ok(Tuple(items))
  }

  function DisplayOf(display: DisplayKind, m: Metered<seq<Value>>): Metered<Value> {
    match m.result
    case Ok(items) => Metered(DisplayValue(display, items), Join(m.use, Items(|items|)))
    case failed => Metered(Fail(failed), m.use)
  }

  function DictOf(m: Metered<seq<(Value, Value)>>): Metered<Value> {
    match m.result
    case Ok(pairs) => Metered(Ok(Dict(pairs)), Join(m.use, Items(|pairs|)))
    case failed => Metered(Fail(failed), m.use)
  }

  function Truth(m: Metered<Chain>): Metered<Value> {
    match m.result
    case Ok(chain) => Metered(Ok(Bool(chain.holds)), m.use)
    case failed => Metered(Fail(failed), m.use)
  }

  /** What is evaluated for an element: a display looks under the star, a call does not. */
  function Picked(elt: Expr, wrapped: bool): Expr {
    if elt.Starred? && !wrapped then elt.inner else elt
  }

  /** One element after the others: itself, or the items of a starred one, which are charged for. */
  function Extend(before: seq<Value>, elt: Expr, v: Value): Metered<seq<Value>> {
    if !elt.Starred? then Metered(Ok(before + [v]), NOTHING)
    else if !IsSequence(v) then Noted(true, Metered(Crash, NOTHING))
    else Metered(Ok(before + v.items), Join(Length(|before| + |v.items|), Items(|v.items|)))
  }

  ghost function MeterElement(elt: Expr, wrapped: bool, before: seq<Value>, env: Env,
      lib: CallTable): Metered<seq<Value>>
    decreases elt, 6, 0
  {
    var v := Meter(Picked(elt, wrapped), env, lib);
    if !v.result.Ok? then Metered(Fail(v.result), v.use) else Charge(v.use, Extend(before, elt, v.result.value))
  }

  /** The elements of a display or the positional arguments of a call, starred ones expanded, after `before`. */
  ghost function MeterElements(
    parent: Expr, elts: seq<Expr>, wrapped: bool, before: seq<Value>, env: Env, lib: CallTable): Metered<seq<Value>>
    requires forall i :: 0 <= i < |elts| ==> elts[i] < parent
    decreases parent, 1, |elts|
  {
    if elts == [] then Metered(Ok(before), NOTHING)
    else
      var next := MeterElement(elts[0], wrapped, before, env, lib);
      if !next.result.Ok? then next
      else Charge(next.use, MeterElements(parent, elts[1..], wrapped, next.result.value, env, lib))
  }

  ghost function MeterEntry(entry: Entry, before: seq<(Value, Value)>, env: Env,
      lib: CallTable): Metered<seq<(Value, Value)>>
    decreases entry, 6, 0
  {
    if entry.key.None? then Metered(Reject, NOTHING)
    else
      var k := Meter(entry.key.value, env, lib);
      if !k.result.Ok? then Metered(Fail(k.result), k.use)
      else if !k.result.value.Str? || Among(k.result.value, Keys(before)) then Metered(Reject, k.use)
      else
        var v := Meter(entry.value, env, lib);
        Charge(k.use, if v.result.Ok? then Metered(Ok(before + [(k.result.value, v.result.value)]), v.use)
                      else Metered(Fail(v.result), v.use))
  }

  /** The entries of a mapping display, after `before`. */
  ghost function MeterEntries(
    parent: Expr, entries: seq<Entry>, before: seq<(Value, Value)>, env: Env,
    lib: CallTable): Metered<seq<(Value, Value)>>
    requires forall i :: 0 <= i < |entries| ==> entries[i] < parent
    decreases parent, 1, |entries|
  {
    if entries == [] then Metered(Ok(before), NOTHING)
    else
      var next := MeterEntry(entries[0], before, env, lib);
      if !next.result.Ok? then next
      else Charge(next.use, MeterEntries(parent, entries[1..], next.result.value, env, lib))
  }

  /** A comparison so far: the last operand, and whether all links hold. */
  datatype Chain = Chain(left: Value, holds: bool)

  ghost function MeterLink(chain: Chain, link: Link, env: Env, lib: CallTable): Metered<Chain>
    decreases link, 6, 0
  {
    var right := Meter(link.right, env, lib);
    if !right.result.Ok? then Metered(Fail(right.result), right.use)
    else
      Noted(LinkRaises(link.op, chain.left, right.result.value),
           match CompareOne(link.op, chain.left, right.result.value)
           case Ok(current) => Metered(Ok(Chain(right.result.value, chain.holds && current)), right.use)
           case failed => Metered(Fail(failed), right.use))
  }

  /** The rest of a comparison chain. */
  ghost function MeterLinks(parent: Expr, chain: Chain, links: seq<Link>, env: Env, lib: CallTable): Metered<Chain>
    requires forall i :: 0 <= i < |links| ==> links[i] < parent
    decreases parent, 1, |links|
  {
    if links == [] then Metered(Ok(chain), NOTHING)
    else
      var next := MeterLink(chain, links[0], env, lib);
      if !next.result.Ok? then next else Charge(next.use, MeterLinks(parent, next.result.value, links[1..], env, lib))
  }

  ghost function MeterKeyword(keyword: Keyword, before: Fields, env: Env, lib: CallTable): Metered<Fields>
    decreases keyword, 6, 0
  {
    if keyword.name.None? || Named(before, keyword.name.value).Some? then Metered(Reject, NOTHING)
    else
      var v := Meter(keyword.value, env, lib);
      if !v.result.Ok? then Metered(Fail(v.result), v.use)
      else Metered(Ok(before + [(keyword.name.value, v.result.value)]), v.use)
  }

  /** Keyword arguments, after `before`. */
  ghost function MeterKeywords(parent: Expr, keywords: seq<Keyword>, before: Fields, env: Env,
      lib: CallTable): Metered<Fields>
    requires forall i :: 0 <= i < |keywords| ==> keywords[i] < parent
    decreases parent, 1, |keywords|
  {
    if keywords == [] then Metered(Ok(before), NOTHING)
    else
      var next := MeterKeyword(keywords[0], before, env, lib);
      if !next.result.Ok? then next
      else Charge(next.use, MeterKeywords(parent, keywords[1..], next.result.value, env, lib))
  }

  /** A call once its arguments are values. */
  function Applied(name: string, positional: seq<Value>, keywords: Fields, lib: CallTable): Metered<Value> {
    var charged := lib.charged(name, positional, keywords);
    Metered(lib.apply(name, positional, keywords),
            (if charged.Some? then Items(charged.value) else NOTHING).(
              wide := lib.widens(name, positional, keywords), raises := lib.raises(name, positional, keywords)))
  }

  ghost function MeterCall(e: Expr, env: Env, lib: CallTable): Metered<Value>
    requires e.Call? && e.func.Some?
    decreases e, 2, 0
  {
    var positional := MeterElements(e, e.args, true, [], env, lib);
    if !positional.result.Ok? then Metered(Fail(positional.result), positional.use)
    else
      var keywords := MeterKeywords(e, e.keywords, [], env, lib);
      Charge(positional.use,
             if !keywords.result.Ok? then Metered(Fail(keywords.result), keywords.use)
             else Charge(keywords.use, Applied(e.func.value, positional.result.value, keywords.result.value, lib)))
  }

  predicate PlainGenerators(gens: seq<Generator>) {
    gens != [] && forall i :: 0 <= i < |gens| ==> gens[i].plain
  }

  /** The rows of bindings that the generators from `index` on make of `env`, after `rows`. */
  ghost function MeterRows(parent: Expr, gens: seq<Generator>, index: nat, env: Env, rows: seq<Env>,
      lib: CallTable): Metered<seq<Env>>
    requires index <= |gens| && forall i :: 0 <= i < |gens| ==> gens[i] < parent
    decreases parent, 1, |gens| - index, 1
  {
    if index == |gens| then Metered(Ok(rows + [env]), Rows(|rows|))
    else Charge(Rows(|rows|), MeterGenerator(parent, gens, index, env, rows, lib))
  }

  ghost function MeterGenerator(parent: Expr, gens: seq<Generator>, index: nat, env: Env, rows: seq<Env>,
      lib: CallTable): Metered<seq<Env>>
    requires index < |gens| && forall i :: 0 <= i < |gens| ==> gens[i] < parent
    decreases parent, 1, |gens| - index, 0
  {
    var iterable := Meter(gens[index].iter, env, lib);
    if !iterable.result.Ok? then Metered(Fail(iterable.result), iterable.use)
    else match Iterate(iterable.result.value)
      case Ok(values) =>
        Charge(iterable.use, Charge(Length(|values|), MeterRowsOf(parent, gens, index, values, env, rows, lib)))
      case failed => Metered(Fail(failed), iterable.use)
  }

  ghost function MeterRowOf(
    parent: Expr, gens: seq<Generator>, index: nat, value: Value, env: Env, rows: seq<Env>,
    lib: CallTable): Metered<seq<Env>>
    requires index < |gens| && forall i :: 0 <= i < |gens| ==> gens[i] < parent
    decreases parent, 1, |gens| - index - 1, 2
  {
    Noted(TargetRaises(gens[index].target, value, env),
         match BindTarget(gens[index].target, value, env)
         case Ok(next) => MeterRows(parent, gens, index + 1, next, rows, lib)
         case failed => Metered(Fail(failed), NOTHING))
  }

  ghost function MeterRowsOf(
    parent: Expr, gens: seq<Generator>, index: nat, values: seq<Value>, env: Env, rows: seq<Env>,
    lib: CallTable): Metered<seq<Env>>
    requires index < |gens| && forall i :: 0 <= i < |gens| ==> gens[i] < parent
    decreases parent, 1, |gens| - index - 1, |values| + 3
  {
    if values == [] then Metered(Ok(rows), NOTHING)
    else
      var next := MeterRowOf(parent, gens, index, values[0], env, rows, lib);
      if !next.result.Ok? then next
      else Charge(next.use, MeterRowsOf(parent, gens, index, values[1..], env, next.result.value, lib))
  }

  ghost function MeterOne(elt: Expr, row: Env, before: seq<Value>, lib: CallTable): Metered<seq<Value>>
    decreases elt, 6, 0
  {
    var v := Meter(elt, row, lib);
    if v.result.Ok? then Metered(Ok(before + [v.result.value]), v.use) else Metered(Fail(v.result), v.use)
  }

  /** One expression over all rows, after `before`. */
  ghost function MeterOver(parent: Expr, elt: Expr, rows: seq<Env>, before: seq<Value>,
      lib: CallTable): Metered<seq<Value>>
    requires elt < parent
    decreases parent, 1, |rows|
  {
    if rows == [] then Metered(Ok(before), NOTHING)
    else
      var next := MeterOne(elt, rows[0], before, lib);
      if !next.result.Ok? then next else Charge(next.use, MeterOver(parent, elt, rows[1..], next.result.value, lib))
  }

  /** A pair is a value of its own. */
  function PairOf(k: Value, v: Value): Value {
    Tuple([k, v])
  }

  ghost function MeterPair(parent: Expr, key: Expr, value: Expr, row: Env, before: seq<Value>,
      lib: CallTable): Metered<seq<Value>>
    requires key < parent && value < parent
    decreases parent, 0, 0
  {
    var k := Meter(key, row, lib);
    if !k.result.Ok? then Metered(Fail(k.result), k.use)
    else
      var v := Meter(value, row, lib);
      Charge(k.use, if v.result.Ok? then Metered(Ok(before + [PairOf(k.result.value, v.result.value)]), v.use)
                    else Metered(Fail(v.result), v.use))
  }

  /** A key and a value over all rows, after `before`. */
  ghost function MeterPairsOver(
    parent: Expr, key: Expr, value: Expr, rows: seq<Env>, before: seq<Value>, lib: CallTable): Metered<seq<Value>>
    requires key < parent && value < parent
    decreases parent, 1, |rows|
  {
    if rows == [] then Metered(Ok(before), NOTHING)
    else
      var next := MeterPair(parent, key, value, rows[0], before, lib);
      if !next.result.Ok? then next
        else Charge(next.use, MeterPairsOver(parent, key, value, rows[1..], next.result.value, lib))
  }

  function CompValue(comp: CompKind, items: seq<Value>): Result<Value> {
    if !comp.SetComp? then Ok(Tuple(items))
    else if forall i :: 0 <= i < |items| ==> Hashable(items[i]) then Ok(FrozenSet(Distinct(items))) else Crash
  }

  predicate CompRaises(comp: CompKind, items: seq<Value>) {
    comp.SetComp? && exists v :: v in items && !Hashable(v)
  }

  /** A mapping comprehension is charged for its rows first, the others for their values last. */
  function Collect(comp: CompKind, m: Metered<seq<Value>>): Metered<Value> {
    match m.result
    case Ok(items) =>
      Noted(CompRaises(comp, items),
           Metered(CompValue(comp, items), if comp.DictComp? then m.use else Join(m.use, Items(|items|))))
    case failed => Metered(Fail(failed), m.use)
  }

  ghost function MeterComp(e: Expr, env: Env, lib: CallTable): Metered<Value>
    requires e.Comp?
    decreases e, 3, 0
  {
    if !PlainGenerators(e.gens) then Metered(Reject, NOTHING)
    else
      var rows := MeterRows(e, e.gens, 0, env, [], lib);
      if !rows.result.Ok? then Metered(Fail(rows.result), rows.use)
      else if e.comp.DictComp? then
        Charge(rows.use,
          Charge(Items(|rows.result.value|),
            Collect(e.comp, MeterPairsOver(e, e.key, e.elt, rows.result.value, [], lib))))
      else Charge(rows.use, Collect(e.comp, MeterOver(e, e.elt, rows.result.value, [], lib)))
  }

  // ---- Modules --------------------------------------------------------------------------------------------

  /** A statement: a binding, one without effect (a reviewed import, a docstring, `pass`), or a refused one.
      A target is `None` when it is not a plain name. */
  datatype Stmt = Assign(targets: seq<Option<string>>, value: Expr) | Inert | Refused

  /** The bindings of one value, in order. */
  function BindNames(targets: seq<Option<string>>, v: Value, env: Env): Result<Env> {
    if targets == [] then Ok(env)
    else if targets[0].None? then Reject
    else BindNames(targets[1..], v, Bound(env, targets[0].value, v))
  }

  /** Only the first target is checked before the value is evaluated. */
  predicate FirstTargetAllowed(targets: seq<Option<string>>, reserved: set<string>) {
    targets != [] && targets[0].Some? && targets[0].value !in reserved
  }

  /** A statement is charged one step, and what evaluating its value is charged. */
  ghost function MeterStmt(s: Stmt, env: Env, reserved: set<string>, lib: CallTable): Metered<Env> {
    match s
    case Inert => Metered(Ok(env), Steps(1))
    case Refused => Metered(Reject, Steps(1))
    case Assign(targets, value) =>
      if !FirstTargetAllowed(targets, reserved) then Metered(Reject, Steps(1))
      else
        var v := Charge(Steps(1), Meter(value, env, lib));
        if v.result.Ok? then Metered(BindNames(targets, v.result.value, env), v.use) else Metered(Fail(v.result), v.use)
  }

  /** The bindings a module ends with. */
  ghost function MeterModule(stmts: seq<Stmt>, env: Env, reserved: set<string>, lib: CallTable): Metered<Env> {
    if stmts == [] then Metered(Ok(env), NOTHING)
    else
      var next := MeterStmt(stmts[0], env, reserved, lib);
      if !next.result.Ok? then next else Charge(next.use, MeterModule(stmts[1..], next.result.value, reserved, lib))
  }
}
