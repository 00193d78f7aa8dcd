/** The budgeted evaluator. It returns what an expression denotes exactly when the charges of evaluating it
    fit the budgets, it rejects exactly when they do not, and it keeps its accounts on every way out. */
module Evaluator {
  import opened Options
  import opened StaticValues
  import opened PythonValues
  import opened Expressions
  import opened Bounds
  import opened Widths

  // ---- Budgets ------------------------------------------------------------------------------------------

  datatype Counters = Counters(steps: nat, items: nat, bytes: nat, depth: nat)

  const START := Counters(0, 0, 0, 0)

  /** The charges still fit the budgets after what has been spent. */
  predicate Fits(c: Counters, u: Use) {
    && c.steps + u.steps <= MAX_EVALUATION_STEPS
    && c.items + u.items <= MAX_EVALUATED_ITEMS
    && c.bytes + u.bytes <= MAX_STRING_BYTES
    && c.depth + u.depth <= MAX_AST_DEPTH
    && u.length <= MAX_SEQUENCE_ITEMS
    && u.rows < MAX_COMPREHENSION_ITEMS
  }

  function Spend(c: Counters, u: Use): Counters {
    c.(steps := c.steps + u.steps, items := c.items + u.items, bytes := c.bytes + u.bytes)
  }

  lemma {:induction false} FitsJoin(c: Counters, a: Use, b: Use)
    ensures Fits(c, Join(a, b)) <==> Fits(c, a) && Fits(Spend(c, a), b)
    ensures Spend(c, Join(a, b)) == Spend(Spend(c, a), b)
  {
  }

  lemma {:induction false} JoinAssoc(a: Use, b: Use, c: Use)
    ensures Join(Join(a, b), c) == Join(a, Join(b, c))
  {
  }

  lemma {:induction false} ChargeTwice<T>(a: Use, b: Use, m: Metered<T>)
    ensures Charge(a, Charge(b, m)) == Charge(Join(a, b), m)
  {
    JoinAssoc(a, b, m.use);
  }

  /** The first part of what is charged has to fit before the rest is looked at. */
  lemma {:induction false} FitsFirst<T>(c: Counters, spent: Use, next: Use, rest: Metered<T>)
    ensures Charge(spent, Charge(next, rest)) == Charge(Join(spent, next), rest)
    ensures Spend(c, Join(spent, next)) == Spend(Spend(c, spent), next)
    ensures Fits(c, Join(spent, next)) <==> Fits(c, spent) && Fits(Spend(c, spent), next)
    ensures Fits(c, Join(Join(spent, next), rest.use)) ==> Fits(c, Join(spent, next))
  {
    ChargeTwice(spent, next, rest);
    FitsJoin(c, spent, next);
    FitsJoin(c, Join(spent, next), rest.use);
  }

  lemma {:induction false} ChargedFits<T>(c: Counters, u: Use, m: Metered<T>)
    ensures Charge(u, m).result == m.result
    ensures Fits(c, Charge(u, m).use) <==> Fits(c, u) && Fits(Spend(c, u), m.use)
    ensures Spend(c, Charge(u, m).use) == Spend(Spend(c, u), m.use)
  {
    FitsJoin(c, u, m.use);
  }

  /** One level deeper, and the value is looked at. */
  function Deeper(body: Metered<Value>): Metered<Value> {
    Metered(body.result,
            body.use.(depth := body.use.depth + 1,
                      long := body.use.long || (body.result.Ok? && !Bounded(body.result.value))))
  }

  lemma {:induction false} EnteredIs(body: Metered<Value>)
    ensures Entered(body) == Charge(Steps(1), Deeper(body))
  {
  }

  lemma {:induction false} DeeperFits(c: Counters, body: Metered<Value>)
    ensures var inside := c.(depth := c.depth + 1);
            && (Fits(c, Deeper(body).use) <==> Fits(inside, body.use))
            && Spend(c, Deeper(body).use) == Spend(inside, body.use).(depth := c.depth)
  {
  }

  lemma {:induction false} CollectFits(c: Counters, comp: CompKind, m: Metered<seq<Value>>)
    requires m.result.Ok? && !comp.DictComp?
    ensures var total := Collect(comp, m);
            && total.result == CompValue(comp, m.result.value)
            && (Fits(c, total.use) <==> Fits(c, m.use) && Fits(Spend(c, m.use), Items(|m.result.value|)))
            && Spend(c, total.use) == Spend(Spend(c, m.use), Items(|m.result.value|))
  {
    FitsJoin(c, m.use, Items(|m.result.value|));
  }

  class RestrictedEvaluator {
    const lib: CallTable
    const reserved: set<string>
    var env: Env
    var steps: nat
    var depth: nat
    var items: nat
    var bytes: nat
    /** A budget was exceeded. */
    ghost var exhausted: bool
    /** The deepest nesting at which an expression was evaluated. */
    ghost var peak: nat

    constructor (lib: CallTable, reserved: set<string>)
      ensures this.lib == lib && this.reserved == reserved && env == Env(map[])
      ensures Ready(START) && peak == 0
    {
      this.lib, this.reserved, env := lib, reserved, Env(map[]);
      steps, depth, items, bytes := 0, 0, 0, 0;
      exhausted, peak := false, 0;
    }

    ghost function Now(): Counters
      reads this
    {
      Counters(steps, items, bytes, depth)
    }

    /** Nothing was exceeded so far, and the counters stand here. */
    ghost predicate Ready(c: Counters)
      reads this
    {
      !exhausted && Now() == c && Fits(c, NOTHING) && peak <= MAX_AST_DEPTH
    }

    /** How an evaluation that started at `c` ended. If its charges fit, the result is the metered one and
        the counters grew by exactly the charges; if not, it is a rejection. The depth is restored. */
    ghost predicate Ended<T>(c: Counters, r: Result<T>, m: Metered<T>)
      reads this
    {
      && depth == c.depth && peak <= MAX_AST_DEPTH
      && (if Fits(c, m.use) then !exhausted && r == m.result && Now() == Spend(c, m.use) else exhausted && r == Reject)
    }

    /** `_step`. */
    method Step() returns (ok: bool)
      requires Ready(Now())
      modifies this`steps, this`exhausted
      ensures ok <==> Fits(old(Now()), Steps(1))
      ensures if ok then Ready(Spend(old(Now()), Steps(1))) else exhausted
    {
      steps := steps + 1;
      ok := steps <= MAX_EVALUATION_STEPS;
      exhausted := !ok;
    }

    /** `_charge_items`. */
    method ChargeItems(count: nat) returns (ok: bool)
      requires Ready(Now())
      modifies this`items, this`exhausted
      ensures ok <==> Fits(old(Now()), Items(count))
      ensures if ok then Ready(Spend(old(Now()), Items(count))) else exhausted
    {
      if count > MAX_SEQUENCE_ITEMS {
        exhausted := true;
        return false;
      }
      items := items + count;
      ok := items <= MAX_EVALUATED_ITEMS;
      exhausted := !ok;
    }

    /** `_charge_string_size`. */
    method ChargeString(size: nat) returns (ok: bool)
      requires Ready(Now())
      modifies this`bytes, this`exhausted
      ensures ok <==> Fits(old(Now()), Bytes(size))
      ensures if ok then Ready(Spend(old(Now()), Bytes(size))) else exhausted
    {
      if size > MAX_STRING_BYTES {
        exhausted := true;
        return false;
      }
      bytes := bytes + size;
      ok := bytes <= MAX_STRING_BYTES;
      exhausted := !ok;
    }

    /** A length check on its own. */
    method CheckLength(length: nat) returns (ok: bool)
      requires Ready(Now())
      modifies this`exhausted
      ensures ok <==> Fits(old(Now()), Length(length))
      ensures if ok then Ready(Spend(old(Now()), Length(length))) else exhausted
    {
      ok := length <= MAX_SEQUENCE_ITEMS;
      exhausted := !ok;
    }

    /** `expression`. */
    method Expression(e: Expr, env: Env) returns (r: Result<Value>)
      requires Ready(Now())
      modifies this
      ensures Ended(old(Now()), r, Meter(e, env, lib)) && this.env == old(this.env)
      decreases e, 5, 1
    {
      EnteredIs(MeterBody(e, env, lib));
      ChargedFits(Now(), Steps(1), Deeper(MeterBody(e, env, lib)));
      var ok := Step();
      if !ok {
        return Reject;
      }
      r := Nested(e, env);
    }

    /** One level deeper; the depth is restored whatever happens inside. */
    method Nested(e: Expr, env: Env) returns (r: Result<Value>)
      requires Ready(Now())
      modifies this
      ensures Ended(old(Now()), r, Deeper(MeterBody(e, env, lib))) && this.env == old(this.env)
      decreases e, 5, 0
    {
      DeeperFits(Now(), MeterBody(e, env, lib));
      depth := depth + 1;
      if depth > MAX_AST_DEPTH {
        depth := depth - 1;
        exhausted := true;
        return Reject;
      }
      peak := if depth > peak then depth else peak;
      r := Body(e, env);
      depth := depth - 1;
    }

    /** `_expression`. */
    method Body(e: Expr, env: Env) returns (r: Result<Value>)
      requires Ready(Now())
      modifies this
      ensures Ended(old(Now()), r, MeterBody(e, env, lib)) && this.env == old(this.env)
      decreases e, 4, 0
    {
      match e
      case Const(v) => r := ConstantExpr(v);
      case SurrogateText => r := Crash;
      case Name(id) => r := NameOf(id, env);
      case Display(display, elts) => r := DisplayExpr(e, env);
      case DictDisplay(entries) => r := DictExpr(e, env);
      case Starred(inner) => r := Expression(inner, env);
      case Comp(comp, key, elt, gens) => r := Comprehension(e, env);
      case Call(func, args, keywords) =>
        if func.None? {
          r := Reject;
        } else {
          r := CallExpr(e, env);
        }
      case Subscript(container, index) => r := SubscriptExpr(e, env);
      case Compare(left, links) => r := CompareExpr(e, env);
      case IfExp(test, body, orelse) => r := ConditionalExpr(e, env);
      case Add(left, right) => r := AddExpr(e, env);
      case BitOr(left, right) => r := UnionExpr(e, env);
      case Attribute(object_, attr) => r := AttributeExpr(e, env);
      case FString(parts) => r := FStringExpr(parts);
      case Unsupported => r := Reject;
    }

    method ConstantExpr(v: Value) returns (r: Result<Value>)
      requires Ready(Now())
      modifies this
      ensures Ended(old(Now()), r, Constant(v)) && env == old(env)
    {
      if !IsScalar(v) {
        return Reject;
      }
      if v.Str? {
        var ok := ChargeString(Utf8Length(v.s));
        if !ok {
          return Reject;
        }
      }
      return Ok(v);
    }

    method FStringExpr(parts: seq<Piece>) returns (r: Result<Value>)
      requires Ready(Now())
      modifies this
      ensures Ended(old(Now()), r, FStringOf(parts)) && env == old(env)
    {
      var text, encodable := "", true;
      for i := 0 to |parts|
        invariant Ready(old(Now())) && env == old(env)
        invariant Text(parts[..i]) == if encodable then Ok(text) else Crash
      {
        assert parts[..i + 1][..i] == parts[..i];
        match parts[i] {
          case FormattedPiece =>
            TextStops(parts, i + 1);
            return Reject;
          case SurrogatePiece =>
            encodable := false;
          case TextPiece(piece) =>
            text := text + piece;
        }
      }
      assert parts[..|parts|] == parts;
      if !encodable {
        return Crash;
      }
      var ok := ChargeString(Utf8Length(text));
      return if ok then Ok(Str(text)) else Reject;
    }

    method SubscriptExpr(e: Expr, env: Env) returns (r: Result<Value>)
      requires Ready(Now()) && e.Subscript?
      modifies this
      ensures Ended(old(Now()), r, MeterBody(e, env, lib)) && this.env == old(this.env)
      decreases e, 3, 0
    {
      ghost var c, i := Meter(e.container, env, lib), Meter(e.index, env, lib);
      FitsJoin(Now(), c.use, i.use);
      var container := Expression(e.container, env);
      if !container.Ok? {
        return container;
      }
      var index := Expression(e.index, env);
      if !index.Ok? {
        return index;
      }
      r := Item(container.value, index.value);
    }

    method ConditionalExpr(e: Expr, env: Env) returns (r: Result<Value>)
      requires Ready(Now()) && e.IfExp?
      modifies this
      ensures Ended(old(Now()), r, MeterBody(e, env, lib)) && this.env == old(this.env)
      decreases e, 3, 0
    {
      ghost var c := Meter(e.test, env, lib);
      FitsJoin(Now(), c.use, Meter(e.body, env, lib).use);
      FitsJoin(Now(), c.use, Meter(e.orelse, env, lib).use);
      r := Expression(e.test, env);
      if !r.Ok? {
        return;
      }
      if !r.value.Bool? {
        return Reject;
      }
      if r.value.b {
        r := Expression(e.body, env);
      } else {
        r := Expression(e.orelse, env);
      }
    }

    method AttributeExpr(e: Expr, env: Env) returns (r: Result<Value>)
      requires Ready(Now()) && e.Attribute?
      modifies this
      ensures Ended(old(Now()), r, MeterBody(e, env, lib)) && this.env == old(this.env)
      decreases e, 3, 0
    {
      r := Expression(e.object_, env);
      if r.Ok? {
        r := AttributeOf(r.value, e.attr);
      }
    }

    method AddExpr(e: Expr, env: Env) returns (r: Result<Value>)
      requires Ready(Now()) && e.Add?
      modifies this
      ensures Ended(old(Now()), r, MeterBody(e, env, lib)) && this.env == old(this.env)
      decreases e, 3, 0
    {
      ghost var start, a, b := Now(), Meter(e.left, env, lib), Meter(e.right, env, lib);
      FitsJoin(start, a.use, b.use);
      if a.result.Ok? && b.result.Ok? {
        ghost var sum := SumOf(a.result.value, b.result.value);
        ChargedFits(start, a.use, Charge(b.use, sum));
        ChargedFits(Spend(start, a.use), b.use, sum);
      }
      var left := Expression(e.left, env);
      if !left.Ok? {
        return left;
      }
      var right := Expression(e.right, env);
      if !right.Ok? {
        return right;
      }
      r := AddValues(left.value, right.value);
    }

    method AddValues(a: Value, b: Value) returns (r: Result<Value>)
      requires Ready(Now())
      modifies this
      ensures Ended(old(Now()), r, SumOf(a, b)) && env == old(env)
    {
      r := Sum(a, b);
      if !r.Ok? {
        return Reject;
      }
      var ok: bool;
      if a.Str? {
        ok := ChargeString(Utf8Length(a.s) + Utf8Length(b.s));
      } else {
        ok := ChargeItems(SizeOf(a) + SizeOf(b));
      }
      if !ok {
        return Reject;
      }
    }

    method UnionExpr(e: Expr, env: Env) returns (r: Result<Value>)
      requires Ready(Now()) && e.BitOr?
      modifies this
      ensures Ended(old(Now()), r, MeterBody(e, env, lib)) && this.env == old(this.env)
      decreases e, 3, 0
    {
      ghost var start, a, b := Now(), Meter(e.left, env, lib), Meter(e.right, env, lib);
      FitsJoin(start, a.use, b.use);
      if a.result.Ok? && b.result.Ok? {
        ghost var union := UnionOf(a.result.value, b.result.value);
        ChargedFits(start, a.use, Charge(b.use, union));
        ChargedFits(Spend(start, a.use), b.use, union);
      }
      var left := Expression(e.left, env);
      if !left.Ok? {
        return left;
      }
      var right := Expression(e.right, env);
      if !right.Ok? {
        return right;
      }
      r := UnionValues(left.value, right.value);
    }

    method UnionValues(a: Value, b: Value) returns (r: Result<Value>)
      requires Ready(Now())
      modifies this
      ensures Ended(old(Now()), r, UnionOf(a, b)) && env == old(env)
    {
      r := Union(a, b);
      if r.Ok? {
        var ok := ChargeItems(SizeOf(r.value));
        if !ok {
          return Reject;
        }
      }
    }

    method CompareExpr(e: Expr, env: Env) returns (r: Result<Value>)
      requires Ready(Now()) && e.Compare?
      modifies this
      ensures Ended(old(Now()), r, MeterBody(e, env, lib)) && this.env == old(this.env)
      decreases e, 3, 0
    {
      ghost var start, first := Now(), Meter(e.left, env, lib);
      if first.result.Ok? {
        ChargedFits(start, first.use, Truth(MeterLinks(e, Chain(first.result.value, true), e.links, env, lib)));
      }
      r := Expression(e.left, env);
      if !r.Ok? {
        return;
      }
      var chain := Links(e, Chain(r.value, true), env);
      r := if chain.Ok? then Ok(Bool(chain.value.holds)) else Fail(chain);
    }

    /** The links of a chain, each operand evaluated once. */
    method Links(e: Expr, first: Chain, env: Env) returns (r: Result<Chain>)
      requires Ready(Now()) && e.Compare?
      modifies this
      ensures Ended(old(Now()), r, MeterLinks(e, first, e.links, env, lib)) && this.env == old(this.env)
      decreases e, 2, 0
    {
      var chain := first;
      ghost var start, spent := Now(), NOTHING;
      ghost var total := MeterLinks(e, first, e.links, env, lib);
      for i := 0 to |e.links|
        invariant Ready(Spend(start, spent)) && Fits(start, spent) && this.env == old(this.env)
        invariant total == Charge(spent, MeterLinks(e, chain, e.links[i..], env, lib))
      {
        assert e.links[i..][1..] == e.links[i + 1..] && e.links[i..][0] == e.links[i];
        ghost var next := MeterLink(chain, e.links[i], env, lib);
        FitsJoin(start, spent, next.use);
        if next.result.Ok? {
          FitsFirst(start, spent, next.use, MeterLinks(e, next.result.value, e.links[i + 1..], env, lib));
        }
        var more := LinkExpr(chain, e.links[i], env);
        if !more.Ok? {
          return more;
        }
        chain := more.value;
        spent := Join(spent, next.use);
      }
      return Ok(chain);
    }

    method LinkExpr(chain: Chain, link: Link, env: Env) returns (r: Result<Chain>)
      requires Ready(Now())
      modifies this
      ensures Ended(old(Now()), r, MeterLink(chain, link, env, lib)) && this.env == old(this.env)
      decreases link, 6, 0
    {
      var right := Expression(link.right, env);
      if !right.Ok? {
        return Fail(right);
      }
      var current := CompareOne(link.op, chain.left, right.value);
      return if current.Ok? then Ok(Chain(right.value, chain.holds && current.value)) else Fail(current);
    }

    method DisplayExpr(e: Expr, env: Env) returns (r: Result<Value>)
      requires Ready(Now()) && e.Display?
      modifies this
      ensures Ended(old(Now()), r, MeterBody(e, env, lib)) && this.env == old(this.env)
      decreases e, 3, 0
    {
      ghost var start, length, m := Now(), Length(|e.elts|), MeterElements(e, e.elts, false, [], env, lib);
      FitsJoin(start, length, m.use);
      if m.result.Ok? {
        FitsJoin(start, length, Join(m.use, Items(|m.result.value|)));
        FitsJoin(Spend(start, length), m.use, Items(|m.result.value|));
      }
      var ok := CheckLength(|e.elts|);
      if !ok {
        return Reject;
      }
      var values := Elements(e, e.elts, false, env);
      if !values.Ok? {
        return Fail(values);
      }
      ok := ChargeItems(|values.value|);
      if !ok {
        return Reject;
      }
      r := DisplayValue(e.display, values.value);
    }

    /** The elements of a display or the positional arguments of a call. */
    method Elements(e: Expr, elts: seq<Expr>, wrapped: bool, env: Env) returns (r: Result<seq<Value>>)
      requires Ready(Now()) && ((e.Display? && elts == e.elts) || (e.Call? && elts == e.args))
      modifies this
      ensures Ended(old(Now()), r, MeterElements(e, elts, wrapped, [], env, lib)) && this.env == old(this.env)
      decreases e, 2, 0
    {
      hide MeterElement, MeterBody;
      var values: seq<Value> := [];
      ghost var start, spent := Now(), NOTHING;
      ghost var total := MeterElements(e, elts, wrapped, [], env, lib);
      for i := 0 to |elts|
        invariant Ready(Spend(start, spent)) && Fits(start, spent) && this.env == old(this.env)
        invariant total == Charge(spent, MeterElements(e, elts[i..], wrapped, values, env, lib))
      {
        ghost var here, next := Now(), MeterElement(elts[i], wrapped, values, env, lib);
        ElementsStep(e, elts, i, wrapped, start, spent, values, env, lib);
        var more := Element(elts[i], wrapped, values, env);
        assert Ended(here, more, next);
        if !more.Ok? {
          return more;
        }
        values := more.value;
        spent := Join(spent, next.use);
      }
      return Ok(values);
    }

    method Element(elt: Expr, wrapped: bool, before: seq<Value>, env: Env) returns (r: Result<seq<Value>>)
      requires Ready(Now())
      modifies this
      ensures Ended(old(Now()), r, MeterElement(elt, wrapped, before, env, lib)) && this.env == old(this.env)
      decreases elt, 6, 0
    {
      ghost var m := Meter(Picked(elt, wrapped), env, lib);
      if m.result.Ok? {
        ChargedFits(Now(), m.use, Extend(before, elt, m.result.value));
      }
      var v := Expression(Picked(elt, wrapped), env);
      if !v.Ok? {
        return Fail(v);
      }
      r := ExtendWith(before, elt, v.value);
    }

    /** One element more, or all the items of a starred one. */
    method ExtendWith(before: seq<Value>, elt: Expr, v: Value) returns (r: Result<seq<Value>>)
      requires Ready(Now())
      modifies this
      ensures Ended(old(Now()), r, Extend(before, elt, v)) && env == old(env)
    {
      if !elt.Starred? {
        return Ok(before + [v]);
      }
      var expanded := AsSequence(v);
      if !expanded.Ok? {
        return expanded;
      }
      FitsJoin(Now(), Length(|before| + |expanded.value|), Items(|expanded.value|));
      var ok := CheckLength(|before| + |expanded.value|);
      if !ok {
        return Reject;
      }
      ok := ChargeItems(|expanded.value|);
      return if ok then Ok(before + expanded.value) else Reject;
    }

    method DictExpr(e: Expr, env: Env) returns (r: Result<Value>)
      requires Ready(Now()) && e.DictDisplay?
      modifies this
      ensures Ended(old(Now()), r, MeterBody(e, env, lib)) && this.env == old(this.env)
      decreases e, 3, 0
    {
      ghost var start, length, m := Now(), Length(|e.entries|), MeterEntries(e, e.entries, [], env, lib);
      FitsJoin(start, length, m.use);
      if m.result.Ok? {
        FitsJoin(start, length, Join(m.use, Items(|m.result.value|)));
        FitsJoin(Spend(start, length), m.use, Items(|m.result.value|));
      }
      var ok := CheckLength(|e.entries|);
      if !ok {
        return Reject;
      }
      var pairs := Entries(e, env);
      if !pairs.Ok? {
        return Fail(pairs);
      }
      ok := ChargeItems(|pairs.value|);
      return if ok then Ok(Dict(pairs.value)) else Reject;
    }

    method Entries(e: Expr, env: Env) returns (r: Result<seq<(Value, Value)>>)
      requires Ready(Now()) && e.DictDisplay?
      modifies this
      ensures Ended(old(Now()), r, MeterEntries(e, e.entries, [], env, lib)) && this.env == old(this.env)
      decreases e, 2, 0
    {
      var pairs: seq<(Value, Value)> := [];
      ghost var start, spent := Now(), NOTHING;
      ghost var total := MeterEntries(e, e.entries, [], env, lib);
      for i := 0 to |e.entries|
        invariant Ready(Spend(start, spent)) && Fits(start, spent) && this.env == old(this.env)
        invariant total == Charge(spent, MeterEntries(e, e.entries[i..], pairs, env, lib))
      {
        assert e.entries[i..][1..] == e.entries[i + 1..] && e.entries[i..][0] == e.entries[i];
        ghost var next := MeterEntry(e.entries[i], pairs, env, lib);
        FitsJoin(start, spent, next.use);
        if next.result.Ok? {
          FitsFirst(start, spent, next.use, MeterEntries(e, e.entries[i + 1..], next.result.value, env, lib));
        }
        var more := EntryExpr(e.entries[i], pairs, env);
        if !more.Ok? {
          return more;
        }
        pairs := more.value;
        spent := Join(spent, next.use);
      }
      return Ok(pairs);
    }

    method EntryExpr(entry: Entry, before: seq<(Value, Value)>, env: Env) returns (r: Result<seq<(Value, Value)>>)
      requires Ready(Now())
      modifies this
      ensures Ended(old(Now()), r, MeterEntry(entry, before, env, lib)) && this.env == old(this.env)
      decreases entry, 6, 0
    {
      if entry.key.None? {
        return Reject;
      }
      ghost var start, m := Now(), Meter(entry.key.value, env, lib);
      var key := Expression(entry.key.value, env);
      FitsJoin(start, m.use, Meter(entry.value, env, lib).use);
      if !key.Ok? {
        return Fail(key);
      }
      if !key.value.Str? || Among(key.value, Keys(before)) {
        return Reject;
      }
      var v := Expression(entry.value, env);
      return if v.Ok? then Ok(before + [(key.value, v.value)]) else Fail(v);
    }

    /** `call` of a name. */
    method CallExpr(e: Expr, env: Env) returns (r: Result<Value>)
      requires Ready(Now()) && e.Call? && e.func.Some?
      modifies this
      ensures Ended(old(Now()), r, MeterCall(e, env, lib)) && this.env == old(this.env)
      decreases e, 3, 0
    {
      ghost var start, p, k :=
        Now(), MeterElements(e, e.args, true, [], env, lib), MeterKeywords(e, e.keywords, [], env, lib);
      FitsJoin(start, p.use, k.use);
      if p.result.Ok? && k.result.Ok? {
        ghost var call := Applied(e.func.value, p.result.value, k.result.value, lib);
        FitsJoin(start, p.use, Join(k.use, call.use));
        FitsJoin(Spend(start, p.use), k.use, call.use);
      }
      var positional := Elements(e, e.args, true, env);
      if !positional.Ok? {
        return Fail(positional);
      }
      var keywords := Keywords(e, env);
      if !keywords.Ok? {
        return Fail(keywords);
      }
      r := ApplyCall(e.func.value, positional.value, keywords.value);
    }

    method Keywords(e: Expr, env: Env) returns (r: Result<Fields>)
      requires Ready(Now()) && e.Call?
      modifies this
      ensures Ended(old(Now()), r, MeterKeywords(e, e.keywords, [], env, lib)) && this.env == old(this.env)
      decreases e, 2, 0
    {
      var fields: Fields := [];
      ghost var start, spent := Now(), NOTHING;
      ghost var total := MeterKeywords(e, e.keywords, [], env, lib);
      for i := 0 to |e.keywords|
        invariant Ready(Spend(start, spent)) && Fits(start, spent) && this.env == old(this.env)
        invariant total == Charge(spent, MeterKeywords(e, e.keywords[i..], fields, env, lib))
      {
        assert e.keywords[i..][1..] == e.keywords[i + 1..] && e.keywords[i..][0] == e.keywords[i];
        ghost var next := MeterKeyword(e.keywords[i], fields, env, lib);
        FitsJoin(start, spent, next.use);
        if next.result.Ok? {
          FitsFirst(start, spent, next.use, MeterKeywords(e, e.keywords[i + 1..], next.result.value, env, lib));
        }
        var more := KeywordExpr(e.keywords[i], fields, env);
        if !more.Ok? {
          return more;
        }
        fields := more.value;
        spent := Join(spent, next.use);
      }
      return Ok(fields);
    }

    method KeywordExpr(keyword: Keyword, before: Fields, env: Env) returns (r: Result<Fields>)
      requires Ready(Now())
      modifies this
      ensures Ended(old(Now()), r, MeterKeyword(keyword, before, env, lib)) && this.env == old(this.env)
      decreases keyword, 6, 0
    {
      if keyword.name.None? || Named(before, keyword.name.value).Some? {
        return Reject;
      }
      var v := Expression(keyword.value, env);
      return if v.Ok? then Ok(before + [(keyword.name.value, v.value)]) else Fail(v);
    }

    /** The call once its arguments are values. */
    method ApplyCall(name: string, positional: seq<Value>, keywords: Fields) returns (r: Result<Value>)
      requires Ready(Now())
      modifies this
      ensures Ended(old(Now()), r, Applied(name, positional, keywords, lib)) && env == old(env)
    {
      var charged := lib.charged(name, positional, keywords);
      if charged.Some? {
        var ok := ChargeItems(charged.value);
        if !ok {
          return Reject;
        }
      }
      r := lib.apply(name, positional, keywords);
    }

    /** `comprehension`. */
    method Comprehension(e: Expr, env: Env) returns (r: Result<Value>)
      requires Ready(Now()) && e.Comp?
      modifies this
      ensures Ended(old(Now()), r, Charge(Steps(1), MeterComp(e, env, lib))) && this.env == old(this.env)
      decreases e, 3, 1
    {
      hide MeterComp, MeterRows;
      ghost var start, m := Now(), MeterComp(e, env, lib);
      var ok := Step();
      ChargedFits(start, Steps(1), m);
      if !ok {
        return Reject;
      }
      r := RowsAndValues(e, env);
      assert Ended(Spend(start, Steps(1)), r, m);
    }

    method RowsAndValues(e: Expr, env: Env) returns (r: Result<Value>)
      requires Ready(Now()) && e.Comp?
      modifies this
      ensures Ended(old(Now()), r, MeterComp(e, env, lib)) && this.env == old(this.env)
      decreases e, 3, 0
    {
      hide MeterRows, MeterOver, MeterPairsOver;
      if !PlainGenerators(e.gens) {
        return Reject;
      }
      ghost var start, m := Now(), MeterRows(e, e.gens, 0, env, [], lib);
      var rows := Walk(e, 0, env, []);
      if m.result.Ok? {
        FitsJoin(start, m.use, Collect(e.comp, MeterOver(e, e.elt, m.result.value, [], lib)).use);
        ghost var pairs := Collect(e.comp, MeterPairsOver(e, e.key, e.elt, m.result.value, [], lib));
        FitsJoin(start, m.use, Join(Items(|m.result.value|), pairs.use));
        FitsJoin(Spend(start, m.use), Items(|m.result.value|), pairs.use);
      }
      if !rows.Ok? {
        return Fail(rows);
      }
      if e.comp.DictComp? {
        var ok := ChargeItems(|rows.value|);
        if !ok {
          return Reject;
        }
        var pairs := PairsOver(e, rows.value);
        return if pairs.Ok? then CompValue(e.comp, pairs.value) else Fail(pairs);
      }
      r := ValuesOver(e, rows.value);
    }

    method ValuesOver(e: Expr, rows: seq<Env>) returns (r: Result<Value>)
      requires Ready(Now()) && e.Comp? && !e.comp.DictComp?
      modifies this
      ensures Ended(old(Now()), r, Collect(e.comp, MeterOver(e, e.elt, rows, [], lib))) && env == old(env)
      decreases e, 2, 1
    {
      ghost var m := MeterOver(e, e.elt, rows, [], lib);
      var values := Over(e, rows);
      r := CollectValues(e.comp, values, old(Now()), m);
    }

    /** Charging for the values of a comprehension that started at `start`, and collecting them. */
    method CollectValues(comp: CompKind, values: Result<seq<Value>>, ghost start: Counters,
        ghost m: Metered<seq<Value>>)
      returns (r: Result<Value>)
      requires !comp.DictComp? && Ended(start, values, m) && Fits(start, NOTHING)
      modifies this
      ensures Ended(start, r, Collect(comp, m)) && env == old(env)
    {
      if m.result.Ok? {
        CollectFits(start, comp, m);
      }
      if !values.Ok? {
        return Fail(values);
      }
      var ok := ChargeItems(|values.value|);
      if !ok {
        return Reject;
      }
      r := CompValue(comp, values.value);
    }

    /** The rows of a comprehension, from generator `index` on, added to `rows`. */
    method Walk(e: Expr, index: nat, env: Env, rows: seq<Env>) returns (r: Result<seq<Env>>)
      requires Ready(Now()) && e.Comp? && index <= |e.gens|
      modifies this
      ensures Ended(old(Now()), r, MeterRows(e, e.gens, index, env, rows, lib)) && this.env == old(this.env)
      decreases e, 1, |e.gens| - index, 1
    {
      if |rows| >= MAX_COMPREHENSION_ITEMS {
        exhausted := true;
        return Reject;
      }
      if index == |e.gens| {
        return Ok(rows + [env]);
      }
      WalkFits(Now(), rows, e, index, env, lib);
      r := WalkGenerator(e, index, env, rows);
    }

    method WalkGenerator(e: Expr, index: nat, env: Env, rows: seq<Env>) returns (r: Result<seq<Env>>)
      requires Ready(Now()) && e.Comp? && index < |e.gens|
      modifies this
      ensures Ended(old(Now()), r, MeterGenerator(e, e.gens, index, env, rows, lib)) && this.env == old(this.env)
      decreases e, 1, |e.gens| - index, 0
    {
      ghost var start, m := Now(), Meter(e.gens[index].iter, env, lib);
      if m.result.Ok? && Iterate(m.result.value).Ok? {
        ghost var values := Iterate(m.result.value).value;
        ghost var rest := MeterRowsOf(e, e.gens, index, values, env, rows, lib);
        ChargedFits(start, m.use, Charge(Length(|values|), rest));
        ChargedFits(Spend(start, m.use), Length(|values|), rest);
      }
      var iterable := Expression(e.gens[index].iter, env);
      if !iterable.Ok? {
        return Fail(iterable);
      }
      var found := Iterate(iterable.value);
      if !found.Ok? {
        return Fail(found);
      }
      var ok := CheckLength(|found.value|);
      if !ok {
        return Reject;
      }
      r := WalkValues(e, index, found.value, env, rows);
    }

    method WalkValues(e: Expr, index: nat, values: seq<Value>, env: Env, before: seq<Env>) returns (r: Result<seq<Env>>)
      requires Ready(Now()) && e.Comp? && index < |e.gens|
      modifies this
      ensures Ended(old(Now()), r, MeterRowsOf(e, e.gens, index, values, env, before, lib)) && this.env == old(this.env)
      decreases e, 1, |e.gens| - index - 1, 3
    {
      var rows := before;
      ghost var start, spent := Now(), NOTHING;
      ghost var total := MeterRowsOf(e, e.gens, index, values, env, before, lib);
      for j := 0 to |values|
        invariant Ready(Spend(start, spent)) && Fits(start, spent) && this.env == old(this.env)
        invariant total == Charge(spent, MeterRowsOf(e, e.gens, index, values[j..], env, rows, lib))
      {
        assert values[j..][1..] == values[j + 1..] && values[j..][0] == values[j];
        ghost var next := MeterRowOf(e, e.gens, index, values[j], env, rows, lib);
        FitsJoin(start, spent, next.use);
        if next.result.Ok? {
          FitsFirst(start, spent, next.use,
            MeterRowsOf(e, e.gens, index, values[j + 1..], env, next.result.value, lib));
        }
        var more := WalkValue(e, index, values[j], env, rows);
        if !more.Ok? {
          return more;
        }
        rows := more.value;
        spent := Join(spent, next.use);
      }
      return Ok(rows);
    }

    method WalkValue(e: Expr, index: nat, value: Value, env: Env, rows: seq<Env>) returns (r: Result<seq<Env>>)
      requires Ready(Now()) && e.Comp? && index < |e.gens|
      modifies this
      ensures Ended(old(Now()), r, MeterRowOf(e, e.gens, index, value, env, rows, lib)) && this.env == old(this.env)
      decreases e, 1, |e.gens| - index - 1, 2
    {
      var bound := BindTarget(e.gens[index].target, value, env);
      if !bound.Ok? {
        return Fail(bound);
      }
      r := Walk(e, index + 1, bound.value, rows);
    }

    method Over(e: Expr, rows: seq<Env>) returns (r: Result<seq<Value>>)
      requires Ready(Now()) && e.Comp?
      modifies this
      ensures Ended(old(Now()), r, MeterOver(e, e.elt, rows, [], lib)) && env == old(env)
      decreases e, 2, 0
    {
      var values: seq<Value> := [];
      ghost var start, spent := Now(), NOTHING;
      ghost var total := MeterOver(e, e.elt, rows, [], lib);
      for i := 0 to |rows|
        invariant Ready(Spend(start, spent)) && Fits(start, spent) && env == old(env)
        invariant total == Charge(spent, MeterOver(e, e.elt, rows[i..], values, lib))
      {
        assert rows[i..][1..] == rows[i + 1..] && rows[i..][0] == rows[i];
        ghost var next := MeterOne(e.elt, rows[i], values, lib);
        FitsJoin(start, spent, next.use);
        if next.result.Ok? {
          FitsFirst(start, spent, next.use, MeterOver(e, e.elt, rows[i + 1..], next.result.value, lib));
        }
        var v := Expression(e.elt, rows[i]);
        if !v.Ok? {
          return Fail(v);
        }
        values := values + [v.value];
        spent := Join(spent, next.use);
      }
      return Ok(values);
    }

    method PairsOver(e: Expr, rows: seq<Env>) returns (r: Result<seq<Value>>)
      requires Ready(Now()) && e.Comp?
      modifies this
      ensures Ended(old(Now()), r, MeterPairsOver(e, e.key, e.elt, rows, [], lib)) && env == old(env)
      decreases e, 2, 0
    {
      var pairs: seq<Value> := [];
      ghost var start, spent := Now(), NOTHING;
      ghost var total := MeterPairsOver(e, e.key, e.elt, rows, [], lib);
      for i := 0 to |rows|
        invariant Ready(Spend(start, spent)) && Fits(start, spent) && env == old(env)
        invariant total == Charge(spent, MeterPairsOver(e, e.key, e.elt, rows[i..], pairs, lib))
      {
        assert rows[i..][1..] == rows[i + 1..] && rows[i..][0] == rows[i];
        ghost var next := MeterPair(e, e.key, e.elt, rows[i], pairs, lib);
        FitsJoin(start, spent, next.use);
        if next.result.Ok? {
          FitsFirst(start, spent, next.use, MeterPairsOver(e, e.key, e.elt, rows[i + 1..], next.result.value, lib));
        }
        var more := Pair(e, rows[i], pairs);
        if !more.Ok? {
          return more;
        }
        pairs := more.value;
        spent := Join(spent, next.use);
      }
      return Ok(pairs);
    }

    method Pair(e: Expr, row: Env, before: seq<Value>) returns (r: Result<seq<Value>>)
      requires Ready(Now()) && e.Comp?
      modifies this
      ensures Ended(old(Now()), r, MeterPair(e, e.key, e.elt, row, before, lib)) && env == old(env)
      decreases e, 1, 0
    {
      ghost var start, m := Now(), Meter(e.key, row, lib);
      var k := Expression(e.key, row);
      FitsJoin(start, m.use, Meter(e.elt, row, lib).use);
      if !k.Ok? {
        return Fail(k);
      }
      var v := Expression(e.elt, row);
      return if v.Ok? then Ok(before + [PairOf(k.value, v.value)]) else Fail(v);
    }

    // ---- Modules --------------------------------------------------------------------------------------

    /** `evaluate`, once the module is parsed. Main result: it returns exactly when the module denotes
        bindings and its charges fit the budgets, and then it returns those bindings. Every sequence and
        mapping it produced is within the length limit exactly when no call went beyond its guard. */
    method Evaluate(stmts: seq<Stmt>) returns (r: Result<Env>)
      requires Ready(START) && env == Env(map[])
      modifies this
      ensures Ended(START, r, MeterModule(stmts, Env(map[]), reserved, lib))
      ensures r.Ok? ==> env == r.value
      ensures r.Ok? && Guarded(lib) ==>
                var use := MeterModule(stmts, Env(map[]), reserved, lib).use;
                (use.long <==> use.wide) && (!use.wide ==> EnvBounded(r.value))
    {
      r := Statements(stmts);
      if r.Ok? && Guarded(lib) {
        ModuleWidth(stmts, Env(map[]), reserved, lib);
      }
    }

    method Statements(stmts: seq<Stmt>) returns (r: Result<Env>)
      requires Ready(Now())
      modifies this
      ensures Ended(old(Now()), r, MeterModule(stmts, old(env), reserved, lib))
      ensures r.Ok? ==> env == r.value
    {
      ghost var start, spent, first := Now(), NOTHING, env;
      for i := 0 to |stmts|
        invariant Ready(Spend(start, spent)) && Fits(start, spent)
        invariant MeterModule(stmts, first, reserved, lib) == Charge(spent, MeterModule(stmts[i..], env, reserved, lib))
      {
        ghost var before := env;
        ModuleStep(stmts, i, start, spent, env, reserved, lib);
        r := Statement(stmts[i]);
        if !r.Ok? {
          return;
        }
        env := r.value;
        spent := Join(spent, MeterStmt(stmts[i], before, reserved, lib).use);
      }
      return Ok(env);
    }

    /** One step and `statement`: the bindings after it. */
    method Statement(s: Stmt) returns (r: Result<Env>)
      requires Ready(Now())
      modifies this
      ensures Ended(old(Now()), r, MeterStmt(s, old(env), reserved, lib)) && env == old(env)
    {
      if s.Assign? && FirstTargetAllowed(s.targets, reserved) {
        ChargedFits(Now(), Steps(1), Meter(s.value, env, lib));
      }
      var ok := Step();
      if !ok {
        return Reject;
      }
      if s.Inert? {
        return Ok(env);
      }
      if s.Refused? || !FirstTargetAllowed(s.targets, reserved) {
        return Reject;
      }
      var v := Expression(s.value, env);
      return if v.Ok? then BindNames(s.targets, v.value, env) else Fail(v);
    }
  }

  lemma {:induction false} ElementsStep(
    e: Expr, elts: seq<Expr>, i: nat, wrapped: bool, c: Counters, spent: Use, before: seq<Value>, env: Env,
    lib: CallTable)
    requires i < |elts| && Fits(c, spent) && forall j :: 0 <= j < |elts| ==> elts[j] < e
    ensures var next := MeterElement(elts[i], wrapped, before, env, lib);
            var total := Charge(spent, MeterElements(e, elts[i..], wrapped, before, env, lib));
            && (Fits(c, Join(spent, next.use)) <==> Fits(Spend(c, spent), next.use))
            && Spend(c, Join(spent, next.use)) == Spend(Spend(c, spent), next.use)
            && (Fits(c, total.use) ==> Fits(c, Join(spent, next.use)))
            && if next.result.Ok? then
                 total == Charge(Join(spent, next.use),
                                 MeterElements(e, elts[i + 1..], wrapped, next.result.value, env, lib))
               else total == Metered(next.result, Join(spent, next.use))
  {
    assert elts[i..][1..] == elts[i + 1..] && elts[i..][0] == elts[i];
    var next := MeterElement(elts[i], wrapped, before, env, lib);
    FitsJoin(c, spent, next.use);
    if next.result.Ok? {
      FitsFirst(c, spent, next.use, MeterElements(e, elts[i + 1..], wrapped, next.result.value, env, lib));
    }
  }

  lemma {:induction false} ModuleStep(stmts: seq<Stmt>, i: nat, c: Counters, spent: Use, env: Env,
      reserved: set<string>, lib: CallTable)
    requires i < |stmts| && Fits(c, spent)
    ensures var next, total :=
            MeterStmt(stmts[i], env, reserved, lib), Charge(spent, MeterModule(stmts[i..], env, reserved, lib));
            && (Fits(c, Join(spent, next.use)) <==> Fits(Spend(c, spent), next.use))
            && Spend(c, Join(spent, next.use)) == Spend(Spend(c, spent), next.use)
            && (Fits(c, total.use) ==> Fits(c, Join(spent, next.use)))
            && if next.result.Ok? then
                 total == Charge(Join(spent, next.use), MeterModule(stmts[i + 1..], next.result.value, reserved, lib))
               else total == Metered(next.result, Join(spent, next.use))
  {
    assert stmts[i..][1..] == stmts[i + 1..] && stmts[i..][0] == stmts[i];
    var next := MeterStmt(stmts[i], env, reserved, lib);
    FitsJoin(c, spent, next.use);
    if next.result.Ok? {
      FitsFirst(c, spent, next.use, MeterModule(stmts[i + 1..], next.result.value, reserved, lib));
    }
  }

  lemma {:induction false} WalkFits(c: Counters, rows: seq<Env>, e: Expr, index: nat, env: Env, lib: CallTable)
    requires e.Comp? && index < |e.gens| && |rows| < MAX_COMPREHENSION_ITEMS && Fits(c, NOTHING)
    ensures var total, rest :=
            MeterRows(e, e.gens, index, env, rows, lib), MeterGenerator(e, e.gens, index, env, rows, lib);
            total.result == rest.result && (Fits(c, total.use) <==> Fits(c, rest.use))
              && Spend(c, total.use) == Spend(c, rest.use)
  {
    ChargedFits(c, Rows(|rows|), MeterGenerator(e, e.gens, index, env, rows, lib));
  }

  lemma {:induction false} TextStops(parts: seq<Piece>, k: nat)
    requires k <= |parts| && Text(parts[..k]) == Reject
    ensures Text(parts) == Reject
    decreases |parts|
  {
    if k == |parts| {
      assert parts[..k] == parts;
    } else {
      var front := parts[..|parts| - 1];
      assert front[..k] == parts[..k];
      TextStops(front, k);
    }
  }
}
