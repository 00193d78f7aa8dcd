/** Evaluating a generated module with the source's own table of calls. */
module Conversion {
  import opened Options
  import opened StaticValues
  import opened PythonValues
  import opened Expressions
  import opened Bounds
  import opened Widths
  import opened Calls
  import opened Guards
  import opened CallBounds
  import opened CallCrashes
  import opened Crashes
  import opened Evaluator

  lemma {:induction false} TableTells(lib: Library)
    ensures Tells(Table(lib))
  {
    forall name, positional, keywords
      ensures Table(lib).apply(name, positional, keywords).Crash? <==> Table(lib).raises(name, positional, keywords)
    {
      CallCrashesIff(name, positional, keywords, lib);
    }
  }

  /** A module evaluates to what it denotes exactly if its charges fit, and is rejected if they do not. It ends
      in a Python error exactly if an operation meets operands on which Python raises, before a budget is
      exceeded. It produces a value beyond the length limit exactly if some call passes its guard; if none does,
      every binding is within the limit. */
  method EvaluateModule(stmts: seq<Stmt>, reserved: set<string>, lib: Library) returns (r: Result<Env>)
    ensures var m := MeterModule(stmts, Env(map[]), reserved, Table(lib));
            && r == (if Fits(START, m.use) then m.result else Reject)
            && (r.Crash? <==> Fits(START, m.use) && m.use.raises)
            && (r.Ok? ==> (m.use.long <==> m.use.wide) && (!m.use.wide ==> EnvBounded(r.value)))
  {
    hide Table, MeterModule;
    TableIsGuarded(lib);
    TableTells(lib);
    ModuleCrashes(stmts, Env(map[]), reserved, Table(lib));
    var evaluator := new RestrictedEvaluator(Table(lib), reserved);
    r := evaluator.Evaluate(stmts);
  }
}
