/**
 * The first stack-machine draft: `exec` over `StaticValue`s, given the global
 * scope and optionally a local scope, returning the local scope together
 * with the result.
 */
module OldMachine {
  import opened Wrappers
  import opened ScopeTree
  import opened CellScope
  import opened StackMachine
  import opened StaticValues

  /** Operators and member access always raise in this draft; errors are string values. */
  function OldBinop(a: StaticValue, b: StaticValue, op: string): (o: Outcome<StaticValue>)
    ensures o == Raise(Operator(a, b, op).error)
  {
    Raise(Operator(a, b, op).error)
  }

  function OldDot(v: StaticValue, id: string): (o: Outcome<StaticValue>)
    ensures o == Raise(StaticValues.Dot(v, id).error)
  {
    Raise(StaticValues.Dot(v, id).error)
  }

  function OldError(msg: string): StaticValue
  {
    StringLiteral(msg)
  }

  const OldOps: Ops<StaticValue, string> := Ops(OldBinop, OldDot, OldError, StaticValue.None)

  /** The scope `exec` runs in: the given one, or a fresh non-strict child of the global scope. */
  function LocalFor(a: Arena<StaticValue>, global: nat, local: Option<nat>): (r: (Arena<StaticValue>, nat))
    requires WellFormed(a) && global < |a| && (local.Some? ==> local.value < |a|)
    ensures WellFormed(r.0) && r.1 < |r.0| && |a| <= |r.0| && global < |r.0| && r.0[..|a|] == a
    ensures local.Some? ==> r == (a, local.value)
    ensures local.None? ==>
      r.1 == |a| && r.0[r.1].parent == Some(global) && !r.0[r.1].strictAssign &&
      r.0[r.1].vars == map[] && Root(r.0, r.1) == Root(a, global)
  {
    if local.Some? then (a, local.value) else (ScopeTree.NewLocal(a, global, false), |a|)
  }

  /** `exec` as a value: the local scope, the scope tree as the run leaves it, and the outcome. */
  function ExecOldSpec(a: Arena<StaticValue>, insts: seq<Statement<StaticValue, string>>, global: nat, local: Option<nat>): (nat, Arena<StaticValue>, Outcome<StaticValue>)
    requires WellFormed(a) && global < |a| && (local.Some? ==> local.value < |a|)
  {
    var (b, l) := LocalFor(a, global, local);
    var (c, o) := Run(State(b, []), insts, l, global, OldOps);
    (l, c, o)
  }

  /**
   * `StackMachine::exec` of the first draft. The local scope is handed back
   * whatever the outcome, errors included; scope changes made before an
   * error stay.
   */
  method ExecOld(t: CellScopes<StaticValue>, insts: seq<Statement<StaticValue, string>>, global: nat, local: Option<nat>) returns (localScope: nat, r: Outcome<StaticValue>)
    requires t.Valid() && global < |t.scopes| && (local.Some? ==> local.value < |t.scopes|)
    modifies t
    ensures t.Valid() && (localScope, t.scopes, r) == ExecOldSpec(old(t.scopes), insts, global, local)
  {
    if local.Some? {
      localScope := local.value;
    } else {
      localScope := t.NewLocal(global, false);
    }
    r := Exec(t, insts, localScope, global, OldOps);
  }

  /** A binary operator on two stacked values always ends the run with the "operator not supported" error naming both types. */
  lemma BinOperatorAlwaysRaises(a: Arena<StaticValue>, below: seq<StaticValue>, l: StaticValue, r: StaticValue, op: string, rest: seq<Statement<StaticValue, string>>, scope: nat, global: nat)
    requires Fits(a, scope, global)
    ensures Run(State(a, below + [l, r]), [BinOperator(op)] + rest, scope, global, OldOps) ==
      (a, Raise(StringLiteral("operator " + op + " not supported between " + TypeName(l) + "," + TypeName(r))))
  {
    BinOperatorPopOrder(a, below, l, r, op, rest, scope, global, OldOps);
  }

  /** Without a local scope, `exec` runs in a new non-strict child of the global scope and returns it. */
  lemma FreshLocalScope(a: Arena<StaticValue>, insts: seq<Statement<StaticValue, string>>, global: nat)
    requires WellFormed(a) && global < |a|
    ensures var (l, c, _) := ExecOldSpec(a, insts, global, Option.None);
      WellFormed(c) && l == |a| && |c| == |a| + 1 && c[l].parent == Some(global) && !c[l].strictAssign && Root(c, l) == Root(a, global)
  {
    var (b, l) := LocalFor(a, global, Option.None);
    var c := Run(State(b, []), insts, l, global, OldOps).0;
    SameShapeRoot(b, c, l);
  }

  /**
   * The `interpreter` test of the first draft: `LoadStatic 42`,
   * `StoreGlobal "test"`, `LoadScope "test"` in a non-strict child of a
   * non-strict global scope gives `Ok(Int 42)`, and the returned local scope
   * sees "test" declared with value 42.
   */
  lemma InterpreterTest()
    ensures
      var a := ScopeTree.NewLocal(ScopeTree.NewGlobal([], false), 0, false);
      var (l, c, o) := ExecOldSpec(a, [LoadStatic(Int(42)), StoreGlobal("test"), LoadScope("test")], 0, Some(1));
      WellFormed(c) && l == 1 && o == Return(Int(42)) &&
      IsDeclared(c, l, "test") && Get(c, l, "test", StaticValue.None) == Int(42)
  {
    InterpreterScenario(Int(42), OldOps);
  }
}
