/**
 * The second draft of the machine (`StackMachine::exec` over `MshValue`
 * objects) and the `call` of a function object, which runs the function's
 * instructions in a fresh child of the calling scope.
 */
module Machine {
  import opened Wrappers
  import opened Decimal
  import opened ScopeTree
  import opened CellScope
  import opened StackMachine
  import opened Objects

  /**
   * A binary operator asks the left operand's `binop`, which no value
   * overrides; when the type text of the error cannot be built the program
   * panics, which the model leaves unspecified.
   */
  function Binop(x: Obj, y: Obj, op: BinaryOperator, addr: Obj -> string): (o: Outcome<Obj>)
    ensures o.Return? == false
    ensures TypeText(x, addr).Success? ==> o == BinOp(x, y, op, addr)
    ensures TypeText(x, addr).Failure? ==> o.Unspecified?
  {
    if TypeText(x, addr).Success? then BinOp(x, y, op, addr) else Unspecified
  }

  /** The value model of this draft: errors are `MshBaseError`s and the empty result is the shared `none`. */
  function NewOps(addr: Obj -> string): Ops<Obj, BinaryOperator>
  {
    Ops((x: Obj, y: Obj, op: BinaryOperator) => Binop(x, y, op, addr), DotOf, ErrorNew, NONE)
  }

  /**
   * `exec(instructions, scope)`: the global scope is found from the given
   * one; the tree and the result are those of `Run` from an empty stack.
   */
  method Exec(t: CellScopes<Obj>, insts: seq<Statement<Obj, BinaryOperator>>, scope: nat, addr: Obj -> string) returns (r: Outcome<Obj>)
    requires t.Valid() && scope < |t.scopes|
    modifies t
    ensures t.Valid() && FindGlobalScope(old(t.scopes), scope) <= scope
    ensures (t.scopes, r) == Run(State(old(t.scopes), []), insts, scope, FindGlobalScope(old(t.scopes), scope), NewOps(addr))
  {
    GlobalBelow(t.scopes, scope);
    var global := FindGlobalScope(t.scopes, scope);
    r := StackMachine.Exec(t, insts, scope, global, NewOps(addr));
  }

  /**
   * What calling a function object from `scope` does: a non-strict child of
   * `scope` is added to the tree and the function's instructions run there.
   * Arguments are not bound.
   */
  function CallSpec(a: Arena<Obj>, f: Obj, scope: nat, addr: Obj -> string): (r: (Arena<Obj>, Outcome<Obj>))
    requires f.Function? && WellFormed(a) && scope < |a|
    ensures WellFormed(r.0) && |r.0| == |a| + 1
  {
    var b := ScopeTree.NewLocal(a, scope, false);
    GlobalBelow(b, |a|);
    var r := Run(State(b, []), f.instructions, |a|, FindGlobalScope(b, |a|), NewOps(addr));
    SameShapeWellFormed(b, r.0);
    r
  }

  /** `MshFunction::call`. */
  method CallFunction(t: CellScopes<Obj>, f: Obj, scope: nat, addr: Obj -> string) returns (r: Outcome<Obj>)
    requires f.Function? && t.Valid() && scope < |t.scopes|
    modifies t
    ensures t.Valid()
    ensures (t.scopes, r) == CallSpec(old(t.scopes), f, scope, addr)
  {
    var local := t.NewLocal(scope, false);
    r := Exec(t, f.instructions, local, addr);
  }

  /**
   * The scope a call runs in: one new scope, a non-strict child of the
   * caller's, with the caller's global scope as its own; the scopes that
   * were there keep their places and links.
   */
  lemma CallScope(a: Arena<Obj>, f: Obj, scope: nat, addr: Obj -> string)
    requires f.Function? && WellFormed(a) && scope < |a|
    ensures var c := CallSpec(a, f, scope, addr).0;
      WellFormed(c) && |c| == |a| + 1 && SameShape(a, c[..|a|]) &&
      c[|a|].parent == Some(scope) && !c[|a|].strictAssign && Root(c, |a|) == Root(a, scope)
  {
    var b := ScopeTree.NewLocal(a, scope, false);
    var c := CallSpec(a, f, scope, addr).0;
    SameShapeRoot(b, c, |a|);
    SameShapeWellFormed(b, c);
  }

  /**
   * A function body that stores into a name the caller's scope has declared
   * assigns the caller's variable: the new scope declares nothing, so `set`
   * walks up to the declaring scope.
   */
  lemma CallAssignsCallerVariable(a: Arena<Obj>, scope: nat, id: string, v: Obj, addr: Obj -> string)
    requires WellFormed(a) && scope < |a| && Declares(Lookup(a[scope].vars, id))
    ensures var f := Function("f", "", [LoadStatic(v), StoreScope(id)]);
      var c := CallSpec(a, f, scope, addr);
      c.1 == Return(NONE) && HasValue(c.0, scope, id) && Get(c.0, scope, id, NONE) == v
  {
    var b := ScopeTree.NewLocal(a, scope, false);
    var l := |a|;
    GlobalBelow(b, l);
    var g := FindGlobalScope(b, l);
    var ops := NewOps(addr);
    var insts: seq<Statement<Obj, BinaryOperator>> := [LoadStatic(v), StoreScope(id)];
    assert b[scope] == a[scope];
    assert Lookup(b[l].vars, id) == Propagate;
    assert Holder(b, l, id) == Holder(b, scope, id) == Some(scope);
    QueriesFollowHolder(b, l, id, NONE);
    AssignSpec(b, l, id, v);
    var c := Assign(b, l, id, v).1;
    assert c == Rebind(b, scope, id, v);
    assert c[l] == b[l];
    AssignThenGet(b, l, id, v, NONE);
    assert HasValue(c, l, id) == HasValue(c, scope, id);
    assert Get(c, l, id, NONE) == Get(c, scope, id, NONE);
    assert Run(State(b, []), insts, l, g, ops) == Run(State(b, [v]), insts[1..], l, g, ops);
    assert Run(State(b, [v]), insts[1..], l, g, ops) == Run(State(c, []), [], l, g, ops);
  }

  /** A binary operator on two stacked built-in values always fails with "cannot operate on `T`", `T` naming the left one's type. */
  lemma BinOperatorCannotOperate(a: Arena<Obj>, below: seq<Obj>, l: Obj, r: Obj, op: BinaryOperator, rest: seq<Statement<Obj, BinaryOperator>>, scope: nat, global: nat, addr: Obj -> string)
    requires Fits(a, scope, global) && !l.Custom?
    ensures Run(State(a, below + [l, r]), [BinOperator(op)] + rest, scope, global, NewOps(addr)) ==
      (a, Raise(Error("cannot operate on `" + ObjType(l).content + "`")))
  {
    BuiltinTypeText(l, addr);
    BinOperatorPopOrder(a, below, l, r, op, rest, scope, global, NewOps(addr));
  }

  /** Member access on `none` ends the run with "cannot access members of `none`". */
  lemma DotOnNone(a: Arena<Obj>, below: seq<Obj>, id: string, rest: seq<Statement<Obj, BinaryOperator>>, scope: nat, global: nat, addr: Obj -> string)
    requires Fits(a, scope, global)
    ensures Run(State(a, below + [NONE]), [Dot(id)] + rest, scope, global, NewOps(addr)) ==
      (a, Raise(Error("cannot access members of `none`")))
  {
    var s := below + [NONE];
    assert s[|s| - 1] == NONE;
  }

  /**
   * The `interpreter` test of this draft: `LoadStatic 42`, `StoreGlobal
   * "test"`, `LoadScope "test"` from a non-strict child of a non-strict
   * global scope returns the integer 42, and the child then sees "test"
   * declared with that value.
   */
  lemma InterpreterTest(addr: Obj -> string)
    ensures
      var a: Arena<Obj> := ScopeTree.NewLocal(ScopeTree.NewGlobal([], false), 0, false);
      var r := Run(State(a, []), [LoadStatic(Int(42)), StoreGlobal("test"), LoadScope("test")], 1, FindGlobalScope(a, 1), NewOps(addr));
      r.1 == Return(Int(42)) && IsDeclared(r.0, 1, "test") && Get(r.0, 1, "test", NONE) == Int(42)
  {
    var a: Arena<Obj> := ScopeTree.NewLocal(ScopeTree.NewGlobal([], false), 0, false);
    assert FindGlobalScope(a, 1) == 0;
    InterpreterScenario(Int(42), NewOps(addr));
  }
}
