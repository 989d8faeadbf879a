/**
 * `StackMachine::exec`: a single pass over a list of instructions with a
 * value stack, reading and writing variables through the value-cell scope
 * tree. Both drafts of the machine share this loop; they differ in the value
 * type, in what a binary operator and a member access do, which the `Ops`
 * record supplies, and in which scopes count as local and global.
 */
module StackMachine {
  import opened Wrappers
  import opened ScopeTree
  import opened CellScope

  datatype Statement<V, Op> =
    | LoadStatic(value: V)
    | BinOperator(op: Op)
    | LoadScope(id: string)
    | LoadGlobal(id: string)
    | StoreScope(id: string)
    | StoreGlobal(id: string)
    | Dot(id: string)
    | Index
    | Call

  /**
   * How an operation ends: with a value, by raising an error value, or in a
   * branch the program leaves unimplemented (a `todo!()`), about which
   * nothing is claimed.
   */
  datatype Outcome<V> = Return(value: V) | Raise(error: V) | Unspecified

  /** What the machine needs from the value model. */
  datatype Ops<!V, !Op> = Ops(
    binop: (V, V, Op) -> Outcome<V>,
    dot: (V, string) -> Outcome<V>,
    error: string -> V,
    none: V)

  const NotEnoughArguments := "not enough arguments for binary operator"
  const NoValueToAssign := "no value to assign"
  const NoValueToIndex := "no value to index into"
  const TooManyReturnValues := "too many return values"

  datatype State<V> = State(arena: Arena<V>, stack: seq<V>)

  datatype Next<V> = Continue(state: State<V>) | Stop(out: Outcome<V>)

  predicate Fits<V>(a: Arena<V>, scope: nat, global: nat)
  {
    WellFormed(a) && scope < |a| && global < |a|
  }

  /** One instruction. The top of the stack is its last element. */
  function Step<V, Op>(st: State<V>, inst: Statement<V, Op>, scope: nat, global: nat, ops: Ops<V, Op>): (r: Next<V>)
    requires Fits(st.arena, scope, global)
    ensures r.Continue? ==> SameShape(st.arena, r.state.arena) && Fits(r.state.arena, scope, global)
    ensures r.Stop? ==> !r.out.Return?
  {
    var s := st.stack;
    var n := |s|;
    var next: Next<V> := match inst
      case LoadStatic(v) => Continue(State(st.arena, s + [v]))
      case BinOperator(op) =>
        if n < 2 then Stop(Raise(ops.error(NotEnoughArguments)))
        else
          (match ops.binop(s[n - 2], s[n - 1], op)
           case Return(x) => Continue(State(st.arena, s[..n - 2] + [x]))
           case Raise(e) => Stop(Raise(e))
           case Unspecified => Stop(Unspecified))
      case LoadScope(id) => Continue(State(st.arena, s + [Get(st.arena, scope, id, ops.none)]))
      case LoadGlobal(id) => Continue(State(st.arena, s + [Get(st.arena, global, id, ops.none)]))
      case StoreScope(id) =>
        if n == 0 then Stop(Raise(ops.error(NoValueToAssign)))
        else Continue(State(Assign(st.arena, scope, id, s[n - 1]).1, s[..n - 1]))
      case StoreGlobal(id) =>
        if n == 0 then Stop(Raise(ops.error(NoValueToAssign)))
        else Continue(State(Assign(st.arena, global, id, s[n - 1]).1, s[..n - 1]))
      case Dot(id) =>
        if n == 0 then Stop(Raise(ops.error(NoValueToIndex)))
        else
          (match ops.dot(s[n - 1], id)
           case Return(x) => Continue(State(st.arena, s[..n - 1] + [x]))
           case Raise(e) => Stop(Raise(e))
           case Unspecified => Stop(Unspecified))
      case Index => Stop(Unspecified)
      case Call => Stop(Unspecified);
    if next.Continue? then SameShapeWellFormed(st.arena, next.state.arena); next else next
  }

  /** The stack left when the instructions run out decides the result. */
  function Finish<V, Op>(stack: seq<V>, ops: Ops<V, Op>): (r: Outcome<V>)
    ensures r.Return? <==> |stack| <= 1
    ensures |stack| == 0 ==> r == Return(ops.none)
    ensures |stack| == 1 ==> r == Return(stack[0])
    ensures |stack| > 1 ==> r == Raise(ops.error(TooManyReturnValues))
  {
    if |stack| > 1 then Raise(ops.error(TooManyReturnValues))
    else if |stack| == 1 then Return(stack[0])
    else Return(ops.none)
  }

  /**
   * The whole run from a state: the scope tree as the run leaves it (changes
   * made before an error stay) and the outcome.
   */
  function Run<V, Op>(st: State<V>, insts: seq<Statement<V, Op>>, scope: nat, global: nat, ops: Ops<V, Op>): (r: (Arena<V>, Outcome<V>))
    requires Fits(st.arena, scope, global)
    ensures SameShape(st.arena, r.0)
    decreases |insts|
  {
    if insts == [] then (st.arena, Finish(st.stack, ops))
    else
      match Step(st, insts[0], scope, global, ops)
      case Continue(next) =>
        var r := Run(next, insts[1..], scope, global, ops);
        SameShapeTransitive(st.arena, next.arena, r.0);
        r
      case Stop(o) => (st.arena, o)
  }

  lemma SameShapeTransitive<B>(a: seq<Scope<B>>, b: seq<Scope<B>>, c: seq<Scope<B>>)
    requires SameShape(a, b) && SameShape(b, c)
    ensures SameShape(a, c)
  {
  }

  /**
   * `exec` over a scope tree edited in place, `scope` being the local scope
   * and `global` the one `LoadGlobal`/`StoreGlobal` address. The result and
   * the final tree are those of `Run` from an empty stack.
   */
  method Exec<V, Op>(t: CellScopes<V>, insts: seq<Statement<V, Op>>, scope: nat, global: nat, ops: Ops<V, Op>) returns (r: Outcome<V>)
    requires t.Valid() && scope < |t.scopes| && global < |t.scopes|
    modifies t
    ensures t.Valid() && (t.scopes, r) == Run(State(old(t.scopes), []), insts, scope, global, ops)
  {
    var stack: seq<V> := [];
    var i := 0;
    while i < |insts|
      invariant 0 <= i <= |insts|
      invariant t.Valid() && Fits(t.scopes, scope, global)
      invariant Run(State(old(t.scopes), []), insts, scope, global, ops) == Run(State(t.scopes, stack), insts[i..], scope, global, ops)
      decreases |insts| - i
    {
      var st := State(t.scopes, stack);
      assert insts[i..][0] == insts[i] && insts[i..][1..] == insts[i + 1..];
      var n := |stack|;
      match insts[i] {
      case LoadStatic(v) =>
        stack := stack + [v];
      case BinOperator(op) =>
        if n < 2 {
          return Raise(ops.error(NotEnoughArguments));
        }
        var right := stack[n - 1];
        var left := stack[n - 2];
        stack := stack[..n - 2];
        var o := ops.binop(left, right, op);
        if !o.Return? {
          return o;
        }
        stack := stack + [o.value];
      case LoadScope(id) =>
        stack := stack + [Get(t.scopes, scope, id, ops.none)];
      case LoadGlobal(id) =>
        stack := stack + [Get(t.scopes, global, id, ops.none)];
      case StoreScope(id) =>
        if n == 0 {
          return Raise(ops.error(NoValueToAssign));
        }
        var v := stack[n - 1];
        stack := stack[..n - 1];
        var accepted := t.Set(scope, id, v);
      case StoreGlobal(id) =>
        if n == 0 {
          return Raise(ops.error(NoValueToAssign));
        }
        var v := stack[n - 1];
        stack := stack[..n - 1];
        var accepted := t.Set(global, id, v);
      case Dot(id) =>
        if n == 0 {
          return Raise(ops.error(NoValueToIndex));
        }
        var o := ops.dot(stack[n - 1], id);
        if !o.Return? {
          return o;
        }
        stack := stack[..n - 1] + [o.value];
      case Index =>
        return Unspecified;
      case Call =>
        return Unspecified;
      }
      assert Step(st, insts[i], scope, global, ops) == Continue(State(t.scopes, stack));
      i := i + 1;
    }
    if |stack| > 1 {
      return Raise(ops.error(TooManyReturnValues));
    }
    r := if |stack| == 1 then Return(stack[0]) else Return(ops.none);
  }

  /** A binary operator takes the right operand from the top of the stack, then the left one below it, and pushes `left op right`. */
  lemma BinOperatorPopOrder<V, Op>(a: Arena<V>, below: seq<V>, left: V, right: V, op: Op, rest: seq<Statement<V, Op>>, scope: nat, global: nat, ops: Ops<V, Op>)
    requires Fits(a, scope, global)
    ensures Run(State(a, below + [left, right]), [BinOperator(op)] + rest, scope, global, ops) ==
      var o := ops.binop(left, right, op);
      if o.Return? then Run(State(a, below + [o.value]), rest, scope, global, ops) else (a, o)
  {
    var s := below + [left, right];
    assert s[|s| - 2] == left && s[|s| - 1] == right && s[..|s| - 2] == below;
    assert ([BinOperator(op)] + rest)[1..] == rest;
  }

  /** With fewer than two values stacked, a binary operator ends the run with its error and changes nothing more. */
  lemma BinOperatorUnderflow<V, Op>(a: Arena<V>, stack: seq<V>, op: Op, rest: seq<Statement<V, Op>>, scope: nat, global: nat, ops: Ops<V, Op>)
    requires Fits(a, scope, global) && |stack| < 2
    ensures Run(State(a, stack), [BinOperator(op)] + rest, scope, global, ops) == (a, Raise(ops.error(NotEnoughArguments)))
  {
  }

  /**
   * A store pops the top value and assigns it through `set`, whose verdict is
   * ignored: under strict assignment an undeclared name is not assigned, yet
   * the run goes on with the value consumed.
   */
  lemma StoreIgnoresRejection<V, Op>(a: Arena<V>, below: seq<V>, v: V, id: string, rest: seq<Statement<V, Op>>, scope: nat, global: nat, ops: Ops<V, Op>)
    requires Fits(a, scope, global)
    ensures Fits(Assign(a, scope, id, v).1, scope, global)
    ensures Run(State(a, below + [v]), [StoreScope(id)] + rest, scope, global, ops) ==
      Run(State(Assign(a, scope, id, v).1, below), rest, scope, global, ops)
    ensures !IsDeclared(a, scope, id) && a[scope].strictAssign ==>
      Run(State(a, below + [v]), [StoreScope(id)] + rest, scope, global, ops) == Run(State(a, below), rest, scope, global, ops)
  {
    SameShapeWellFormed(a, Assign(a, scope, id, v).1);
    var s := below + [v];
    assert s[|s| - 1] == v && s[..|s| - 1] == below;
    assert ([StoreScope(id)] + rest)[1..] == rest;
    AssignSpec(a, scope, id, v);
  }

  /** Storing from an empty stack, to the local or the global scope, fails with "no value to assign". */
  lemma StoreOnEmptyStack<V, Op>(a: Arena<V>, id: string, rest: seq<Statement<V, Op>>, scope: nat, global: nat, ops: Ops<V, Op>)
    requires Fits(a, scope, global)
    ensures Run(State(a, []), [StoreScope(id)] + rest, scope, global, ops) == (a, Raise(ops.error(NoValueToAssign)))
    ensures Run(State(a, []), [StoreGlobal(id)] + rest, scope, global, ops) == (a, Raise(ops.error(NoValueToAssign)))
    ensures Run(State(a, []), [Dot(id)] + rest, scope, global, ops) == (a, Raise(ops.error(NoValueToIndex)))
  {
  }

  predicate IsLoad<V, Op>(inst: Statement<V, Op>)
  {
    inst.LoadStatic? || inst.LoadScope? || inst.LoadGlobal?
  }

  /** The value a load pushes, read from an unchanged tree. */
  function Loaded<V, Op>(a: Arena<V>, inst: Statement<V, Op>, scope: nat, global: nat, ops: Ops<V, Op>): V
    requires Fits(a, scope, global) && IsLoad(inst)
  {
    match inst
    case LoadStatic(v) => v
    case LoadScope(id) => Get(a, scope, id, ops.none)
    case LoadGlobal(id) => Get(a, global, id, ops.none)
  }

  /** A run of loads leaves the tree alone and ends with every loaded value on the stack, in order. */
  lemma {:induction false} LoadsReachFinish<V, Op>(a: Arena<V>, stack: seq<V>, insts: seq<Statement<V, Op>>, scope: nat, global: nat, ops: Ops<V, Op>)
    requires Fits(a, scope, global) && forall i | 0 <= i < |insts| :: IsLoad(insts[i])
    ensures Run(State(a, stack), insts, scope, global, ops) ==
      (a, Finish(stack + seq(|insts|, i requires 0 <= i < |insts| => Loaded(a, insts[i], scope, global, ops)), ops))
    decreases |insts|
  {
    var all := seq(|insts|, i requires 0 <= i < |insts| => Loaded(a, insts[i], scope, global, ops));
    if insts != [] {
      var v := Loaded(a, insts[0], scope, global, ops);
      var tail := insts[1..];
      LoadsReachFinish(a, stack + [v], tail, scope, global, ops);
      var more := seq(|tail|, i requires 0 <= i < |tail| => Loaded(a, tail[i], scope, global, ops));
      assert all == [v] + more;
      assert stack + [v] + more == stack + all;
    }
  }

  /**
   * The termination rule: a program that only loads returns `none` when it
   * loads nothing, the loaded value when it loads one, and fails with "too
   * many return values" when it loads more.
   */
  lemma TerminationRule<V, Op>(a: Arena<V>, insts: seq<Statement<V, Op>>, scope: nat, global: nat, ops: Ops<V, Op>)
    requires Fits(a, scope, global) && forall i | 0 <= i < |insts| :: IsLoad(insts[i])
    ensures |insts| == 0 ==> Run(State(a, []), insts, scope, global, ops) == (a, Return(ops.none))
    ensures |insts| == 1 ==> Run(State(a, []), insts, scope, global, ops) == (a, Return(Loaded(a, insts[0], scope, global, ops)))
    ensures |insts| > 1 ==> Run(State(a, []), insts, scope, global, ops) == (a, Raise(ops.error(TooManyReturnValues)))
  {
    LoadsReachFinish(a, [], insts, scope, global, ops);
  }

  /**
   * The `interpreter` test of both drafts, for any stored value: in a
   * non-strict global scope with one non-strict child, `LoadStatic v`,
   * `StoreGlobal "test"`, `LoadScope "test"` run from the child returns `v`,
   * declares "test" in the global scope only, and leaves it visible from the
   * child with value `v`.
   */
  lemma InterpreterScenario<V, Op>(v: V, ops: Ops<V, Op>)
    ensures
      var a := ScopeTree.NewLocal(ScopeTree.NewGlobal([], false), 0, false);
      var r := Run(State(a, []), [LoadStatic(v), StoreGlobal("test"), LoadScope("test")], 1, 0, ops);
      WellFormed(r.0) && r.1 == Return(v) &&
      IsDeclared(r.0, 1, "test") && Get(r.0, 1, "test", ops.none) == v &&
      "test" in r.0[0].vars && "test" !in r.0[1].vars
  {
    var a := ScopeTree.NewLocal(ScopeTree.NewGlobal([], false), 0, false);
    var insts: seq<Statement<V, Op>> := [LoadStatic(v), StoreGlobal("test"), LoadScope("test")];
    assert Lookup(a[0].vars, "test") == Propagate;
    assert !IsDeclared(a, 0, "test");
    AssignSpec(a, 0, "test", v);
    var b := Assign(a, 0, "test", v).1;
    SameShapeWellFormed(a, b);
    assert b == WithVars(a, 0, a[0].vars["test" := Entry(LocalValue(v), None)]);
    assert Lookup(b[1].vars, "test") == Propagate;
    assert Get(b, 1, "test", ops.none) == v;
    assert Run(State(a, []), insts, 1, 0, ops) == Run(State(a, [v]), insts[1..], 1, 0, ops);
    assert Run(State(a, [v]), insts[1..], 1, 0, ops) == Run(State(b, []), insts[2..], 1, 0, ops);
    assert Run(State(b, []), insts[2..], 1, 0, ops) == Run(State(b, [v]), [], 1, 0, ops);
  }
}
