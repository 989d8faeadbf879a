/**
 * The shape shared by every draft of `VarScope`: a tree of scopes, each with a
 * `parent` (absent only at the root), a `global` shortcut to the root (absent
 * only at the root itself), a binding map and a `strict_assign` flag.
 *
 * The reference-counted scopes of the source are kept in an arena: a sequence
 * of records addressed by index. `new_local` appends a record whose parent is
 * an existing scope, so a parent index is always smaller than its child's, and
 * no record ever changes its parent or global index afterwards.
 */
module ScopeTree {
  import opened Wrappers

  datatype Scope<B> = Scope(parent: Option<nat>, global: Option<nat>, vars: map<string, B>, strictAssign: bool)

  /** `find_global_scope`: the scope's global shortcut, or the scope itself when it has none. */
  function FindGlobalScope<B>(a: seq<Scope<B>>, s: nat): nat
    requires s < |a|
  {
    if a[s].global.Some? then a[s].global.value else s
  }

  /** A record is as `new_global` or `new_local` builds it. */
  predicate ScopeOk<B>(a: seq<Scope<B>>, i: nat)
    requires i < |a|
  {
    match a[i].parent
    case None => a[i].global.None?
    case Some(p) => p < i && a[i].global == Some(FindGlobalScope(a, p))
  }

  predicate WellFormed<B>(a: seq<Scope<B>>)
  {
    forall i | 0 <= i < |a| :: ScopeOk(a, i)
  }

  /** The root reached by following parents: an independent description of the global scope. */
  function Root<B>(a: seq<Scope<B>>, s: nat): (r: nat)
    requires WellFormed(a) && s < |a|
    ensures r <= s && a[r].parent.None? && a[r].global.None?
  {
    assert ScopeOk(a, s);
    match a[s].parent
    case None => s
    case Some(p) => Root(a, p)
  }

  /** The global shortcut of every scope is the root of its parent chain. */
  lemma {:induction false} FindGlobalIsRoot<B>(a: seq<Scope<B>>, s: nat)
    requires WellFormed(a) && s < |a|
    ensures FindGlobalScope(a, s) == Root(a, s)
  {
    assert ScopeOk(a, s);
    match a[s].parent
    case None =>
    case Some(p) => FindGlobalIsRoot(a, p);
  }

  lemma GlobalBelow<B>(a: seq<Scope<B>>, s: nat)
    requires WellFormed(a) && s < |a|
    ensures FindGlobalScope(a, s) <= s
    ensures a[s].global.Some? ==> a[s].global.value < s
  {
    FindGlobalIsRoot(a, s);
    assert ScopeOk(a, s);
  }

  /** `new_global`: a root scope with no bindings. */
  function NewGlobal<B>(a: seq<Scope<B>>, strictAssign: bool): (r: seq<Scope<B>>)
    requires WellFormed(a)
    ensures WellFormed(r) && |r| == |a| + 1 && r[..|a|] == a
    ensures r[|a|] == Scope(None, None, map[], strictAssign)
  {
    var r := a + [Scope(None, None, map[], strictAssign)];
    assert forall i | 0 <= i < |a| :: ScopeOk(r, i) by {
      forall i | 0 <= i < |a| ensures ScopeOk(r, i) { assert ScopeOk(a, i); }
    }
    assert ScopeOk(r, |a|);
    r
  }

  /**
   * `new_local(parent, strict_assign)`: a child of an existing scope with no
   * bindings; its global shortcut is taken once from the parent, and no
   * existing record changes.
   */
  function NewLocal<B>(a: seq<Scope<B>>, parent: nat, strictAssign: bool): (r: seq<Scope<B>>)
    requires WellFormed(a) && parent < |a|
    ensures WellFormed(r) && |r| == |a| + 1 && r[..|a|] == a
    ensures r[|a|] == Scope(Some(parent), Some(Root(a, parent)), map[], strictAssign)
    ensures Root(r, |a|) == Root(a, parent)
  {
    FindGlobalIsRoot(a, parent);
    var r := a + [Scope(Some(parent), Some(FindGlobalScope(a, parent)), map[], strictAssign)];
    assert forall i | 0 <= i < |a| :: ScopeOk(r, i) by {
      forall i | 0 <= i < |a| ensures ScopeOk(r, i) { assert ScopeOk(a, i); }
    }
    assert ScopeOk(r, |a|);
    RootOfPrefix(a, r, parent);
    r
  }

  /** Two arenas with the same parents, globals and flags, whatever their bindings. */
  predicate SameShape<B>(a: seq<Scope<B>>, b: seq<Scope<B>>)
  {
    |a| == |b| &&
    forall i | 0 <= i < |a| ::
      a[i].parent == b[i].parent && a[i].global == b[i].global && a[i].strictAssign == b[i].strictAssign
  }

  /** Rebinding names never changes the tree: well-formedness and roots depend on the shape only. */
  lemma {:induction false} SameShapeRoot<B>(a: seq<Scope<B>>, b: seq<Scope<B>>, s: nat)
    requires WellFormed(a) && SameShape(a, b) && s < |a|
    ensures WellFormed(b) && Root(b, s) == Root(a, s)
  {
    SameShapeWellFormed(a, b);
    assert ScopeOk(a, s);
    match a[s].parent
    case None =>
    case Some(p) => SameShapeRoot(a, b, p);
  }

  lemma SameShapeWellFormed<B>(a: seq<Scope<B>>, b: seq<Scope<B>>)
    requires WellFormed(a) && SameShape(a, b)
    ensures WellFormed(b)
  {
    forall i | 0 <= i < |b| ensures ScopeOk(b, i) {
      assert ScopeOk(a, i);
    }
  }

  lemma {:induction false} RootOfPrefix<B>(a: seq<Scope<B>>, r: seq<Scope<B>>, s: nat)
    requires WellFormed(a) && WellFormed(r) && |a| <= |r| && r[..|a|] == a && s < |a|
    ensures Root(r, s) == Root(a, s)
  {
    assert r[s] == a[s];
    assert ScopeOk(a, s);
    match a[s].parent
    case None =>
    case Some(p) => RootOfPrefix(a, r, p);
  }

  /** The record `s` with its binding map replaced. */
  function WithVars<B>(a: seq<Scope<B>>, s: nat, vars: map<string, B>): (r: seq<Scope<B>>)
    requires s < |a|
    ensures SameShape(a, r) && r[s].vars == vars
    ensures forall i | 0 <= i < |a| && i != s :: r[i] == a[i]
  {
    a[s := a[s].(vars := vars)]
  }
}
