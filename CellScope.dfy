/**
 * The value-cell `VarScope` of the two stack-machine drafts: each scope binds
 * a name to a reference kind (declared and unassigned, assigned a value,
 * deferring to the global scope, or unbound) together with an optional type
 * hint. Both drafts implement it identically; only the value type differs,
 * so the model is generic in the value type `V`.
 */
module CellScope {
  import opened Wrappers
  import opened ScopeTree

  /** `ScopeReference`. */
  datatype Ref<V> = Local | LocalValue(value: V) | Global | Propagate

  /** A binding: the reference kind and the declared type hint. */
  datatype Entry<V> = Entry(ref: Ref<V>, hint: Option<V>)

  type Arena<V> = seq<Scope<Entry<V>>>

  /** A missing key behaves exactly like an explicit `Propagate`. */
  function Lookup<V>(vars: map<string, Entry<V>>, id: string): Ref<V>
  {
    if id in vars then vars[id].ref else Propagate
  }

  predicate Declares<V>(r: Ref<V>)
  {
    r.Local? || r.LocalValue?
  }

  /** `get_behavior`: `Local` for a local declaration, assigned or not; never `LocalValue`. */
  function GetBehavior<V>(vars: map<string, Entry<V>>, id: string): (r: Ref<V>)
    ensures !r.LocalValue?
    ensures r == Local <==> Declares(Lookup(vars, id))
    ensures r == Global <==> Lookup(vars, id).Global?
  {
    match Lookup(vars, id)
    case LocalValue(_) => Local
    case Local => Local
    case Global => Global
    case Propagate => Propagate
  }

  /** `get`: the bound value, or `none` for an unassigned declaration and for a name nobody binds. */
  function Get<V>(a: Arena<V>, s: nat, id: string, none: V): V
    requires WellFormed(a) && s < |a|
    decreases s
  {
    assert ScopeOk(a, s);
    GlobalBelow(a, s);
    match Lookup(a[s].vars, id)
    case LocalValue(v) => v
    case Local => none
    case Global => if a[s].global.None? then none else Get(a, a[s].global.value, id, none)
    case Propagate => if a[s].parent.None? then none else Get(a, a[s].parent.value, id, none)
  }

  /** `is_declared`. */
  function IsDeclared<V>(a: Arena<V>, s: nat, id: string): bool
    requires WellFormed(a) && s < |a|
    decreases s
  {
    assert ScopeOk(a, s);
    GlobalBelow(a, s);
    match Lookup(a[s].vars, id)
    case LocalValue(_) => true
    case Local => true
    case Global => if a[s].global.None? then false else IsDeclared(a, a[s].global.value, id)
    case Propagate => if a[s].parent.None? then false else IsDeclared(a, a[s].parent.value, id)
  }

  /** `has_value`. */
  function HasValue<V>(a: Arena<V>, s: nat, id: string): bool
    requires WellFormed(a) && s < |a|
    decreases s
  {
    assert ScopeOk(a, s);
    GlobalBelow(a, s);
    match Lookup(a[s].vars, id)
    case LocalValue(_) => true
    case Local => false
    case Global => if a[s].global.None? then false else HasValue(a, a[s].global.value, id)
    case Propagate => if a[s].parent.None? then false else HasValue(a, a[s].parent.value, id)
  }

  /**
   * `get_type_hint`: a local declaration's own hint; for a `Global` deferral
   * the local hint if present, else the root's; an unbound name asks the parent.
   */
  function GetTypeHint<V>(a: Arena<V>, s: nat, id: string): Option<V>
    requires WellFormed(a) && s < |a|
    decreases s
  {
    assert ScopeOk(a, s);
    GlobalBelow(a, s);
    match Lookup(a[s].vars, id)
    case LocalValue(_) => a[s].vars[id].hint
    case Local => a[s].vars[id].hint
    case Global =>
      if a[s].vars[id].hint.Some? then a[s].vars[id].hint
      else if a[s].global.None? then None
      else GetTypeHint(a, a[s].global.value, id)
    case Propagate => if a[s].parent.None? then None else GetTypeHint(a, a[s].parent.value, id)
  }

  /**
   * The scope whose local declaration a lookup of `id` from `s` ends at, if
   * the lookup ends at one: the single notion the four queries above share.
   */
  function Holder<V>(a: Arena<V>, s: nat, id: string): (r: Option<nat>)
    requires WellFormed(a) && s < |a|
    ensures r.Some? ==> r.value <= s && id in a[r.value].vars && Declares(a[r.value].vars[id].ref)
    decreases s
  {
    assert ScopeOk(a, s);
    GlobalBelow(a, s);
    match Lookup(a[s].vars, id)
    case LocalValue(_) => Some(s)
    case Local => Some(s)
    case Global => if a[s].global.None? then None else Holder(a, a[s].global.value, id)
    case Propagate => if a[s].parent.None? then None else Holder(a, a[s].parent.value, id)
  }

  /**
   * The queries agree with the holder: a name is declared iff a lookup ends
   * at a declaration, has a value iff that declaration is assigned, and `get`
   * returns the assigned value and `none` otherwise. In particular `has_value`
   * implies `is_declared`, and an unassigned local declaration has no value.
   */
  lemma {:induction false} QueriesFollowHolder<V>(a: Arena<V>, s: nat, id: string, none: V)
    requires WellFormed(a) && s < |a|
    ensures IsDeclared(a, s, id) <==> Holder(a, s, id).Some?
    ensures HasValue(a, s, id) <==> Holder(a, s, id).Some? && a[Holder(a, s, id).value].vars[id].ref.LocalValue?
    ensures Get(a, s, id, none) ==
      if HasValue(a, s, id) then a[Holder(a, s, id).value].vars[id].ref.value else none
    ensures HasValue(a, s, id) ==> IsDeclared(a, s, id)
    ensures Lookup(a[s].vars, id) == Local ==> !HasValue(a, s, id) && IsDeclared(a, s, id)
    decreases s
  {
    assert ScopeOk(a, s);
    GlobalBelow(a, s);
    match Lookup(a[s].vars, id)
    case LocalValue(_) =>
    case Local =>
    case Global => if a[s].global.Some? { QueriesFollowHolder(a, a[s].global.value, id, none); }
    case Propagate => if a[s].parent.Some? { QueriesFollowHolder(a, a[s].parent.value, id, none); }
  }

  /** The arena with the declaration of `id` in scope `h` assigned `v`, its type hint kept. */
  function Rebind<V>(a: Arena<V>, h: nat, id: string, v: V): (r: Arena<V>)
    requires h < |a| && id in a[h].vars
    ensures SameShape(a, r)
  {
    WithVars(a, h, a[h].vars[id := Entry(LocalValue(v), a[h].vars[id].hint)])
  }

  /** `set` as a value: whether the assignment was accepted, and the new arena. */
  function Assign<V>(a: Arena<V>, s: nat, id: string, v: V): (r: (bool, Arena<V>))
    requires WellFormed(a) && s < |a|
    ensures SameShape(a, r.1)
    decreases s
  {
    assert ScopeOk(a, s);
    GlobalBelow(a, s);
    if IsDeclared(a, s, id) then
      match Lookup(a[s].vars, id)
      case Local => (true, Rebind(a, s, id, v))
      case LocalValue(_) => (true, Rebind(a, s, id, v))
      case Global => Assign(a, a[s].global.value, id, v)
      case Propagate => Assign(a, a[s].parent.value, id, v)
    else if a[s].strictAssign then (false, a)
    else (true, WithVars(a, s, a[s].vars[id := Entry(LocalValue(v), None)]))
  }

  /**
   * `set`: a name declared anywhere on its lookup path is assigned where it
   * is declared, keeping that declaration's type hint; an undeclared name is
   * rejected under strict assignment with nothing changed, and otherwise
   * declared locally, assigned and without a hint.
   */
  lemma {:induction false} AssignSpec<V>(a: Arena<V>, s: nat, id: string, v: V)
    requires WellFormed(a) && s < |a|
    ensures IsDeclared(a, s, id) ==> Holder(a, s, id).Some? && Assign(a, s, id, v) == (true, Rebind(a, Holder(a, s, id).value, id, v))
    ensures !IsDeclared(a, s, id) && a[s].strictAssign ==> Assign(a, s, id, v) == (false, a)
    ensures !IsDeclared(a, s, id) && !a[s].strictAssign ==>
      Assign(a, s, id, v) == (true, WithVars(a, s, a[s].vars[id := Entry(LocalValue(v), None)]))
    ensures !Assign(a, s, id, v).0 <==> !IsDeclared(a, s, id) && a[s].strictAssign
    decreases s
  {
    assert ScopeOk(a, s);
    GlobalBelow(a, s);
    QueriesFollowHolder(a, s, id, v);
    if IsDeclared(a, s, id) {
      match Lookup(a[s].vars, id)
      case Local =>
      case LocalValue(_) =>
      case Global => AssignSpec(a, a[s].global.value, id, v);
      case Propagate => AssignSpec(a, a[s].parent.value, id, v);
    }
  }

  /** Rebinding the holder keeps every lookup of that name ending at the same holder, with the same hint. */
  lemma {:induction false} HolderAfterRebind<V>(a: Arena<V>, s: nat, id: string, v: V)
    requires WellFormed(a) && s < |a| && Holder(a, s, id).Some?
    ensures WellFormed(Rebind(a, Holder(a, s, id).value, id, v))
    ensures Holder(Rebind(a, Holder(a, s, id).value, id, v), s, id) == Holder(a, s, id)
    ensures GetTypeHint(Rebind(a, Holder(a, s, id).value, id, v), s, id) == GetTypeHint(a, s, id)
    decreases s
  {
    var h := Holder(a, s, id).value;
    var b := Rebind(a, h, id, v);
    SameShapeWellFormed(a, b);
    assert ScopeOk(a, s);
    GlobalBelow(a, s);
    if s != h {
      assert b[s] == a[s];
      match Lookup(a[s].vars, id)
      case Global => HolderAfterRebind(a, a[s].global.value, id, v);
      case Propagate => HolderAfterRebind(a, a[s].parent.value, id, v);
    }
  }

  /** After an accepted `set`, the name is declared, holds the value, and its type hint is as before (none if it was just declared). */
  lemma AssignThenGet<V>(a: Arena<V>, s: nat, id: string, v: V, none: V)
    requires WellFormed(a) && s < |a| && Assign(a, s, id, v).0
    ensures WellFormed(Assign(a, s, id, v).1)
    ensures IsDeclared(Assign(a, s, id, v).1, s, id) && HasValue(Assign(a, s, id, v).1, s, id)
    ensures Get(Assign(a, s, id, v).1, s, id, none) == v
    ensures GetTypeHint(Assign(a, s, id, v).1, s, id) == if IsDeclared(a, s, id) then GetTypeHint(a, s, id) else None
  {
    AssignSpec(a, s, id, v);
    var b := Assign(a, s, id, v).1;
    SameShapeWellFormed(a, b);
    if IsDeclared(a, s, id) {
      HolderAfterRebind(a, s, id, v);
    }
    QueriesFollowHolder(b, s, id, none);
  }

  /** Two arenas of one shape binding `k` identically everywhere. */
  ghost predicate AgreeOn<V>(a: Arena<V>, b: Arena<V>, k: string)
  {
    |a| == |b| && forall i | 0 <= i < |a| :: Lookup(a[i].vars, k) == Lookup(b[i].vars, k) && (k in a[i].vars <==> k in b[i].vars) && (k in a[i].vars ==> a[i].vars[k] == b[i].vars[k])
  }

  lemma {:induction false} QueriesAgree<V>(a: Arena<V>, b: Arena<V>, s: nat, k: string, none: V)
    requires WellFormed(a) && SameShape(a, b) && AgreeOn(a, b, k) && s < |a|
    ensures WellFormed(b)
    ensures Get(a, s, k, none) == Get(b, s, k, none) && IsDeclared(a, s, k) == IsDeclared(b, s, k)
    ensures HasValue(a, s, k) == HasValue(b, s, k) && GetTypeHint(a, s, k) == GetTypeHint(b, s, k)
    decreases s
  {
    SameShapeWellFormed(a, b);
    assert ScopeOk(a, s);
    GlobalBelow(a, s);
    if a[s].parent.Some? { QueriesAgree(a, b, a[s].parent.value, k, none); }
    if a[s].global.Some? { QueriesAgree(a, b, a[s].global.value, k, none); }
  }

  /** `set(id, ·)` leaves every query about every other name unchanged, from every scope. */
  lemma AssignOtherNames<V>(a: Arena<V>, s: nat, id: string, v: V, t: nat, k: string, none: V)
    requires WellFormed(a) && s < |a| && t < |a| && k != id
    ensures WellFormed(Assign(a, s, id, v).1)
    ensures Get(Assign(a, s, id, v).1, t, k, none) == Get(a, t, k, none)
    ensures IsDeclared(Assign(a, s, id, v).1, t, k) == IsDeclared(a, t, k)
    ensures HasValue(Assign(a, s, id, v).1, t, k) == HasValue(a, t, k)
    ensures GetTypeHint(Assign(a, s, id, v).1, t, k) == GetTypeHint(a, t, k)
  {
    AssignSpec(a, s, id, v);
    QueriesAgree(a, Assign(a, s, id, v).1, t, k, none);
  }

  /** A `Global` deferral below the root prefers its own hint and falls back to the root's. */
  lemma GlobalHintFallback<V>(a: Arena<V>, s: nat, id: string)
    requires WellFormed(a) && s < |a| && Lookup(a[s].vars, id).Global? && a[s].parent.Some?
    ensures GetTypeHint(a, s, id) ==
      if a[s].vars[id].hint.Some? then a[s].vars[id].hint else GetTypeHint(a, Root(a, s), id)
  {
    assert ScopeOk(a, s);
    FindGlobalIsRoot(a, s);
  }

  /** `declare`: `Propagate` removes the key; any other kind is stored with the given hint; no other key changes. */
  function DeclareEntry<V>(vars: map<string, Entry<V>>, id: string, r: Ref<V>, hint: Option<V>): (m: map<string, Entry<V>>)
    ensures r.Propagate? ==> id !in m
    ensures !r.Propagate? ==> id in m && m[id] == Entry(r, hint)
    ensures forall k | k != id :: (k in m <==> k in vars) && (k in m ==> m[k] == vars[k])
  {
    if r.Propagate? then vars - {id} else vars[id := Entry(r, hint)]
  }

  /**
   * The `create_scopes` test of both drafts: in a chain global, scope1,
   * scope2, a declaration in scope1 is visible from scope2 (as `none`) but
   * not from the global scope.
   */
  lemma CreateScopesScenario<V>(none: V)
    ensures
      var g := ScopeTree.NewGlobal([], false);
      var s1 := ScopeTree.NewLocal(g, 0, false);
      var s2 := ScopeTree.NewLocal(s1, 1, false);
      var after := WithVars(s2, 1, DeclareEntry(s2[1].vars, "test", LocalValue(none), None));
      WellFormed(s2) && WellFormed(after) &&
      !IsDeclared(s2, 2, "test") &&
      IsDeclared(after, 2, "test") && Get(after, 2, "test", none) == none &&
      !IsDeclared(after, 0, "test")
  {
    var g := ScopeTree.NewGlobal([], false);
    var s1 := ScopeTree.NewLocal(g, 0, false);
    var s2 := ScopeTree.NewLocal(s1, 1, false);
    var after := WithVars(s2, 1, DeclareEntry(s2[1].vars, "test", LocalValue(none), None));
    SameShapeWellFormed(s2, after);
    assert Lookup(s2[2].vars, "test") == Propagate;
    assert Lookup(after[2].vars, "test") == Propagate;
    assert Lookup(after[1].vars, "test") == LocalValue(none);
  }

  /** The value-cell scope tree, edited in place by `set` and `declare`. */
  class CellScopes<V> {
    var scopes: Arena<V>

    ghost predicate Valid()
      reads this
    {
      WellFormed(scopes)
    }

    constructor ()
      ensures Valid() && scopes == []
    {
      scopes := [];
    }

    /** `new_global`. */
    method NewGlobal(strictAssign: bool) returns (s: nat)
      requires Valid()
      modifies this
      ensures Valid() && s == |old(scopes)| && scopes == ScopeTree.NewGlobal(old(scopes), strictAssign)
    {
      s := |scopes|;
      scopes := ScopeTree.NewGlobal(scopes, strictAssign);
    }

    /** `new_local`. */
    method NewLocal(parent: nat, strictAssign: bool) returns (s: nat)
      requires Valid() && parent < |scopes|
      modifies this
      ensures Valid() && s == |old(scopes)| && scopes == ScopeTree.NewLocal(old(scopes), parent, strictAssign)
    {
      s := |scopes|;
      scopes := ScopeTree.NewLocal(scopes, parent, strictAssign);
    }

    /** `declare(id, r, hint)` in scope `s`. */
    method Declare(s: nat, id: string, r: Ref<V>, hint: Option<V>)
      requires Valid() && s < |scopes|
      modifies this
      ensures Valid() && scopes == WithVars(old(scopes), s, DeclareEntry(old(scopes)[s].vars, id, r, hint))
    {
      scopes := WithVars(scopes, s, DeclareEntry(scopes[s].vars, id, r, hint));
      SameShapeWellFormed(old(scopes), scopes);
    }

    /**
     * `set(id, v)` from scope `s`, forwarding to the global or parent scope
     * that holds the declaration; see `AssignSpec` for what it achieves.
     */
    method Set(s: nat, id: string, v: V) returns (ok: bool)
      requires Valid() && s < |scopes|
      modifies this
      ensures Valid() && (ok, scopes) == Assign(old(scopes), s, id, v)
      decreases s
    {
      assert ScopeOk(scopes, s);
      GlobalBelow(scopes, s);
      if IsDeclared(scopes, s, id) {
        match Lookup(scopes[s].vars, id)
        case Local =>
          scopes := Rebind(scopes, s, id, v);
          ok := true;
        case LocalValue(_) =>
          scopes := Rebind(scopes, s, id, v);
          ok := true;
        case Global =>
          ok := Set(scopes[s].global.value, id, v);
          return;
        case Propagate =>
          ok := Set(scopes[s].parent.value, id, v);
          return;
      } else if scopes[s].strictAssign {
        return false;
      } else {
        Declare(s, id, LocalValue(v), None);
        ok := true;
      }
      SameShapeWellFormed(old(scopes), scopes);
    }
  }
}
