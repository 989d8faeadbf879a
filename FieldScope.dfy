/**
 * The field-descriptor `VarScope`: each scope binds a name to a shared
 * `VariableField`, to an explicit deferral to the global scope, or to nothing.
 * Lookup walks the tree: a local field wins, `Global` asks the root, an
 * unbound name asks the parent. The two drafts of this scope are identical.
 */
module FieldScope {
  import opened Wrappers
  import opened ScopeTree
  import opened Fields

  /**
   * `VarScopeRefType`. `Local` is only ever a request to `declare`: the
   * binding maps never hold it.
   */
  datatype Binding<F> = LocalValue(field: F) | Local | Global | Propagate

  type Arena<F> = seq<Scope<Binding<F>>>

  predicate NoLocalMarker<F>(a: Arena<F>)
  {
    forall i, id | 0 <= i < |a| && id in a[i].vars :: a[i].vars[id] != Local
  }

  predicate Good<F>(a: Arena<F>)
  {
    WellFormed(a) && NoLocalMarker(a)
  }

  /** `get`: the field a name resolves to from scope `s`, if any. */
  function Get<F>(a: Arena<F>, s: nat, id: string): (r: Option<F>)
    requires Good(a) && s < |a|
    decreases s
  {
    assert ScopeOk(a, s);
    GlobalBelow(a, s);
    if id !in a[s].vars || a[s].vars[id] == Propagate then
      (match a[s].parent
       case None => None
       case Some(p) => Get(a, p, id))
    else match a[s].vars[id]
      case LocalValue(f) => Some(f)
      case Global =>
        (match a[s].global
         case None => None
         case Some(g) => Get(a, g, id))
  }

  /** `get_behavior`: how a name is found from this scope, never `LocalValue`. */
  function GetBehavior<F>(vars: map<string, Binding<F>>, id: string): (r: Binding<F>)
    ensures !r.LocalValue?
    ensures r == Local <==> id in vars && (vars[id].LocalValue? || vars[id] == Local)
    ensures r == Propagate <==> id !in vars || vars[id] == Propagate
  {
    if id !in vars then Propagate
    else match vars[id]
      case LocalValue(_) => Local
      case Local => Local
      case Global => Global
      case Propagate => Propagate
  }

  /** `j` lies on the parent chain of `s` (`s` included). */
  predicate Ancestor<F>(a: Arena<F>, j: nat, s: nat)
    requires WellFormed(a) && s < |a|
    decreases s
  {
    assert ScopeOk(a, s);
    j == s || (a[s].parent.Some? && Ancestor(a, j, a[s].parent.value))
  }

  lemma {:induction false} RootIsAncestor<F>(a: Arena<F>, s: nat)
    requires WellFormed(a) && s < |a|
    ensures Ancestor(a, Root(a, s), s)
    decreases s
  {
    assert ScopeOk(a, s);
    if a[s].parent.Some? { RootIsAncestor(a, a[s].parent.value); }
  }

  lemma {:induction false} AncestorTransitive<F>(a: Arena<F>, i: nat, j: nat, s: nat)
    requires WellFormed(a) && s < |a| && j < |a| && Ancestor(a, j, s) && Ancestor(a, i, j)
    ensures Ancestor(a, i, s)
    decreases s
  {
    assert ScopeOk(a, s);
    if j != s { AncestorTransitive(a, i, j, a[s].parent.value); }
  }

  /**
   * The three lookup rules, with the global shortcut replaced by the root of
   * the parent chain: a locally bound field is returned, `Global` gives the
   * root's lookup (absent at the root itself), an unbound name gives the
   * parent's lookup (absent at the root).
   */
  lemma GetFollowsBehavior<F>(a: Arena<F>, s: nat, id: string)
    requires Good(a) && s < |a|
    ensures a[s].parent.Some? ==> a[s].parent.value < s
    ensures GetBehavior(a[s].vars, id) == Local ==> Get(a, s, id) == Some(a[s].vars[id].field)
    ensures GetBehavior(a[s].vars, id) == Global ==>
      Get(a, s, id) == if a[s].parent.None? then None else Get(a, Root(a, s), id)
    ensures GetBehavior(a[s].vars, id) == Propagate ==>
      Get(a, s, id) == if a[s].parent.None? then None else Get(a, a[s].parent.value, id)
  {
    assert ScopeOk(a, s);
    FindGlobalIsRoot(a, s);
  }

  /** Whatever `get` returns is a field bound locally in a scope on the parent chain. */
  lemma {:induction false} GetFindsAncestorField<F>(a: Arena<F>, s: nat, id: string)
    requires Good(a) && s < |a| && Get(a, s, id).Some?
    ensures exists j :: 0 <= j < |a| && Ancestor(a, j, s) && id in a[j].vars && a[j].vars[id] == LocalValue(Get(a, s, id).value)
    decreases s
  {
    assert ScopeOk(a, s);
    GlobalBelow(a, s);
    if id in a[s].vars && a[s].vars[id].LocalValue? {
      assert Ancestor(a, s, s);
    } else if id in a[s].vars && a[s].vars[id] == Global {
      var g := a[s].global.value;
      FindGlobalIsRoot(a, s);
      GetFindsAncestorField(a, g, id);
      var j :| 0 <= j < |a| && Ancestor(a, j, g) && id in a[j].vars && a[j].vars[id] == LocalValue(Get(a, g, id).value);
      RootIsAncestor(a, s);
      AncestorTransitive(a, j, g, s);
    } else {
      var p := a[s].parent.value;
      GetFindsAncestorField(a, p, id);
      var j :| 0 <= j < |a| && Ancestor(a, j, p) && id in a[j].vars && a[j].vars[id] == LocalValue(Get(a, p, id).value);
      assert Ancestor(a, j, s);
    }
  }

  /**
   * The binding map after `declare(id, variant)`, where `stored` is what the
   * variant turns into (a fresh field for `Local`, the variant otherwise):
   * `Propagate` removes the key, anything else is stored, and no other key
   * changes.
   */
  function Declared<F>(vars: map<string, Binding<F>>, id: string, stored: Binding<F>): (r: map<string, Binding<F>>)
    requires stored != Local
    ensures stored == Propagate ==> id !in r
    ensures stored != Propagate ==> id in r && r[id] == stored
    ensures forall k | k != id :: (k in r <==> k in vars) && (k in r ==> r[k] == vars[k])
  {
    if stored == Propagate then vars - {id} else vars[id := stored]
  }

  /** Rebinding scope `s` through `Declared` keeps the arena good. */
  lemma DeclaredGood<F>(a: Arena<F>, s: nat, id: string, stored: Binding<F>)
    requires Good(a) && s < |a| && stored != Local
    ensures Good(WithVars(a, s, Declared(a[s].vars, id, stored)))
  {
    var b := WithVars(a, s, Declared(a[s].vars, id, stored));
    SameShapeWellFormed(a, b);
    forall i, k | 0 <= i < |b| && k in b[i].vars ensures b[i].vars[k] != Local {
      if i != s || k != id { assert k in a[i].vars && b[i].vars[k] == a[i].vars[k]; }
    }
  }

  /** Two arenas of the same shape that bind `k` identically everywhere. */
  ghost predicate AgreeOn<F>(a: Arena<F>, b: Arena<F>, k: string)
  {
    |a| == |b| &&
    forall i | 0 <= i < |a| :: (k in a[i].vars <==> k in b[i].vars) && (k in a[i].vars ==> a[i].vars[k] == b[i].vars[k])
  }

  lemma {:induction false} GetAgree<F>(a: Arena<F>, b: Arena<F>, s: nat, k: string)
    requires Good(a) && Good(b) && SameShape(a, b) && AgreeOn(a, b, k) && s < |a|
    ensures Get(a, s, k) == Get(b, s, k)
    decreases s
  {
    assert ScopeOk(a, s);
    GlobalBelow(a, s);
    if a[s].parent.Some? { GetAgree(a, b, a[s].parent.value, k); }
    if a[s].global.Some? { GetAgree(a, b, a[s].global.value, k); }
  }

  /** `declare(id, ·)` in any scope leaves the lookup of every other name unchanged, from every scope. */
  lemma DeclareOtherNames<F>(a: Arena<F>, s: nat, id: string, stored: Binding<F>, t: nat, k: string)
    requires Good(a) && s < |a| && t < |a| && stored != Local && k != id
    ensures Good(WithVars(a, s, Declared(a[s].vars, id, stored)))
    ensures Get(WithVars(a, s, Declared(a[s].vars, id, stored)), t, k) == Get(a, t, k)
  {
    DeclaredGood(a, s, id, stored);
    GetAgree(a, WithVars(a, s, Declared(a[s].vars, id, stored)), t, k);
  }

  /** A scope tree whose scopes and bindings the methods below edit in place. */
  class FieldScopes<V> {
    var scopes: Arena<VariableField<V>>

    ghost predicate Valid()
      reads this
    {
      Good(scopes)
    }

    constructor ()
      ensures Valid() && scopes == []
    {
      scopes := [];
    }

    /** `new_global`: a new root; its index is returned. */
    method NewGlobal(strictAssign: bool) returns (s: nat)
      requires Valid()
      modifies this
      ensures Valid() && s == |old(scopes)| && scopes == ScopeTree.NewGlobal(old(scopes), strictAssign)
    {
      s := |scopes|;
      scopes := ScopeTree.NewGlobal(scopes, strictAssign);
    }

    /** `new_local`: a new child of `parent` sharing its root. */
    method NewLocal(parent: nat, strictAssign: bool) returns (s: nat)
      requires Valid() && parent < |scopes|
      modifies this
      ensures Valid() && s == |old(scopes)| && scopes == ScopeTree.NewLocal(old(scopes), parent, strictAssign)
    {
      s := |scopes|;
      scopes := ScopeTree.NewLocal(scopes, parent, strictAssign);
    }

    /**
     * `declare`: `Local` binds a fresh unassigned, writable field named `id`;
     * `Propagate` unbinds; any other variant is stored as given.
     */
    method Declare(s: nat, id: string, variant: Binding<VariableField<V>>)
      requires Valid() && s < |scopes|
      modifies this
      ensures Valid() && |scopes| == |old(scopes)|
      ensures variant != Local ==> scopes == WithVars(old(scopes), s, Declared(old(scopes)[s].vars, id, variant))
      ensures variant == Local ==>
        id in scopes[s].vars && scopes[s].vars[id].LocalValue? &&
        var f := scopes[s].vars[id].field;
        fresh(f) && f.name == Some(id) && f.value.None? && !f.readonly && f.docstring.None? &&
        scopes == WithVars(old(scopes), s, Declared(old(scopes)[s].vars, id, LocalValue(f)))
    {
      var stored := variant;
      if variant == Local {
        var f := new VariableField<V>(Some(id), None, false, None);
        stored := LocalValue(f);
      }
      DeclaredGood(scopes, s, id, stored);
      scopes := WithVars(scopes, s, Declared(scopes[s].vars, id, stored));
    }

    /**
     * `get_or_declare`: a name that already resolves gives its field and
     * changes nothing; an unresolved name fails under strict assignment and
     * changes nothing; otherwise a fresh local field is declared in `s` (even
     * over a `Global` deferral whose root lacks the name) and returned.
     */
    method GetOrDeclare(s: nat, id: string) returns (r: Result<VariableField<V>, ()>)
      requires Valid() && s < |scopes|
      modifies this
      ensures Valid() && |scopes| == |old(scopes)|
      ensures Get(old(scopes), s, id).Some? ==> r == Success(Get(old(scopes), s, id).value) && scopes == old(scopes)
      ensures Get(old(scopes), s, id).None? && old(scopes)[s].strictAssign ==> r == Failure(()) && scopes == old(scopes)
      ensures Get(old(scopes), s, id).None? && !old(scopes)[s].strictAssign ==>
        r.Success? && fresh(r.value) && Get(scopes, s, id) == Some(r.value) &&
        r.value.name == Some(id) && r.value.value.None? && !r.value.readonly &&
        scopes == WithVars(old(scopes), s, Declared(old(scopes)[s].vars, id, LocalValue(r.value)))
    {
      var found := Get(scopes, s, id);
      if found.None? && !scopes[s].strictAssign {
        Declare(s, id, Local);
      }
      found := Get(scopes, s, id);
      if found.Some? {
        r := Success(found.value);
      } else {
        r := Failure(());
      }
    }
  }
}
