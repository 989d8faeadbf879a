/**
 * `VariableField`: a named, possibly unassigned cell that a scope binds a
 * variable to. A readonly field accepts its first value and refuses every
 * later write. The two drafts of the field (one reporting `can_read` and
 * `can_write`, one reporting `is_readonly`) share one model.
 */
module Fields {
  import opened Wrappers

  const ReadonlyError := "field is readonly"

  /**
   * `set_value` on a field in a given state, as a value: the call's result
   * and the field's new value.
   */
  function Write<V>(readonly: bool, current: Option<V>, v: Option<V>): (r: (Result<Option<V>, string>, Option<V>))
    ensures r.0.Failure? <==> readonly && current.Some?
    ensures r.0.Failure? ==> r.0.error == ReadonlyError && r.1 == current
    ensures r.0.Success? ==> r.0.value == current && r.1 == v
  {
    if readonly && current.Some? then (Failure(ReadonlyError), current) else (Success(current), v)
  }

  /** A series of `set_value` calls: every call's result, and the value left at the end. */
  function Writes<V>(readonly: bool, init: Option<V>, ws: seq<Option<V>>): (r: (seq<Result<Option<V>, string>>, Option<V>))
    ensures |r.0| == |ws|
    decreases |ws|
  {
    if ws == [] then ([], init)
    else
      var first := Write(readonly, init, ws[0]);
      var rest := Writes(readonly, first.1, ws[1..]);
      ([first.0] + rest.0, rest.1)
  }

  /** Once a readonly field holds a value, every write fails and the value never changes. */
  lemma {:induction false} FrozenStaysFrozen<V>(init: Option<V>, ws: seq<Option<V>>)
    requires init.Some?
    ensures forall i | 0 <= i < |ws| :: Writes(true, init, ws).0[i] == Failure(ReadonlyError)
    ensures Writes(true, init, ws).1 == init
    decreases |ws|
  {
    if ws != [] {
      FrozenStaysFrozen(init, ws[1..]);
      var rs := Writes(true, init, ws).0;
      assert rs == [Failure(ReadonlyError)] + Writes(true, init, ws[1..]).0;
      forall i | 0 <= i < |ws| ensures rs[i] == Failure(ReadonlyError) {
        if i > 0 { assert rs[i] == Writes(true, init, ws[1..]).0[i - 1]; }
      }
    }
  }

  /**
   * The write-once rule: on an unassigned readonly field the first write of a
   * value succeeds and returns the absent previous value; every later write
   * fails with "field is readonly" and the first value stays.
   */
  lemma ReadonlyWriteOnce<V>(v: V, later: seq<Option<V>>)
    ensures Writes(true, None, [Some(v)] + later).0[0] == Success(None)
    ensures forall i | 1 <= i < |later| + 1 :: Writes(true, None, [Some(v)] + later).0[i] == Failure(ReadonlyError)
    ensures Writes(true, None, [Some(v)] + later).1 == Some(v)
  {
    var ws := [Some(v)] + later;
    assert ws[1..] == later;
    FrozenStaysFrozen(Some(v), later);
    var rs := Writes(true, None, ws).0;
    forall i | 1 <= i < |later| + 1 ensures rs[i] == Failure(ReadonlyError) {
      assert rs[i] == Writes(true, Some(v), later).0[i - 1];
    }
  }

  /**
   * A writable field accepts every write; each write returns the value the
   * previous one stored, and the last write wins.
   */
  lemma {:induction false} WritableLastWins<V>(init: Option<V>, ws: seq<Option<V>>)
    ensures forall i | 0 <= i < |ws| ::
      Writes(false, init, ws).0[i] == Success(if i == 0 then init else ws[i - 1])
    ensures Writes(false, init, ws).1 == if ws == [] then init else ws[|ws| - 1]
    decreases |ws|
  {
    if ws != [] {
      var tail := ws[1..];
      WritableLastWins(ws[0], tail);
      var rs := Writes(false, init, ws).0;
      assert rs == [Success(init)] + Writes(false, ws[0], tail).0;
      forall i | 0 <= i < |ws| ensures rs[i] == Success(if i == 0 then init else ws[i - 1]) {
        if i > 0 {
          assert rs[i] == Writes(false, ws[0], tail).0[i - 1];
          if i > 1 { assert tail[i - 2] == ws[i - 1]; }
        }
      }
      if tail != [] { assert tail[|tail| - 1] == ws[|ws| - 1]; }
    }
  }

  class VariableField<V> {
    var name: Option<string>
    var value: Option<V>
    var readonly: bool
    var docstring: Option<string>

    constructor (name: Option<string>, value: Option<V>, readonly: bool, docstring: Option<string>)
      ensures this.name == name && this.value == value
      ensures this.readonly == readonly && this.docstring == docstring
    {
      this.name := name;
      this.value := value;
      this.readonly := readonly;
      this.docstring := docstring;
    }

    function GetName(): (r: Option<string>)
      reads this
      ensures r == name
    {
      name
    }

    function GetDocstring(): (r: Option<string>)
      reads this
      ensures r == docstring
    {
      docstring
    }

    /** Every variable field is readable, assigned or not. */
    function CanRead(): (r: bool)
      reads this
      ensures r
    {
      true
    }

    /** Writability is the readonly flag negated, even while the field is still unassigned. */
    function CanWrite(): (r: bool)
      reads this
      ensures r <==> !readonly
    {
      !readonly
    }

    function IsReadonly(): (r: bool)
      reads this
      ensures r == readonly
    {
      readonly
    }

    /** Reading never fails and returns the current, possibly absent, value. */
    function GetValue(): (r: Result<Option<V>, string>)
      reads this
      ensures r == Success(value)
    {
      Success(value)
    }

    /** `set_value`: the write-once rule of `Write`; nothing but the value changes. */
    method SetValue(v: Option<V>) returns (r: Result<Option<V>, string>)
      modifies this
      ensures (r, value) == Write(old(readonly), old(value), v)
      ensures name == old(name) && readonly == old(readonly) && docstring == old(docstring)
    {
      if readonly && value.Some? {
        return Failure(ReadonlyError);
      }
      r := Success(value);
      value := v;
    }

    method SetDocstring(d: Option<string>)
      modifies this
      ensures docstring == d
      ensures name == old(name) && value == old(value) && readonly == old(readonly)
    {
      docstring := d;
    }
  }

  /**
   * A readonly field created without a value already reports that it cannot
   * be written, yet its first write succeeds and only the second fails.
   */
  method UnassignedReadonlyScenario<V>(v: V, w: V) returns (canWrite: bool, first: Result<Option<V>, string>, second: Result<Option<V>, string>, final: Option<V>)
    ensures !canWrite
    ensures first == Success(None)
    ensures second == Failure(ReadonlyError)
    ensures final == Some(v)
  {
    var f := new VariableField<V>(None, None, true, None);
    canWrite := f.CanWrite();
    first := f.SetValue(Some(v));
    second := f.SetValue(Some(w));
    final := f.value;
  }
}
