/**
 * The value model of the first stack-machine draft: `StaticValue` and the
 * `ObjectValue` (list or dictionary) it may carry, with their string
 * rendering, type names, member access, indexing, operators and calls.
 * Objects are shared through reference-counted cells in that draft; none of
 * the operations below mutates an object, so the model holds them by value.
 */
module StaticValues {
  import opened Wrappers
  import opened Decimal

  datatype StaticValue =
    | Int(i: I64)
    | StringLiteral(s: string)
    | Bool(b: bool)
    | Object(obj: ObjectValue)
    | Function(name: string)
    | None

  datatype ObjectValue = List(items: seq<StaticValue>) | Dict(entries: map<string, StaticValue>)

  /** `ObjectValue::dot`: objects expose no members yet. */
  function ObjectDot(o: ObjectValue, id: string): (r: Result<StaticValue, StaticValue>)
    ensures r == Failure(StringLiteral("identifier `" + id + "` doesn't exist"))
  {
    Failure(StringLiteral("identifier `" + id + "` doesn't exist"))
  }

  /** `StaticValue::dot`: no value exposes members yet. */
  function Dot(v: StaticValue, id: string): (r: Result<StaticValue, StaticValue>)
    ensures r.Failure? && r.error == StringLiteral("identifier " + id + " doesn't exist")
  {
    Failure(StringLiteral("identifier " + id + " doesn't exist"))
  }

  /** The name `objtype` reports, as plain text. */
  function TypeName(v: StaticValue): string
  {
    match v
    case Int(_) => "int"
    case StringLiteral(_) => "str"
    case Bool(_) => "bool"
    case Object(_) => "obj"
    case Function(_) => "func"
    case None => "none"
  }

  /** `objtype`: the type's name as a string value; every object reports "obj". */
  function ObjType(v: StaticValue): (r: StaticValue)
    ensures r.StringLiteral? && r.s in {"int", "str", "bool", "obj", "func", "none"}
    ensures r.s == "obj" <==> v.Object?
    ensures v.Int? ==> r.s == "int"
    ensures v.StringLiteral? ==> r.s == "str"
    ensures v.Bool? ==> r.s == "bool"
    ensures v.Function? ==> r.s == "func"
    ensures v.None? ==> r.s == "none"
  {
    StringLiteral(TypeName(v))
  }

  /**
   * `StaticValue::to_string`: integers in decimal, strings as they are,
   * booleans as "true"/"false", functions as "func NAME() -> none", `none`
   * as "none"; objects as `ObjectToString` says.
   */
  function ToString(v: StaticValue): Result<string, StaticValue>
    decreases v, 1
  {
    match v
    case Int(i) => Success(IntToString(i))
    case StringLiteral(s) => Success(s)
    case Bool(b) => Success(if b then "true" else "false")
    case Object(o) => ObjectToString(o)
    case Function(f) => Success("func " + f + "() -> none")
    case None => Success("none")
  }

  /**
   * `ObjectValue::to_string`, with the list rendering corrected: "[]" for an
   * empty list, otherwise the items' strings separated by ", " in brackets,
   * the first failing item's error otherwise. A dictionary looks up its
   * `$tostr` member, which fails since objects have no members.
   */
  function ObjectToString(o: ObjectValue): Result<string, StaticValue>
    decreases o, 1
  {
    match o
    case List(vs) =>
      if |vs| == 0 then Success("[]")
      else
        (match ToString(vs[0])
         case Failure(e) => Failure(e)
         case Success(first) =>
           (match Separated(o, 1)
            case Failure(e) => Failure(e)
            case Success(rest) => Success("[" + first + rest + "]")))
    case Dict(_) =>
      // the member lookup always fails, and its error is propagated
      Failure(ObjectDot(o, "$tostr").error)
  }

  /** The items of a list from index `i` on, each preceded by ", "; stops at the first failing item. */
  function Separated(o: ObjectValue, i: nat): Result<string, StaticValue>
    requires o.List? && i <= |o.items|
    decreases o, 0, |o.items| - i
  {
    if i == |o.items| then Success("")
    else
      match ToString(o.items[i])
      case Failure(e) => Failure(e)
      case Success(s) =>
        (match Separated(o, i + 1)
         case Failure(e) => Failure(e)
         case Success(rest) => Success(", " + s + rest))
  }

  /**
   * `StaticValue::to_string` with `ObjectValue::to_string` as written, at
   * every level of nesting: a non-empty list renders its first item, and then
   * the fold runs over every item, the first one included.
   */
  function ToStringAsWritten(v: StaticValue): Result<string, StaticValue>
    decreases v, 1
  {
    if v.Object? then ObjectToStringAsWritten(v.obj) else ToString(v)
  }

  /** `ObjectValue::to_string` as written; dictionaries fail as in `ObjectToString`. */
  function ObjectToStringAsWritten(o: ObjectValue): Result<string, StaticValue>
    decreases o, 1
  {
    match o
    case List(vs) =>
      if |vs| == 0 then Success("[]")
      else
        (match ToStringAsWritten(vs[0])
         case Failure(e) => Failure(e)
         case Success(first) =>
           (match SeparatedAsWritten(o, 0)
            case Failure(e) => Failure(e)
            case Success(rest) => Success("[" + first + rest + "]")))
    case Dict(_) => Failure(ObjectDot(o, "$tostr").error)
  }

  /** The fold of the list arm as written: the items from index `i` on, each preceded by ", ". */
  function SeparatedAsWritten(o: ObjectValue, i: nat): Result<string, StaticValue>
    requires o.List? && i <= |o.items|
    decreases o, 0, |o.items| - i
  {
    if i == |o.items| then Success("")
    else
      match ToStringAsWritten(o.items[i])
      case Failure(e) => Failure(e)
      case Success(s) =>
        (match SeparatedAsWritten(o, i + 1)
         case Failure(e) => Failure(e)
         case Success(rest) => Success(", " + s + rest))
  }

  /**
   * As written, a one-item list renders its item twice, and a list nested in
   * it repeats its own first item too; the corrected rendering gives each item once.
   */
  lemma ListToStringRepeatsFirst()
    ensures ObjectToStringAsWritten(List([Int(1)])) == Success("[1, 1]")
    ensures ObjectToStringAsWritten(List([Object(List([Int(1)]))])) == Success("[[1, 1], [1, 1]]")
    ensures ObjectToString(List([Int(1)])) == Success("[1]")
  {
    assert DigitChar(1) == '1';
    assert IntToString(1) == "1";
    var inner := List([Int(1)]);
    assert ToStringAsWritten(inner.items[0]) == Success("1");
    assert SeparatedAsWritten(inner, 1) == Success("");
    assert SeparatedAsWritten(inner, 0) == Success(", " + "1" + "");
    assert "[" + "1" + (", " + "1" + "") + "]" == "[1, 1]";
    assert ObjectToStringAsWritten(inner) == Success("[1, 1]");
    var outer := List([Object(inner)]);
    assert ToStringAsWritten(outer.items[0]) == Success("[1, 1]");
    assert SeparatedAsWritten(outer, 1) == Success("");
    assert SeparatedAsWritten(outer, 0) == Success(", " + "[1, 1]" + "");
    assert "[" + "[1, 1]" + (", " + "[1, 1]" + "") + "]" == "[[1, 1], [1, 1]]";
    assert ToString(inner.items[0]) == Success("1");
    assert Separated(inner, 1) == Success("");
    assert "[" + "1" + "" + "]" == "[1]";
  }

  /** The strings joined with `sep` between consecutive ones: the reference rendering of a list. */
  function Join(parts: seq<string>, sep: string): string
  {
    if |parts| == 0 then "" else if |parts| == 1 then parts[0] else parts[0] + sep + Join(parts[1..], sep)
  }

  predicate AllRender(vs: seq<StaticValue>)
  {
    forall i | 0 <= i < |vs| :: ToString(vs[i]).Success?
  }

  function Rendered(vs: seq<StaticValue>): (r: seq<string>)
    requires AllRender(vs)
    ensures |r| == |vs| && forall i | 0 <= i < |vs| :: r[i] == ToString(vs[i]).value
  {
    seq(|vs|, i requires 0 <= i < |vs| => ToString(vs[i]).value)
  }

  lemma {:induction false} SeparatedJoins(vs: seq<StaticValue>, i: nat)
    requires AllRender(vs) && 0 < i <= |vs|
    ensures Separated(List(vs), i) == Success(if i == |vs| then "" else ", " + Join(Rendered(vs)[i..], ", "))
    decreases |vs| - i
  {
    if i < |vs| {
      SeparatedJoins(vs, i + 1);
      var r := Rendered(vs);
      var tail := r[i..];
      assert tail[1..] == r[i + 1..];
      assert tail[0] == r[i];
      if i + 1 == |vs| {
        assert Join(tail, ", ") == r[i];
        assert Separated(List(vs), i) == Success(", " + r[i] + "");
        assert ", " + r[i] + "" == ", " + r[i];
      } else {
        var j := Join(r[i + 1..], ", ");
        assert Join(tail, ", ") == r[i] + ", " + j;
        assert Separated(List(vs), i) == Success(", " + r[i] + (", " + j));
        assert ", " + r[i] + (", " + j) == ", " + (r[i] + ", " + j);
      }
    }
  }

  /** A list whose items all render is rendered as the bracketed ", "-join of the items' strings, in order. */
  lemma ListRendersAsJoin(vs: seq<StaticValue>)
    requires AllRender(vs)
    ensures ObjectToString(List(vs)) == Success("[" + Join(Rendered(vs), ", ") + "]")
  {
    var r := Rendered(vs);
    if |vs| == 0 {
      assert "[" + Join(r, ", ") + "]" == "[]";
    } else {
      SeparatedJoins(vs, 1);
      var first := r[0];
      assert ToString(vs[0]) == Success(first);
      if |vs| == 1 {
        assert "[" + first + "" + "]" == "[" + Join(r, ", ") + "]";
      } else {
        var j := Join(r[1..], ", ");
        assert Join(r, ", ") == first + ", " + j;
        assert "[" + first + (", " + j) + "]" == "[" + (first + ", " + j) + "]";
      }
    }
  }

  /** A list with an item that fails to render fails with the error of the first such item. */
  lemma {:induction false} ListFailsAtFirstFailure(vs: seq<StaticValue>, k: nat)
    requires k < |vs| && ToString(vs[k]).Failure? && AllRender(vs[..k])
    ensures ObjectToString(List(vs)) == Failure(ToString(vs[k]).error)
  {
    if k > 0 {
      SeparatedFails(vs, 1, k);
      assert ToString(vs[0]).Success? by { assert vs[..k][0] == vs[0]; }
    }
  }

  lemma {:induction false} SeparatedFails(vs: seq<StaticValue>, i: nat, k: nat)
    requires 0 < i <= k < |vs| && ToString(vs[k]).Failure? && AllRender(vs[..k])
    ensures Separated(List(vs), i) == Failure(ToString(vs[k]).error)
    decreases k - i
  {
    if i < k {
      assert vs[..k][i] == vs[i];
      SeparatedFails(vs, i + 1, k);
    }
  }

  /** The error every dictionary's rendering fails with. */
  lemma DictNeverRenders(m: map<string, StaticValue>)
    ensures ToString(Object(Dict(m))) == Failure(StringLiteral("identifier `$tostr` doesn't exist"))
  {
    assert "identifier `" + "$tostr" + "` doesn't exist" == "identifier `$tostr` doesn't exist";
  }

  /** Rendering an integer and reading it back in decimal gives the integer. */
  lemma IntRenderingRoundTrip(i: I64)
    ensures ToString(Int(i)).Success? && FromStrRadix(ToString(Int(i)).value, 10) == Some(i)
  {
    DecimalRoundTrip(i);
  }

  /** Strings, booleans, functions and `none` render without failing, as the draft spells them. */
  lemma ScalarRenderings(s: string, b: bool, f: string)
    ensures ToString(StringLiteral(s)) == Success(s)
    ensures ToString(Bool(b)) == Success(if b then "true" else "false")
    ensures ToString(Function(f)) == Success("func " + f + "() -> none")
    ensures ToString(StaticValue.None) == Success("none")
  {
  }

  /** A type name renders as itself and never fails. */
  lemma ObjTypeRenders(v: StaticValue)
    ensures ToString(ObjType(v)) == Success(TypeName(v))
  {
  }

  /**
   * `ObjectValue::index`: a list indexed by an in-range `Int` gives that
   * item; a negative or too large `Int` is out of bounds; any other index
   * type is invalid. A dictionary calls its `$index` member with the index,
   * or reports that `obj` cannot be indexed.
   */
  function ObjectIndex(o: ObjectValue, index: StaticValue): (r: Result<StaticValue, StaticValue>)
    ensures o.List? ==> (r.Success? <==> index.Int? && 0 <= index.i < |o.items|)
    ensures o.List? && r.Success? ==> r.value == o.items[index.i]
    ensures o.List? && index.Int? && !(0 <= index.i < |o.items|) ==> r == Failure(StringLiteral("index out of bounds"))
    ensures o.List? && !index.Int? ==> r == Failure(StringLiteral("invalid index type"))
    ensures o.Dict? && "$index" !in o.entries ==> r == Failure(StringLiteral("indexing not supported for type `obj`"))
    ensures o.Dict? && "$index" in o.entries ==> r == Call(o.entries["$index"], [index])
  {
    match o
    case List(vs) =>
      if index.Int? then
        if 0 <= index.i && index.i < |vs| then Success(vs[index.i]) else Failure(StringLiteral("index out of bounds"))
      else Failure(StringLiteral("invalid index type"))
    case Dict(m) =>
      if "$index" in m then Call(m["$index"], [index])
      else
        assert "indexing not supported for type `" + "obj" + "`" == "indexing not supported for type `obj`";
        Failure(StringLiteral("indexing not supported for type `" + TypeName(Object(o)) + "`"))
  }

  /** `StaticValue::index`: indexing a plain value always succeeds with `none` in this draft. */
  function Index(v: StaticValue, index: StaticValue): (r: Result<StaticValue, StaticValue>)
    ensures r == Success(StaticValue.None)
  {
    Success(StaticValue.None)
  }

  /** `StaticValue::operator`: no operator is implemented; the error names the operator and both type names. */
  function Operator(a: StaticValue, b: StaticValue, op: string): (r: Result<StaticValue, StaticValue>)
    ensures r.Failure? && r.error.StringLiteral?
    ensures r.error.s == "operator " + op + " not supported between " + TypeName(a) + "," + TypeName(b)
  {
    Failure(StringLiteral("operator " + op + " not supported between " + ObjType(a).s + "," + ObjType(b).s))
  }

  /** `ObjectValue::call`: a dictionary with a `$call` member delegates to it; anything else is not callable as an object. */
  function ObjectCall(o: ObjectValue, args: seq<StaticValue>): Option<Result<StaticValue, StaticValue>>
    decreases o, 1
  {
    if o.Dict? && "$call" in o.entries then Some(Call(o.entries["$call"], args)) else Option.None
  }

  /**
   * `StaticValue::call`: a function returns `none` (function bodies are not
   * run in this draft); an object answering the call delegates; anything
   * else is not callable.
   */
  function Call(v: StaticValue, args: seq<StaticValue>): Result<StaticValue, StaticValue>
    decreases v, 2
  {
    match v
    case Function(_) => Success(StaticValue.None)
    case Object(o) =>
      (match ObjectCall(o, args)
       case Some(ret) => ret
       case None => Failure(StringLiteral("type `" + ObjType(v).s + "` is not callable")))
    case _ => Failure(StringLiteral("type `" + ObjType(v).s + "` is not callable"))
  }

  /** Which values can be called at all: a chain of `$call` members that ends in a function. */
  predicate Callable(v: StaticValue)
    decreases v
  {
    v.Function? || (v.Object? && v.obj.Dict? && "$call" in v.obj.entries && Callable(v.obj.entries["$call"]))
  }

  /**
   * A call succeeds, and then with `none`, exactly when the value is callable;
   * a value that is neither a function nor an object with `$call` fails with
   * "type `T` is not callable" for its own type name.
   */
  lemma {:induction false} CallSucceedsIffCallable(v: StaticValue, args: seq<StaticValue>)
    ensures Call(v, args).Success? <==> Callable(v)
    ensures Call(v, args).Success? ==> Call(v, args).value == StaticValue.None
    ensures !v.Function? && !(v.Object? && v.obj.Dict? && "$call" in v.obj.entries) ==>
      Call(v, args) == Failure(StringLiteral("type `" + TypeName(v) + "` is not callable"))
    decreases v
  {
    if v.Object? && v.obj.Dict? && "$call" in v.obj.entries {
      CallSucceedsIffCallable(v.obj.entries["$call"], args);
    }
  }
}
