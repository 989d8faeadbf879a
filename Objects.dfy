/**
 * The object protocol of the trait-object draft (`MshValue`): every runtime
 * value has a type object, a nice and a debug string form, and index, binary
 * and unary operator, call and member-access operations, most of them with
 * default behaviour that raises a "cannot …" error. The concrete values are
 * strings, `none`, errors, integers and functions; `Custom` stands for any
 * other implementor (such as a user type), described by its type object and
 * its overridden string forms, if any.
 *
 * The `{:p}` address that the default debug form prints is a parameter
 * `addr`, about which nothing is assumed.
 */
module Objects {
  import opened Wrappers
  import opened Decimal
  import opened StackMachine

  datatype UnaryOperator = Not | Bitnot | Inc | Dec

  datatype BinaryOperator = And | Or | BitAnd | BitOr | Xor | AtOperator | Pow | Mul | Div | Mod | Plus | Minus

  datatype Obj =
    | Str(content: string)
    | NoneObj
    | Error(msg: string)
    | Int(value: I64)
    | Function(name: string, doc: string, instructions: seq<Statement<Obj, BinaryOperator>>)
    | Custom(objtype: Obj, nice: Option<Result<Obj, Obj>>, debug: Option<Result<Obj, Obj>>)

  const MAX_EXTSTR_DEPTH: nat := 8

  const DepthError := "Error encoding object as `$str`: maximum recursion depth exceeded"

  /** The one `none` value every lookup of `MshNoneValue::get` shares. */
  const NONE: Obj := NoneObj

  /** `MshString::from`, `MshInt::new`, `MshBaseError::new`: the content is stored verbatim. */
  function StrFrom(s: string): (r: Obj)
    ensures r.Str? && r.content == s
  {
    Str(s)
  }

  function IntNew(v: I64): (r: Obj)
    ensures r.Int? && r.value == v
  {
    Int(v)
  }

  function ErrorNew(msg: string): (r: Obj)
    ensures r.Error? && r.msg == msg
  {
    Error(msg)
  }

  /** `objtype`: the built-in values name their type with a string. */
  function ObjType(x: Obj): (r: Obj)
    ensures !x.Custom? ==> r.Str?
    ensures x.Str? ==> r == Str("str")
    ensures x.NoneObj? ==> r == Str("none")
    ensures x.Error? ==> r == Str("Error")
    ensures x.Int? ==> r == Str("int")
    ensures x.Function? ==> r == Str("func")
  {
    match x
    case Str(_) => Str("str")
    case NoneObj => Str("none")
    case Error(_) => Str("Error")
    case Int(_) => Str("int")
    case Function(_, _, _) => Str("func")
    case Custom(t, _, _) => t
  }

  /** A measure under which every string conversion step moves to a smaller value: strings are the bottom. */
  function Rank(x: Obj): nat
  {
    match x
    case Str(_) => 0
    case Custom(t, n, d) => 1 + Max(Rank(t), Max(RankOf(x, n), RankOf(x, d)))
    case _ => 1
  }

  function Max(a: nat, b: nat): nat
  {
    if a < b then b else a
  }

  function RankOf(parent: Obj, r: Option<Result<Obj, Obj>>): nat
    requires parent.Custom? && (r == parent.nice || r == parent.debug)
    decreases parent, 0
  {
    match r
    case None => 0
    case Some(Success(y)) => Rank(y)
    case Some(Failure(y)) => Rank(y)
  }

  lemma TypeBelow(x: Obj)
    requires !x.Str?
    ensures Rank(ObjType(x)) < Rank(x)
  {
  }

  /**
   * `str_nice`: a string is itself, `none` is "none", an error is
   * "Error: " and its message; integers, functions and custom values
   * without an override use `str_debug`.
   */
  function StrNice(x: Obj, addr: Obj -> string): (r: Result<Obj, Obj>)
    ensures x.Str? ==> r == Success(x)
    ensures x.NoneObj? ==> r == Success(Str("none"))
    ensures x.Error? ==> r == Success(Str("Error: " + x.msg))
    ensures x.Custom? && x.nice.Some? ==> r == x.nice.value
    ensures x.Int? || x.Function? || (x.Custom? && x.nice.None?) ==> r == StrDebug(x, addr)
    ensures !x.Str? && r.Success? ==> Rank(r.value) < Rank(x)
    decreases Rank(x), 2
  {
    match x
    case Str(c) => Success(Str(c))
    case NoneObj => Success(Str("none"))
    case Error(m) =>
      TypeBelow(x);
      assert ToStringNice(Str("Error"), 0, addr) == Success("Error");
      assert "Error" + ": " + m == "Error: " + m;
      (match ToStringNice(ObjType(x), 0, addr)
       case Failure(e) => Failure(e)
       case Success(t) => Success(Str(t + ": " + m)))
    case Custom(_, Some(r), _) => r
    case _ => StrDebug(x, addr)
  }

  /**
   * `str_debug`: a string is quoted with `'`, an integer is its decimal
   * form; other values without an override get the default text.
   */
  function StrDebug(x: Obj, addr: Obj -> string): (r: Result<Obj, Obj>)
    ensures x.Str? ==> r == Success(Str("'" + x.content + "'"))
    ensures x.Int? ==> r == Success(Str(IntToString(x.value)))
    ensures x.Custom? ==> r == if x.debug.Some? then x.debug.value else DefaultStrDebug(x, addr)
    ensures x.NoneObj? || x.Error? || x.Function? ==> r == DefaultStrDebug(x, addr)
    ensures !x.Str? && r.Success? ==> Rank(r.value) < Rank(x)
    decreases Rank(x), 1
  {
    match x
    case Str(c) => Success(Str("'" + c + "'"))
    case Int(v) => Success(Str(IntToString(v)))
    case Custom(_, _, Some(r)) => r
    case _ => DefaultStrDebug(x, addr)
  }

  /** The default `str_debug`: "object ADDR of type `T`", `T` being the type's nice string; its error propagates. */
  function DefaultStrDebug(x: Obj, addr: Obj -> string): (r: Result<Obj, Obj>)
    requires !x.Str?
    ensures r.Success? ==> r.value.Str? && Rank(r.value) < Rank(x)
    ensures r.Success? <==> ToStringNice(ObjType(x), 0, addr).Success?
    ensures r.Success? ==> r.value.content == "object " + addr(x) + " of type `" + ToStringNice(ObjType(x), 0, addr).value + "`"
    ensures r.Failure? ==> r.error == ToStringNice(ObjType(x), 0, addr).error
    decreases Rank(x), 0
  {
    TypeBelow(x);
    match ToStringNice(ObjType(x), 0, addr)
    case Failure(e) => Failure(e)
    case Success(t) => Success(Str("object " + addr(x) + " of type `" + t + "`"))
  }

  /**
   * `to_string_nice(depth)`: a string gives its content whatever the depth;
   * any other value fails once `depth` exceeds `MAX_EXTSTR_DEPTH`, and
   * otherwise converts its `str_nice` one level deeper.
   */
  function ToStringNice(x: Obj, depth: nat, addr: Obj -> string): Result<string, Obj>
    decreases Rank(x), 3
  {
    if x.Str? then Success(x.content)
    else if depth > MAX_EXTSTR_DEPTH then Failure(Error(DepthError))
    else
      match StrNice(x, addr)
      case Failure(e) => Failure(e)
      case Success(y) => ToStringNice(y, depth + 1, addr)
  }

  /** `to_string_debug(depth)`: the same recursion through `str_debug`; a string gives its quoted content. */
  function ToStringDebug(x: Obj, depth: nat, addr: Obj -> string): Result<string, Obj>
    decreases Rank(x), 3
  {
    if x.Str? then Success("'" + x.content + "'")
    else if depth > MAX_EXTSTR_DEPTH then Failure(Error(DepthError))
    else
      match StrDebug(x, addr)
      case Failure(e) => Failure(e)
      case Success(y) => ToStringDebug(y, depth + 1, addr)
  }

  /**
   * The conversion with no depth limit: where the chain of `str_nice`
   * results ends (a string or an error) and how many non-string values it
   * passes through on the way.
   */
  function NiceChain(x: Obj, addr: Obj -> string): (r: (Result<string, Obj>, nat))
    ensures x.Str? <==> r.1 == 0
    decreases Rank(x)
  {
    if x.Str? then (Success(x.content), 0)
    else
      match StrNice(x, addr)
      case Failure(e) => (Failure(e), 1)
      case Success(y) => var c := NiceChain(y, addr); (c.0, c.1 + 1)
  }

  function DebugChain(x: Obj, addr: Obj -> string): (r: (Result<string, Obj>, nat))
    ensures x.Str? <==> r.1 == 0
    decreases Rank(x)
  {
    if x.Str? then (Success("'" + x.content + "'"), 0)
    else
      match StrDebug(x, addr)
      case Failure(e) => (Failure(e), 1)
      case Success(y) => var c := DebugChain(y, addr); (c.0, c.1 + 1)
  }

  /**
   * The depth bound: starting at `depth`, the bounded conversion agrees with
   * the unbounded one exactly when the chain's non-string values fit in the
   * levels `depth` … `MAX_EXTSTR_DEPTH`; otherwise it is the depth error.
   */
  lemma {:induction false} NiceDepthBound(x: Obj, depth: nat, addr: Obj -> string)
    ensures ToStringNice(x, depth, addr) ==
      if x.Str? || depth + NiceChain(x, addr).1 <= MAX_EXTSTR_DEPTH + 1 then NiceChain(x, addr).0 else Failure(Error(DepthError))
    decreases Rank(x)
  {
    if !x.Str? && depth <= MAX_EXTSTR_DEPTH {
      match StrNice(x, addr)
      case Failure(_) =>
      case Success(y) => NiceDepthBound(y, depth + 1, addr);
    }
  }

  lemma {:induction false} DebugDepthBound(x: Obj, depth: nat, addr: Obj -> string)
    ensures ToStringDebug(x, depth, addr) ==
      if x.Str? || depth + DebugChain(x, addr).1 <= MAX_EXTSTR_DEPTH + 1 then DebugChain(x, addr).0 else Failure(Error(DepthError))
    decreases Rank(x)
  {
    if !x.Str? && depth <= MAX_EXTSTR_DEPTH {
      match StrDebug(x, addr)
      case Failure(_) =>
      case Success(y) => DebugDepthBound(y, depth + 1, addr);
    }
  }

  /** The string overrides ignore the depth and never fail, which is what ends the recursion. */
  lemma StringsEndRecursion(s: string, depth: nat, addr: Obj -> string)
    ensures ToStringNice(Str(s), depth, addr) == Success(s)
    ensures ToStringDebug(Str(s), depth, addr) == Success("'" + s + "'")
    ensures StrNice(Str(s), addr) == Success(Str(s)) && StrDebug(Str(s), addr) == Success(Str("'" + s + "'"))
  {
  }

  /**
   * The string forms of the built-in values, converted from depth 0. The
   * nice form of an integer is its decimal digits and its debug form those
   * digits quoted (the debug text is a string, whose own debug form quotes
   * it); `none` is "none" nicely and the quoted default text in debug; an
   * error is "Error: MSG" nicely; a function has the default text nicely and
   * the quoted default text in debug.
   */
  lemma BuiltinStringForms(v: I64, m: string, f: Obj, addr: Obj -> string)
    requires f.Function?
    ensures ToStringNice(Int(v), 0, addr) == Success(IntToString(v))
    ensures ToStringDebug(Int(v), 0, addr) == Success("'" + IntToString(v) + "'")
    ensures ToStringNice(NoneObj, 0, addr) == Success("none")
    ensures ToStringDebug(NoneObj, 0, addr) == Success("'object " + addr(NoneObj) + " of type `none`'")
    ensures ToStringNice(Error(m), 0, addr) == Success("Error: " + m)
    ensures ToStringDebug(Error(m), 0, addr) == Success("'object " + addr(Error(m)) + " of type `Error`'")
    ensures ToStringNice(f, 0, addr) == Success("object " + addr(f) + " of type `func`")
    ensures ToStringDebug(f, 0, addr) == Success("'object " + addr(f) + " of type `func`'")
  {
    var d := IntToString(v);
    assert StrNice(Int(v), addr) == StrDebug(Int(v), addr) == Success(Str(d));
    assert ToStringNice(Int(v), 0, addr) == ToStringNice(Str(d), 1, addr);
    assert ToStringDebug(Int(v), 0, addr) == ToStringDebug(Str(d), 1, addr);
    assert StrNice(NoneObj, addr) == Success(Str("none"));
    assert ToStringNice(NoneObj, 0, addr) == ToStringNice(Str("none"), 1, addr);
    assert ObjType(NoneObj).content == "none" && ObjType(Error(m)).content == "Error" && ObjType(f).content == "func";
    assert "'object " + addr(NoneObj) + " of type `" + "none" + "`'" == "'object " + addr(NoneObj) + (" of type `" + "none" + "`'");
    assert "'object " + addr(Error(m)) + " of type `" + "Error" + "`'" == "'object " + addr(Error(m)) + (" of type `" + "Error" + "`'");
    assert "'object " + addr(f) + " of type `" + "func" + "`'" == "'object " + addr(f) + (" of type `" + "func" + "`'");
    assert "object " + addr(f) + " of type `" + "func" + "`" == "object " + addr(f) + (" of type `" + "func" + "`");
    assert " of type `" + "none" + "`'" == " of type `none`'";
    assert " of type `" + "Error" + "`'" == " of type `Error`'";
    assert " of type `" + "func" + "`'" == " of type `func`'";
    assert " of type `" + "func" + "`" == " of type `func`";
    DefaultForm(NoneObj, addr);
    ErrorNice(m, addr);
    DefaultForm(Error(m), addr);
    DefaultForm(f, addr);
    assert StrNice(f, addr) == StrDebug(f, addr);
    assert ToStringNice(f, 0, addr) == ToStringNice(StrDebug(f, addr).value, 1, addr);
    assert ToStringNice(f, 0, addr) == ToStringNice(Str("object " + addr(f) + " of type `func`"), 1, addr);
  }

  /** A value with the default debug text converts to that text quoted in debug. */
  lemma DefaultForm(x: Obj, addr: Obj -> string)
    requires x.NoneObj? || x.Error? || x.Function?
    ensures StrDebug(x, addr) == Success(Str("object " + addr(x) + " of type `" + ObjType(x).content + "`"))
    ensures ToStringDebug(x, 0, addr) == Success("'object " + addr(x) + " of type `" + ObjType(x).content + "`'")
  {
    var t := ObjType(x).content;
    assert ToStringNice(ObjType(x), 0, addr) == Success(t);
    var text := "object " + addr(x) + " of type `" + t + "`";
    assert ToStringDebug(x, 0, addr) == ToStringDebug(Str(text), 1, addr);
    assert "'" + "object " == "'object " && "`" + "'" == "`'";
    assert "'" + text + "'" == "'object " + addr(x) + " of type `" + t + "`'";
  }

  lemma ErrorNice(m: string, addr: Obj -> string)
    ensures ToStringNice(Error(m), 0, addr) == Success("Error: " + m)
  {
    assert ToStringNice(Str("Error"), 0, addr) == Success("Error");
    assert "Error" + ": " + m == "Error: " + m;
    assert StrNice(Error(m), addr) == Success(Str("Error: " + m));
    assert ToStringNice(Error(m), 0, addr) == ToStringNice(Str("Error: " + m), 1, addr);
  }

  /** A nice form that names the value's type, or the error of doing so; the defaults below panic when it fails. */
  function TypeText(x: Obj, addr: Obj -> string): Result<string, Obj>
  {
    ToStringNice(ObjType(x), 0, addr)
  }

  /** Built-in values always have a type text. */
  lemma BuiltinTypeText(x: Obj, addr: Obj -> string)
    requires !x.Custom?
    ensures TypeText(x, addr).Success? && Str(TypeText(x, addr).value) == ObjType(x)
  {
  }

  /** The default `index`: "cannot access index of `T`". Indexing a string is unimplemented. */
  function IndexOf(x: Obj, index: Obj, addr: Obj -> string): (r: Outcome<Obj>)
    requires TypeText(x, addr).Success?
    ensures x.Str? <==> r.Unspecified?
    ensures !x.Str? ==> r == Raise(Error("cannot access index of `" + TypeText(x, addr).value + "`"))
  {
    if x.Str? then Unspecified else Raise(Error("cannot access index of `" + TypeText(x, addr).value + "`"))
  }

  /** The default `binop`, which no value overrides: "cannot operate on `T`", naming the left operand's type. */
  function BinOp(x: Obj, other: Obj, op: BinaryOperator, addr: Obj -> string): (r: Outcome<Obj>)
    requires TypeText(x, addr).Success?
    ensures r == Raise(Error("cannot operate on `" + TypeText(x, addr).value + "`"))
  {
    Raise(Error("cannot operate on `" + TypeText(x, addr).value + "`"))
  }

  /**
   * The default `unop`, which no value overrides; a success would carry the
   * expression's value and the value to store for an impure operator.
   */
  function UnOp(x: Obj, op: UnaryOperator, addr: Obj -> string): (r: Result<(Obj, Option<Obj>), Obj>)
    requires TypeText(x, addr).Success?
    ensures r == Failure(Error("cannot operate on `" + TypeText(x, addr).value + "`"))
  {
    Failure(Error("cannot operate on `" + TypeText(x, addr).value + "`"))
  }

  /** The default `call`: "cannot call `T`". Functions override it (see the machine). */
  function DefaultCall(x: Obj, addr: Obj -> string): (r: Outcome<Obj>)
    requires TypeText(x, addr).Success?
    ensures r == Raise(Error("cannot call `" + TypeText(x, addr).value + "`"))
  {
    Raise(Error("cannot call `" + TypeText(x, addr).value + "`"))
  }

  /** `dot`: `none` has no members; the other values leave member access unimplemented. */
  function DotOf(x: Obj, id: string): (r: Outcome<Obj>)
    ensures x.NoneObj? <==> r.Raise?
    ensures x.NoneObj? ==> r == Raise(Error("cannot access members of `none`"))
  {
    if x.NoneObj? then Raise(Error("cannot access members of `none`")) else Unspecified
  }

  /** `Display`, implemented for `none` ("none") and for errors (the bare message). */
  function Display(x: Obj): (r: string)
    requires x.NoneObj? || x.Error?
    ensures x.NoneObj? ==> r == "none"
    ensures x.Error? ==> r == x.msg
  {
    if x.NoneObj? then "none" else x.msg
  }

  /** An error's `Display` is its nice form without the "Error: " prefix. */
  lemma ErrorDisplayAndNice(m: string, addr: Obj -> string)
    ensures ToStringNice(Error(m), 0, addr) == Success("Error: " + Display(Error(m)))
  {
    ErrorNice(m, addr);
  }
}
