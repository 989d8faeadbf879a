/**
 * The enum draft of runtime values (`MshValue` in the enum form): the
 * primitives are variants of one type and everything else is an object
 * behind the `MshObject` interface, described here by what its methods
 * answer.
 */
module EnumValues {
  import opened Wrappers
  import opened Decimal
  import opened StackMachine

  datatype Value =
    | None
    | Int(i: I64)
    | Bool(b: bool)
    | Str(s: string)
    | Obj(o: ObjAnswers)

  /** What an `MshObject` answers to `objtype`, `str_nice`, `str_debug` and `call`. */
  datatype ObjAnswers = ObjAnswers(objtype: Value, nice: Result<Value, Value>, debug: Result<Value, Value>, call: Result<Value, Value>)

  function BoolText(b: bool): (r: string)
    ensures r == "true" <==> b
    ensures r == "false" <==> !b
  {
    if b then "true" else "false"
  }

  /** `str_debug`: the primitives' own text, a string single-quoted; an object answers for itself. */
  function StrDebug(v: Value): (r: Result<Value, Value>)
    ensures !v.Obj? ==> r.Success? && r.value.Str?
    ensures v.None? ==> r == Success(Str("none"))
    ensures v.Int? ==> r == Success(Str(IntToString(v.i)))
    ensures v.Bool? ==> r == Success(Str(BoolText(v.b)))
    ensures v.Str? ==> r == Success(Str("'" + v.s + "'"))
    ensures v.Obj? ==> r == v.o.debug
  {
    match v
    case None => Success(Str("none"))
    case Int(i) => Success(Str(IntToString(i)))
    case Bool(b) => Success(Str(BoolText(b)))
    case Str(s) => Success(Str("'" + s + "'"))
    case Obj(o) => o.debug
  }

  /** `str_nice`: a string unquoted, an object's own answer, and `str_debug` for the other primitives. */
  function StrNice(v: Value): (r: Result<Value, Value>)
    ensures v.Str? ==> r == Success(v)
    ensures v.Obj? ==> r == v.o.nice
    ensures !v.Str? && !v.Obj? ==> r == StrDebug(v)
  {
    match v
    case Str(s) => Success(Str(s))
    case Obj(o) => o.nice
    case _ => StrDebug(v)
  }

  /** `unwrap_str`: the content of a string; any other value is a panic, here `None`. */
  function UnwrapStr(v: Value): (r: Option<string>)
    ensures r.Some? <==> v.Str?
    ensures v.Str? ==> r == Some(v.s)
  {
    if v.Str? then Some(v.s) else Option.None
  }

  /**
   * `call`: an object answers for itself. For a primitive the error message
   * would name `objtype()`, which is unimplemented for every primitive, so
   * nothing is claimed.
   */
  function Call(v: Value): (r: Outcome<Value>)
    ensures v.Obj? && v.o.call.Success? ==> r == Return(v.o.call.value)
    ensures v.Obj? && v.o.call.Failure? ==> r == Raise(v.o.call.error)
    ensures !v.Obj? <==> r.Unspecified?
  {
    match v
    case Obj(o) => if o.call.Success? then Return(o.call.value) else Raise(o.call.error)
    case _ => Unspecified
  }

  /**
   * The text of a primitive, as `unwrap_str` reads it from the string forms:
   * the nice and the debug text agree except for a string, whose debug text
   * is quoted.
   */
  lemma PrimitiveTexts(v: Value)
    requires !v.Obj?
    ensures UnwrapStr(StrNice(v).value).Some? && UnwrapStr(StrDebug(v).value).Some?
    ensures !v.Str? ==> UnwrapStr(StrNice(v).value) == UnwrapStr(StrDebug(v).value)
    ensures v.Str? ==> UnwrapStr(StrNice(v).value) == Some(v.s) && UnwrapStr(StrDebug(v).value) == Some("'" + v.s + "'")
  {
  }

  /**
   * The printed forms can be read back: an integer's text parses as that
   * integer in radix 10, a boolean's text is "true" exactly for `true`, and a
   * string's nice text is the string itself.
   */
  lemma PrimitiveTextsReadBack(v: Value)
    requires !v.Obj?
    ensures v.Int? ==> FromStrRadix(UnwrapStr(StrNice(v).value).value, 10) == Some(v.i)
    ensures v.Bool? ==> (UnwrapStr(StrNice(v).value).value == "true" <==> v.b)
    ensures v.Str? ==> UnwrapStr(StrNice(v).value).value == v.s
    ensures v.None? ==> UnwrapStr(StrNice(v).value).value == "none"
  {
    if v.Int? {
      DecimalRoundTrip(v.i);
    }
  }
}
