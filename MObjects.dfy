/**
 * The object protocol of the type-system draft (`MObject`): objects name
 * their type through the type's `name()`, and `to_ext_string` converts an
 * object to text through its nice or debug form. `MString` stands for the
 * string object that ends the recursion; an `Instance` is any other object,
 * described by its type's name and its overridden string forms, if any.
 */
module MObjects {
  import opened Wrappers

  datatype MObj =
    | MString(content: string)
    | Instance(typeName: string, nice: Option<Result<MObj, MObj>>, debug: Option<Result<MObj, MObj>>)

  /** The same bound as in the trait-object draft; this draft never checks it. */
  const MAX_EXTSTR_DEPTH: nat := 8

  /** A measure under which every conversion step moves to a smaller object: strings are the bottom. */
  function Rank(x: MObj): nat
  {
    match x
    case MString(_) => 0
    case Instance(_, n, d) => 1 + Max(RankOf(x, n), RankOf(x, d))
  }

  function Max(a: nat, b: nat): nat
  {
    if a < b then b else a
  }

  function RankOf(parent: MObj, r: Option<Result<MObj, MObj>>): nat
    requires parent.Instance? && (r == parent.nice || r == parent.debug)
    decreases parent, 0
  {
    match r
    case None => 0
    case Some(Success(y)) => Rank(y)
    case Some(Failure(y)) => Rank(y)
  }

  /** The default `str_debug`: "object ADDR of type `NAME`", `NAME` being the type's `name()`. */
  function StrDebug(x: MObj, addr: MObj -> string): (r: Result<MObj, MObj>)
    requires x.Instance?
    ensures x.debug.None? ==> r == Success(MString("object " + addr(x) + " of type `" + x.typeName + "`"))
    ensures x.debug.Some? ==> r == x.debug.value
    ensures r.Success? ==> Rank(r.value) < Rank(x)
  {
    if x.debug.Some? then x.debug.value
    else Success(MString("object " + addr(x) + " of type `" + x.typeName + "`"))
  }

  /** The default `str_nice` is `str_debug`. */
  function StrNice(x: MObj, addr: MObj -> string): (r: Result<MObj, MObj>)
    requires x.Instance?
    ensures x.nice.None? ==> r == StrDebug(x, addr)
    ensures x.nice.Some? ==> r == x.nice.value
    ensures r.Success? ==> Rank(r.value) < Rank(x)
  {
    if x.nice.Some? then x.nice.value else StrDebug(x, addr)
  }

  /**
   * `to_ext_string(depth, use_debug)`: a string gives its content, quoted on
   * the debug path; any other object converts its `str_debug` (on the debug
   * path) or its `str_nice` (otherwise) one level deeper. The depth guard
   * has an empty body, so `depth` is counted but never checked.
   */
  function ToExtString(x: MObj, depth: nat, useDebug: bool, addr: MObj -> string): Result<string, MObj>
    decreases Rank(x)
  {
    if x.MString? then Success(if useDebug then "'" + x.content + "'" else x.content)
    else
      match (if useDebug then StrDebug(x, addr) else StrNice(x, addr))
      case Failure(e) => Failure(e)
      case Success(y) => ToExtString(y, depth + 1, useDebug, addr)
  }

  /** The depth never matters, however deep the chain of conversions goes. */
  lemma {:induction false} DepthIgnored(x: MObj, d1: nat, d2: nat, useDebug: bool, addr: MObj -> string)
    ensures ToExtString(x, d1, useDebug, addr) == ToExtString(x, d2, useDebug, addr)
    decreases Rank(x)
  {
    if x.Instance? {
      match (if useDebug then StrDebug(x, addr) else StrNice(x, addr))
      case Failure(_) =>
      case Success(y) => DepthIgnored(y, d1 + 1, d2 + 1, useDebug, addr);
    }
  }

  /**
   * One step of the recursion: the debug path is taken exactly when
   * `use_debug` holds, and the form's error is the result's error.
   */
  lemma ExtStringStep(x: MObj, depth: nat, useDebug: bool, addr: MObj -> string)
    requires x.Instance?
    ensures var form := if useDebug then StrDebug(x, addr) else StrNice(x, addr);
      ToExtString(x, depth, useDebug, addr) ==
        if form.Failure? then Failure(form.error) else ToExtString(form.value, depth + 1, useDebug, addr)
  {
  }

  /** An object without overrides converts to the default text, quoted on the debug path, at any depth. */
  lemma DefaultText(x: MObj, depth: nat, addr: MObj -> string)
    requires x.Instance? && x.nice.None? && x.debug.None?
    ensures ToExtString(x, depth, false, addr) == Success("object " + addr(x) + " of type `" + x.typeName + "`")
    ensures ToExtString(x, depth, true, addr) == Success("'" + ("object " + addr(x) + " of type `" + x.typeName + "`") + "'")
  {
    var t := "object " + addr(x) + " of type `" + x.typeName + "`";
    assert StrNice(x, addr) == StrDebug(x, addr) == Success(MString(t));
    assert ToExtString(x, depth, false, addr) == ToExtString(MString(t), depth + 1, false, addr);
    assert ToExtString(x, depth, true, addr) == ToExtString(MString(t), depth + 1, true, addr);
  }

  /**
   * A chain of nice overrides deeper than `MAX_EXTSTR_DEPTH` converts
   * without error: an object whose `str_nice` is an object whose `str_nice`
   * ... ends in a string, nested ten times, gives the string.
   */
  function Nested(n: nat, s: string): (r: MObj)
    ensures n == 0 <==> r.MString?
    ensures Rank(r) == n
  {
    if n == 0 then MString(s) else Instance("obj", Some(Success(Nested(n - 1, s))), Option.None)
  }

  lemma {:induction false} NestedConverts(n: nat, s: string, depth: nat, addr: MObj -> string)
    ensures ToExtString(Nested(n, s), depth, false, addr) == Success(s)
  {
    if n > 0 {
      NestedConverts(n - 1, s, depth + 1, addr);
    }
  }

  lemma NoDepthError(s: string, addr: MObj -> string)
    ensures ToExtString(Nested(MAX_EXTSTR_DEPTH + 2, s), 0, false, addr) == Success(s)
  {
    NestedConverts(MAX_EXTSTR_DEPTH + 2, s, 0, addr);
  }
}
