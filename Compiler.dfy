/**
 * Literal evaluation in the tree-walking compiler: values computed for
 * parse-tree nodes are kept in a map keyed by each node's rule index and
 * token interval, integer and boolean literals are read from their token
 * text, and list literals collect their entries' values.
 */
module Compiler {
  import opened Wrappers
  import opened Decimal

  /** The lexer's token kinds the integer literal rule tells apart. */
  datatype TokenType = DecInt | HexInt | BinInt | OtherToken

  /**
   * A parse-tree node as the visitor sees it: its rule, its token interval,
   * its text, the kind of its first token, whether it is an expression, and
   * its children in order.
   */
  datatype Node = Node(rule: nat, start: int, stop: int, text: string, token: TokenType, isExpr: bool, children: seq<Node>)

  /** The values the compiler computes for expressions; floats are not modelled. */
  datatype LitValue =
    | Bool(b: bool)
    | Int(i: I64)
    | String(s: string)
    | List(items: seq<LitValue>)
    | Dict(entries: map<string, LitValue>)
    | None

  datatype Key = Key(rule: nat, start: int, stop: int)

  /** `key_for_ctx`: the node's rule index and token interval. */
  function KeyForCtx(n: Node): (k: Key)
    ensures k.rule == n.rule && k.start == n.start && k.stop == n.stop
  {
    Key(n.rule, n.start, n.stop)
  }

  /** Nodes are told apart only by their key: two nodes with the same rule and interval share a slot. */
  lemma SharedSlot<V>(m: map<Key, V>, n1: Node, n2: Node, v: V)
    requires n1.rule == n2.rule && n1.start == n2.start && n1.stop == n2.stop
    ensures KeyForCtx(n1) == KeyForCtx(n2)
    ensures Stored(m[KeyForCtx(n1) := v], n2) == Some(v)
  {
  }

  /** What a map holds for a node. */
  function Stored<V>(m: map<Key, V>, n: Node): (r: Option<V>)
    ensures r.Some? <==> KeyForCtx(n) in m
    ensures r.Some? ==> r.value == m[KeyForCtx(n)]
  {
    if KeyForCtx(n) in m then Some(m[KeyForCtx(n)]) else Option.None
  }

  /**
   * `set` then `get`: the node reads back the value just set, overwriting
   * whatever was there; a node with another key reads what it read before.
   */
  lemma SetThenGet<V>(m: map<Key, V>, n: Node, v: V, other: Node)
    ensures Stored(m[KeyForCtx(n) := v], n) == Some(v)
    ensures KeyForCtx(other) != KeyForCtx(n) ==> Stored(m[KeyForCtx(n) := v], other) == Stored(m, other)
  {
  }

  /** `remove` then `get`: the node's key is gone, and no other key is touched. */
  lemma RemoveThenGet<V>(m: map<Key, V>, n: Node, other: Node)
    ensures Stored(m - {KeyForCtx(n)}, n).None?
    ensures KeyForCtx(other) != KeyForCtx(n) ==> Stored(m - {KeyForCtx(n)}, other) == Stored(m, other)
  {
  }

  /** `TreeAttributeMap`: a map from parse-tree nodes, by key, to values. */
  class TreeAttributeMap<V> {
    var base: map<Key, V>

    constructor ()
      ensures base == map[]
    {
      base := map[];
    }

    function Get(n: Node): (r: Option<V>)
      reads this
      ensures r == Stored(base, n)
    {
      Stored(base, n)
    }

    method Set(n: Node, v: V)
      modifies this
      ensures base == old(base)[KeyForCtx(n) := v]
    {
      base := base[KeyForCtx(n) := v];
    }

    /** `remove`: the value that was stored for the node, which is then no longer stored. */
    method Remove(n: Node) returns (r: Option<V>)
      modifies this
      ensures r == Stored(old(base), n)
      ensures base == old(base) - {KeyForCtx(n)}
    {
      r := Stored(base, n);
      base := base - {KeyForCtx(n)};
    }
  }

  /** `replace("_", "")`: the text with every underscore dropped. */
  function RemoveUnderscores(s: string): (r: string)
    ensures |r| <= |s|
    ensures forall i | 0 <= i < |r| :: r[i] != '_'
  {
    if s == [] then []
    else if s[0] == '_' then RemoveUnderscores(s[1..])
    else [s[0]] + RemoveUnderscores(s[1..])
  }

  /** Only underscores are dropped: every other character keeps its number of occurrences. */
  lemma {:induction false} RemoveUnderscoresDropsOnly(s: string)
    ensures multiset(RemoveUnderscores(s)) == multiset(s)['_' := 0]
    ensures |RemoveUnderscores(s)| == |s| - multiset(s)['_']
  {
    if s != [] {
      RemoveUnderscoresDropsOnly(s[1..]);
      assert s == [s[0]] + s[1..];
      assert multiset(s) == multiset{s[0]} + multiset(s[1..]);
    }
  }

  /** Dropping underscores keeps every other character, in order: it distributes over concatenation. */
  lemma {:induction false} RemoveUnderscoresAppend(a: string, b: string)
    ensures RemoveUnderscores(a + b) == RemoveUnderscores(a) + RemoveUnderscores(b)
  {
    if a == [] {
      assert a + b == b;
    } else {
      assert (a + b)[0] == a[0] && (a + b)[1..] == a[1..] + b;
      RemoveUnderscoresAppend(a[1..], b);
    }
  }

  /** Text without underscores is left as it is. */
  lemma {:induction false} RemoveUnderscoresKeeps(s: string)
    requires forall i | 0 <= i < |s| :: s[i] != '_'
    ensures RemoveUnderscores(s) == s
  {
    if s != [] {
      RemoveUnderscoresKeeps(s[1..]);
    }
  }

  /**
   * The value of an integer literal: underscores are dropped, then a decimal
   * literal is read in radix 10, and a hex or binary one, without its first
   * two characters, in radix 16 or 2. Any other token kind, text too short
   * to drop the prefix from, or text that does not parse is a panic in the
   * program, here `None`.
   */
  function ParseIntLiteral(text: string, token: TokenType): (r: Option<I64>)
    ensures token == OtherToken ==> r.None?
    ensures token == DecInt ==> r == FromStrRadix(RemoveUnderscores(text), 10)
    ensures token == HexInt ==>
      r == var c := RemoveUnderscores(text); if |c| < 2 then Option.None else FromStrRadix(c[2..], 16)
    ensures token == BinInt ==>
      r == var c := RemoveUnderscores(text); if |c| < 2 then Option.None else FromStrRadix(c[2..], 2)
  {
    var content := RemoveUnderscores(text);
    match token
    case DecInt => FromStrRadix(content, 10)
    case HexInt => if |content| < 2 then Option.None else FromStrRadix(content[2..], 16)
    case BinInt => if |content| < 2 then Option.None else FromStrRadix(content[2..], 2)
    case OtherToken => Option.None
  }

  /** Every `i64`, written in decimal, is a decimal literal of its own value. */
  lemma DecimalLiteralRoundTrip(n: I64)
    ensures ParseIntLiteral(IntToString(n), DecInt) == Some(n)
  {
    var s := IntToString(n);
    assert forall i | 0 <= i < |s| :: s[i] != '_' by {
      if n >= 0 {
        assert AllDigits(s, 10);
      } else {
        assert AllDigits(s[1..], 10);
        assert forall i | 1 <= i < |s| :: s[i] == s[1..][i - 1];
      }
    }
    RemoveUnderscoresKeeps(s);
    DecimalRoundTrip(n);
  }

  /** Underscores may separate the digits anywhere: "1_000" is a thousand. */
  lemma UnderscoredDecimal()
    ensures ParseIntLiteral("1_000", DecInt) == Some(1000)
  {
    assert RemoveUnderscores("1_000") == "1000" by {
      assert "1_000"[1..] == "_000" && "_000"[1..] == "000";
      assert RemoveUnderscores("000") == "000" by {
        RemoveUnderscoresKeeps("000");
      }
    }
    assert AllDigits("1000", 10);
    assert "1"[..0] == "" && DigitsValue("1", 10) == 1;
    assert "10"[..1] == "1" && DigitsValue("10", 10) == 10;
    assert "100"[..2] == "10" && DigitsValue("100", 10) == 100;
    assert "1000"[..3] == "100" && DigitsValue("1000", 10) == 1000;
  }

  /** A hex literal drops its "0x" prefix: "0x2A" is 42. */
  lemma HexLiteral()
    ensures ParseIntLiteral("0x2A", HexInt) == Some(42)
  {
    RemoveUnderscoresKeeps("0x2A");
    var d := "0x2A"[2..];
    assert d == "2A";
    assert AllDigits(d, 16);
    assert d[..1] == "2" && d[..1][..0] == "";
    assert DigitsValue(d, 16) == 42;
  }

  /** A binary literal drops its "0b" prefix after the underscores are gone: "0b1_01" is 5. */
  lemma BinaryLiteral()
    ensures ParseIntLiteral("0b1_01", BinInt) == Some(5)
  {
    assert RemoveUnderscores("0b1_01") == "0b101" by {
      RemoveUnderscoresAppend("0b1", "_01");
      RemoveUnderscoresKeeps("0b1");
      assert "_01"[1..] == "01";
      RemoveUnderscoresKeeps("01");
    }
    var d := "0b101"[2..];
    assert d == "101";
    assert AllDigits(d, 2);
    assert d[..2] == "10" && d[..2][..1] == "1" && d[..2][..1][..0] == "";
    assert DigitsValue(d, 2) == 5;
  }

  /** Too short to drop the prefix from, or of any other token kind, a literal does not evaluate. */
  lemma RejectedLiterals()
    ensures ParseIntLiteral("0x", HexInt).None? && ParseIntLiteral("1", BinInt).None?
    ensures ParseIntLiteral("12", OtherToken).None?
  {
    RemoveUnderscoresKeeps("0x");
    assert "0x"[2..] == [];
    RemoveUnderscoresKeeps("1");
  }

  /** `visit_bool`: a boolean literal is true exactly when its text is "true". */
  function BoolLiteral(text: string): (r: LitValue)
    ensures r.Bool? && (r.b <==> text == "true")
  {
    Bool(text == "true")
  }

  /** The expression children of a node, in order. */
  function ExprChildren(n: Node): (r: seq<Node>)
    ensures |r| <= |n.children|
    ensures forall c | c in r :: c in n.children && c.isExpr
    ensures forall c | c in n.children && c.isExpr :: c in r
  {
    Filter(n.children)
  }

  function Filter(cs: seq<Node>): (r: seq<Node>)
    ensures |r| <= |cs|
    ensures forall c | c in r :: c in cs && c.isExpr
    ensures forall c | c in cs && c.isExpr :: c in r
  {
    if cs == [] then []
    else if cs[0].isExpr then [cs[0]] + Filter(cs[1..])
    else Filter(cs[1..])
  }

  /** Filtering keeps order: the expressions of a sequence of children are those of its front followed by those of its back. */
  lemma {:induction false} FilterAppend(a: seq<Node>, b: seq<Node>)
    ensures Filter(a + b) == Filter(a) + Filter(b)
  {
    if a != [] {
      assert (a + b)[0] == a[0];
      assert (a + b)[1..] == a[1..] + b;
      FilterAppend(a[1..], b);
    } else {
      assert a + b == b;
    }
  }

  /** One child is kept exactly when it is an expression. */
  lemma FilterOne(c: Node)
    ensures Filter([c]) == if c.isExpr then [c] else []
  {
    assert [c][1..] == [];
  }

  /** Children that are all expressions are all kept, in order. */
  lemma {:induction false} FilterKeepsExpressions(cs: seq<Node>)
    requires forall c | c in cs :: c.isExpr
    ensures Filter(cs) == cs
  {
    if cs != [] {
      assert cs[0] in cs;
      FilterKeepsExpressions(cs[1..]);
      assert [cs[0]] + cs[1..] == cs;
    }
  }

  /** Every expression child keeps its number of occurrences, and every other child is dropped. */
  lemma {:induction false} FilterMultiplicity(cs: seq<Node>, c: Node)
    ensures multiset(Filter(cs))[c] == if c.isExpr then multiset(cs)[c] else 0
  {
    if cs != [] {
      FilterMultiplicity(cs[1..], c);
      assert cs == [cs[0]] + cs[1..];
      assert multiset(cs) == multiset{cs[0]} + multiset(cs[1..]);
      if cs[0].isExpr {
        assert multiset(Filter(cs)) == multiset{cs[0]} + multiset(Filter(cs[1..]));
      }
    }
  }

  /** The values stored for some nodes, in their order, when every one of them has one. */
  function Values(m: map<Key, LitValue>, cs: seq<Node>): (r: Option<seq<LitValue>>)
    ensures r.Some? <==> forall i | 0 <= i < |cs| :: KeyForCtx(cs[i]) in m
    ensures r.Some? ==> |r.value| == |cs| && forall i | 0 <= i < |cs| :: r.value[i] == m[KeyForCtx(cs[i])]
  {
    if cs == [] then Some([])
    else
      var last := cs[|cs| - 1];
      var front := Values(m, cs[..|cs| - 1]);
      if front.None? || KeyForCtx(last) !in m then Option.None
      else Some(front.value + [m[KeyForCtx(last)]])
  }

  /** The visitor's attribute map of expression values, edited in place. */
  class InterpretingVisitor {
    const exprValue: TreeAttributeMap<LitValue>

    constructor ()
      ensures fresh(exprValue) && exprValue.base == map[]
    {
      exprValue := new TreeAttributeMap();
    }

    /**
     * `visit_numInt`: the literal's value is stored for the node. When the
     * literal does not evaluate the program panics; here nothing is stored
     * and `ok` is false.
     */
    method VisitNumInt(n: Node) returns (ok: bool)
      modifies exprValue
      ensures ok <==> ParseIntLiteral(n.text, n.token).Some?
      ensures ok ==> exprValue.base == old(exprValue.base)[KeyForCtx(n) := Int(ParseIntLiteral(n.text, n.token).value)]
      ensures !ok ==> exprValue.base == old(exprValue.base)
    {
      var v := ParseIntLiteral(n.text, n.token);
      if v.None? {
        return false;
      }
      exprValue.Set(n, Int(v.value));
      ok := true;
    }

    /** `visit_bool`. */
    method VisitBool(n: Node)
      modifies exprValue
      ensures exprValue.base == old(exprValue.base)[KeyForCtx(n) := BoolLiteral(n.text)]
    {
      exprValue.Set(n, BoolLiteral(n.text));
    }

    /**
     * `visit_listInit`: the values of the expression children, in child
     * order, become a list stored for the node. A child without a value is a
     * panic in the program; here nothing is stored and `ok` is false.
     */
    method VisitListInit(n: Node) returns (ok: bool)
      modifies exprValue
      ensures ok <==> Values(old(exprValue.base), ExprChildren(n)).Some?
      ensures ok ==> exprValue.base == old(exprValue.base)[KeyForCtx(n) := List(Values(old(exprValue.base), ExprChildren(n)).value)]
      ensures !ok ==> exprValue.base == old(exprValue.base)
    {
      var children := ExprChildren(n);
      var values: seq<LitValue> := [];
      var i := 0;
      while i < |children|
        invariant 0 <= i <= |children|
        invariant exprValue.base == old(exprValue.base)
        invariant Values(exprValue.base, children[..i]) == Some(values)
      {
        assert children[..i + 1][..i] == children[..i];
        var v := exprValue.Get(children[i]);
        if v.None? {
          assert Values(exprValue.base, children).None? by {
            assert KeyForCtx(children[i]) !in exprValue.base;
          }
          return false;
        }
        values := values + [v.value];
        i := i + 1;
      }
      assert children[..i] == children;
      exprValue.Set(n, List(values));
      ok := true;
    }

    /**
     * `visit_list_entry`: the value of the entry's first child is appended
     * to the list stored for the enclosing list node. A missing child, a
     * missing value or a non-list parent value is a panic; here nothing
     * changes and `ok` is false.
     */
    method VisitListEntry(n: Node, parent: Node) returns (ok: bool)
      modifies exprValue
      ensures ok <==>
        |n.children| > 0 && Stored(old(exprValue.base), n.children[0]).Some? &&
        Stored(old(exprValue.base), parent).Some? && Stored(old(exprValue.base), parent).value.List?
      ensures ok ==> exprValue.base == old(exprValue.base)[KeyForCtx(parent) :=
        List(Stored(old(exprValue.base), parent).value.items + [Stored(old(exprValue.base), n.children[0]).value])]
      ensures !ok ==> exprValue.base == old(exprValue.base)
    {
      if |n.children| == 0 {
        return false;
      }
      var value := exprValue.Get(n.children[0]);
      var list := exprValue.Get(parent);
      if value.None? || list.None? || !list.value.List? {
        return false;
      }
      exprValue.Set(parent, List(list.value.items + [value.value]));
      ok := true;
    }

    /**
     * `visit_brackets`: the value of the first expression child, as that
     * child's own visit left it, is copied to the node; a missing child or
     * value is a panic, here `ok` false with nothing changed.
     */
    method VisitBrackets(n: Node) returns (ok: bool)
      modifies exprValue
      ensures ok <==> |ExprChildren(n)| > 0 && Stored(old(exprValue.base), ExprChildren(n)[0]).Some?
      ensures ok ==> exprValue.base == old(exprValue.base)[KeyForCtx(n) := Stored(old(exprValue.base), ExprChildren(n)[0]).value]
      ensures !ok ==> exprValue.base == old(exprValue.base)
    {
      var children := ExprChildren(n);
      if |children| == 0 {
        return false;
      }
      var v := exprValue.Get(children[0]);
      if v.None? {
        return false;
      }
      exprValue.Set(n, v.value);
      ok := true;
    }
  }

  /**
   * A list literal evaluates to the list of its entries: starting from an
   * empty list stored for the list node, appending each entry's value in
   * turn gives the values in order.
   */
  lemma {:induction false} EntriesBuildList(m: map<Key, LitValue>, list: Node, entries: seq<LitValue>)
    requires KeyForCtx(list) in m && m[KeyForCtx(list)] == List([])
    ensures AppendAll(m, list, entries)[KeyForCtx(list)] == List(entries)
    decreases |entries|
  {
    if entries != [] {
      var front := entries[..|entries| - 1];
      EntriesBuildList(m, list, front);
      var before := AppendAll(m, list, front);
      assert before[KeyForCtx(list)].items == front;
      assert front + [entries[|entries| - 1]] == entries;
    }
  }

  /** The map after `visit_list_entry` appended each of `values` to the list stored for `list`. */
  function AppendAll(m: map<Key, LitValue>, list: Node, values: seq<LitValue>): (r: map<Key, LitValue>)
    requires KeyForCtx(list) in m && m[KeyForCtx(list)].List?
    ensures KeyForCtx(list) in r && r[KeyForCtx(list)].List?
    ensures r.Keys == m.Keys
    ensures forall k | k in m && k != KeyForCtx(list) :: r[k] == m[k]
    decreases |values|
  {
    if values == [] then m
    else
      var before := AppendAll(m, list, values[..|values| - 1]);
      before[KeyForCtx(list) := List(before[KeyForCtx(list)].items + [values[|values| - 1]])]
  }
}
