/** The concrete cases the repository's tests state, checked against the model. */
module RxTests {
  import opened Sanitize
  import opened Literal
  import opened Placeholder
  import opened Rx

  /** A template without placeholders: `abc` gives the pattern `/abc/`. */
  lemma BasicPattern()
    ensures Call(TagCall(["abc"], [])) == Compiled(Pattern("abc", ""))
  {
  }

  /*
   * The sixteen-character case is assembled from four-character pieces:
   * each step below is kept small so that the solver evaluates only short
   * string literals.
   */

  lemma EscapeFirstQuarter()
    ensures Escape("-/\\^") == "\\-\\/\\\\\\^"
  {
  }

  lemma EscapeSecondQuarter()
    ensures Escape("$*+?") == "\\$\\*\\+\\?"
  {
  }

  lemma EscapeThirdQuarter()
    ensures Escape(".()|") == "\\.\\(\\)\\|"
  {
  }

  lemma EscapeFourthQuarter()
    ensures Escape("[]{}") == "\\[\\]\\{\\}"
  {
  }

  lemma QuartersOf(s: string)
    requires s == "-/\\^$*+?.()|[]{}"
    ensures s == s[..4] + s[4..8] + s[8..12] + s[12..]
    ensures s[..4] == "-/\\^" && s[4..8] == "$*+?" && s[8..12] == ".()|" && s[12..] == "[]{}"
  {
  }

  lemma {:induction false} EscapeOfFour(a: string, b: string, c: string, d: string)
    ensures Escape(a + b + c + d) == Escape(a) + Escape(b) + Escape(c) + Escape(d)
  {
    EscapeConcat(a, b);
    EscapeConcat(a + b, c);
    EscapeConcat(a + b + c, d);
  }

  lemma JoinQuarters(ea: string, eb: string, ec: string, ed: string)
    requires ea == "\\-\\/\\\\\\^" && eb == "\\$\\*\\+\\?"
    requires ec == "\\.\\(\\)\\|" && ed == "\\[\\]\\{\\}"
    ensures ea + eb + ec + ed == "\\-\\/\\\\\\^\\$\\*\\+\\?\\.\\(\\)\\|\\[\\]\\{\\}"
  {
  }

  /** The escaper on the sixteen metacharacters, as the test spells them (one test case, not a general lemma). */
  lemma {:induction false} EscapeAllMetacharacters(s: string)
    requires s == "-/\\^$*+?.()|[]{}"
    ensures Escape(s) == "\\-\\/\\\\\\^\\$\\*\\+\\?\\.\\(\\)\\|\\[\\]\\{\\}"
  {
    var a, b, c, d := s[..4], s[4..8], s[8..12], s[12..];
    QuartersOf(s);
    EscapeOfFour(a, b, c, d);
    EscapeFirstQuarter();
    EscapeSecondQuarter();
    EscapeThirdQuarter();
    EscapeFourthQuarter();
    JoinQuarters(Escape(a), Escape(b), Escape(c), Escape(d));
  }

  /** Every metacharacter of a plain string placeholder is escaped (one test case, not a general lemma). */
  lemma {:induction false} EscapesControlCharacters(s: string)
    requires s == "-/\\^$*+?.()|[]{}"
    ensures Tag(["", ""], [Str(s)]).source
         == "\\-\\/\\\\\\^\\$\\*\\+\\?\\.\\(\\)\\|\\[\\]\\{\\}"
  {
    OnePlaceholder("", Str(s), "");
    EscapeAllMetacharacters(s);
    assert "" + Escape(s) + "" == Escape(s);
  }

  /** `rx('i')` then `foo` gives `/foo/i`. */
  lemma FlagsFactory()
    ensures Call(FlagsCall("i")).tag.Apply(["foo"], []) == Pattern("foo", "i")
  {
  }

  /** `r${/./}x` gives `/r.x/`. */
  lemma EmbeddedRegExp()
    ensures Tag(["r", "x"], [Re(".")]).source == "r.x"
  {
    RegExpVerbatim("r", ".", "x");
  }

  /** `r${rx.raw('.')}x` and `r${rx.raw`.`}x` both give `/r.x/`. */
  lemma EmbeddedLiterals()
    ensures Tag(["r", "x"], [Lit(CreateRxLiteral(FromString(".")))]).source == "r.x"
    ensures Tag(["r", "x"], [Lit(CreateRxLiteral(FromTemplate(["."], [])))]).source == "r.x"
  {
    LiteralVerbatim("r", ".", "x");
    assert CreateRxLiteral(FromTemplate(["."], [])) == LiteralFromString(".");
  }

  /** `${['r', '.', 'x']}` gives `/r|\.|x/`. */
  lemma {:induction false} ArrayOfStrings()
    ensures Tag(["", ""], [Arr([Str("r"), Str("."), Str("x")])]).source == "r|\\.|x"
  {
    ArrayAlternation(Str("r"), [Str("."), Str("x")]);
    ArrayAlternation(Str("."), [Str("x")]);
    assert [Str("r")] + [Str("."), Str("x")] == [Str("r"), Str("."), Str("x")];
    assert [Str(".")] + [Str("x")] == [Str("."), Str("x")];
    assert Resolve(Str("r")) == "r" && Resolve(Str(".")) == "\\." && Resolve(Str("x")) == "x";
    assert Resolve(Arr([Str("x")])) == "x";
    OnePlaceholder("", Arr([Str("r"), Str("."), Str("x")]), "");
  }

  /** A four-element array contributes its elements' texts with a `|` between neighbours. */
  lemma {:induction false} FourAlternatives(a: Value, b: Value, c: Value, d: Value)
    ensures Resolve(Arr([a, b, c, d])) == Resolve(a) + "|" + Resolve(b) + "|" + Resolve(c) + "|" + Resolve(d)
  {
    ArrayAlternation(a, [b, c, d]);
    ArrayAlternation(b, [c, d]);
    ArrayAlternation(c, [d]);
    assert [a] + [b, c, d] == [a, b, c, d];
    assert [b] + [c, d] == [b, c, d];
    assert [c] + [d] == [c, d];
    assert Resolve(Arr([d])) == Resolve(d);
  }

  /** `${['r', /./, dot, 'x']}` gives `/r|.|.|x/` for any value `dot` contributing `.`. */
  lemma {:induction false} ArrayAroundDot(dot: Value)
    requires Resolve(dot) == "."
    ensures Tag(["", ""], [Arr([Str("r"), Re("."), dot, Str("x")])]).source == "r|.|.|x"
  {
    FourAlternatives(Str("r"), Re("."), dot, Str("x"));
    assert Resolve(Str("r")) == "r" && Resolve(Str("x")) == "x";
    OnePlaceholder("", Arr([Str("r"), Re("."), dot, Str("x")]), "");
  }

  /** `${['r', /./, rx.raw`.`, 'x']}` gives `/r|.|.|x/` (one test case, not a general lemma). */
  lemma ArrayOfMixedValues(dot: RxLiteral)
    requires dot == CreateRxLiteral(FromTemplate(["."], []))
    ensures Tag(["", ""], [Arr([Str("r"), Re("."), Lit(dot), Str("x")])]).source == "r|.|.|x"
  {
    assert dot == RxLiteral(".");
    ArrayAroundDot(Lit(dot));
  }

  /** `${['r', ['x']]}` gives `/r|x/`. */
  lemma {:induction false} NestedArray()
    ensures Tag(["", ""], [Arr([Str("r"), Arr([Str("x")])])]).source == "r|x"
  {
    ArrayAlternation(Str("r"), [Arr([Str("x")])]);
    assert [Str("r")] + [Arr([Str("x")])] == [Str("r"), Arr([Str("x")])];
    assert Resolve(Str("r")) == "r" && Resolve(Str("x")) == "x";
    assert Resolve(Arr([Str("x")])) == "x";
    assert Resolve(Arr([Arr([Str("x")])])) == "x";
    OnePlaceholder("", Arr([Str("r"), Arr([Str("x")])]), "");
  }

  /** `${['r', ['x', /./]]}` gives `/r|x|./`: the nested regular expression is not escaped. */
  lemma {:induction false} NestedArrayNotDoubleEscaped()
    ensures Tag(["", ""], [Arr([Str("r"), Arr([Str("x"), Re(".")])])]).source == "r|x|."
  {
    var inner := Arr([Str("x"), Re(".")]);
    ArrayAlternation(Str("r"), [inner]);
    ArrayAlternation(Str("x"), [Re(".")]);
    assert [Str("r")] + [inner] == [Str("r"), inner];
    assert [Str("x")] + [Re(".")] == [Str("x"), Re(".")];
    assert Resolve(Str("r")) == "r" && Resolve(Str("x")) == "x";
    assert Resolve(Arr([Re(".")])) == ".";
    assert Resolve(Arr([inner])) == Resolve(inner);
    OnePlaceholder("", Arr([Str("r"), inner]), "");
  }
}
