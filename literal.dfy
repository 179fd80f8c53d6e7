/**
 * `RxLiteral` and `createRxLiteral` (exposed as `rx.raw`): a piece of
 * pattern text the author declares to be regular-expression syntax already,
 * so that the template tag inlines it without escaping.
 */
module Literal {
  import opened Template

  /** The class `RxLiteral`: one private string, never reassigned. */
  datatype RxLiteral = RxLiteral(value: string) {
    /** `toString()` hands back the wrapped text: the literal is recovered from it. */
    function ToString(): (r: string)
      ensures RxLiteral(r) == this
    {
      value
    }
  }

  /**
   * What the template form of `createRxLiteral` accepts as a value: a plain
   * string or another literal.
   */
  datatype LiteralValue = Text(text: string) | Embedded(literal: RxLiteral)

  /**
   * The string form `String.prototype.concat` gives a value: a literal
   * through its `toString`. Nothing is escaped or added: the value is its
   * kind around its string form.
   */
  function Stringify(v: LiteralValue): (r: string)
    ensures v == if v.Text? then Text(r) else Embedded(RxLiteral(r))
  {
    match v
    case Text(s) => s
    case Embedded(lit) => lit.ToString()
  }

  /** The two call shapes of `createRxLiteral`, told apart by whether the first argument is an array. */
  datatype RawCall =
    | FromString(text: string)
    | FromTemplate(segments: seq<string>, values: seq<LiteralValue>)

  /** `createRxLiteral(value)`: the string is wrapped verbatim. */
  function LiteralFromString(s: string): (lit: RxLiteral)
    ensures lit.ToString() == s
  {
    RxLiteral(s)
  }

  /**
   * `createRxLiteral` as a template tag: segments and values concatenated in
   * order, nothing escaped.
   */
  function LiteralFromTemplate(segments: seq<string>, values: seq<LiteralValue>): (lit: RxLiteral)
    requires WellFormed(segments, values)
    ensures lit.ToString() == Interleaving(segments, values, Stringify)
  {
    InterpolateIsInterleaving(segments, values, Stringify);
    RxLiteral(Interpolate(segments, values, Stringify))
  }

  /** `createRxLiteral(...args)`: array first argument means a template, anything else a string. */
  function CreateRxLiteral(call: RawCall): (lit: RxLiteral)
    requires call.FromTemplate? ==> WellFormed(call.segments, call.values)
    ensures call.FromString? ==> lit.ToString() == call.text
    ensures call.FromTemplate? ==> lit.ToString() == Interleaving(call.segments, call.values, Stringify)
  {
    match call
    case FromString(s) => LiteralFromString(s)
    case FromTemplate(segments, values) => LiteralFromTemplate(segments, values)
  }

  /**
   * Nesting literals changes nothing: a template whose only value is a
   * literal gives the text of the segments around that literal's own text.
   */
  lemma EmbeddedLiteralText(before: string, inner: RxLiteral, after: string)
    ensures LiteralFromTemplate([before, after], [Embedded(inner)]).ToString() == before + inner.value + after
  {
    var values := [Embedded(inner)];
    assert [before, after][1..] == [after] && values[1..] == [];
    assert Interleaving([before, after], values, Stringify)
        == before + Stringify(values[0]) + Interleaving([after], [], Stringify);
  }
}
