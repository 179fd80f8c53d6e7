/**
 * The entry point `rx` of rx.ts: `replacer` builds a pattern from a tagged
 * template, and `rx` either runs it at once with empty flags (called as a
 * template tag) or hands back a tag bound to the flags string it was given.
 */
module Rx {
  import opened Sanitize
  import opened Template
  import opened Literal
  import opened Placeholder

  /** The `RegExp` built at the end: its pattern source and its flags. */
  datatype Pattern = Pattern(source: string, flags: string)

  /** `replacer(flags, strings, ...values)`. */
  function Replacer(flags: string, segments: seq<string>, values: seq<Value>): (re: Pattern)
    requires WellFormed(segments, values)
    ensures re.flags == flags
    ensures re.source == Interleaving(segments, values, Resolve)
  {
    InterpolateIsInterleaving(segments, values, Resolve);
    Pattern(Interpolate(segments, values, Resolve), flags)
  }

  /** The function `replacer.bind(undefined, flags)` returns. */
  datatype BoundTag = BoundTag(flags: string) {
    function Apply(segments: seq<string>, values: seq<Value>): (re: Pattern)
      requires WellFormed(segments, values)
      ensures re.flags == flags
      ensures re.source == Interleaving(segments, values, Resolve)
    {
      Replacer(flags, segments, values)
    }
  }

  /** Shape A: `rx` used directly as a template tag. */
  function Tag(segments: seq<string>, values: seq<Value>): (re: Pattern)
    requires WellFormed(segments, values)
    ensures re.flags == ""
    ensures re.source == Interleaving(segments, values, Resolve)
  {
    Replacer("", segments, values)
  }

  /**
   * Shape B: `rx(flags)`, a tag bound to `flags`. Applied to any template it
   * gives the source that `rx` used directly gives, with exactly `flags`.
   */
  function Factory(flags: string): (tag: BoundTag)
    ensures forall segments: seq<string>, values: seq<Value> :: WellFormed(segments, values) ==>
      tag.Apply(segments, values) == Pattern(Tag(segments, values).source, flags)
  {
    BoundTag(flags)
  }

  /** The two call shapes of `rx`, told apart by whether the first argument is an array. */
  datatype RxCall =
    | TagCall(segments: seq<string>, values: seq<Value>)
    | FlagsCall(flags: string)

  datatype RxResult = Compiled(pattern: Pattern) | TagFunction(tag: BoundTag)

  /** `rx(...args)`. */
  function Call(call: RxCall): (r: RxResult)
    requires call.TagCall? ==> WellFormed(call.segments, call.values)
    ensures call.TagCall? <==> r.Compiled?
    ensures call.TagCall? ==>
      r.pattern == Pattern(Interleaving(call.segments, call.values, Resolve), "")
    ensures call.FlagsCall? ==> r.tag.flags == call.flags
  {
    match call
    case TagCall(segments, values) => Compiled(Tag(segments, values))
    case FlagsCall(flags) => TagFunction(Factory(flags))
  }

  /**
   * A tag from `rx(flags)` builds the same source as `rx` used directly,
   * and carries exactly the flags it was bound to.
   */
  lemma FlagsOnlyChangeFlags(flags: string, segments: seq<string>, values: seq<Value>)
    requires WellFormed(segments, values)
    ensures Call(FlagsCall(flags)).tag.Apply(segments, values)
         == Pattern(Call(TagCall(segments, values)).pattern.source, flags)
  {
  }

  /** A template without values gives its one segment as the source. */
  lemma {:induction false} PlainTemplate(flags: string, text: string)
    ensures Factory(flags).Apply([text], []) == Pattern(text, flags)
  {
    NoValues<Value>(text, Resolve);
  }

  /**
   * Plain string values are escaped and nothing else is: the source is the
   * template with each value replaced by its escaped text.
   */
  lemma {:induction false} PlainValuesEscaped(segments: seq<string>, texts: seq<string>)
    requires WellFormed(segments, texts)
    ensures Tag(segments, seq(|texts|, i requires 0 <= i < |texts| => Str(texts[i]))).source
         == Interpolate(segments, texts, Escape)
  {
    var values := seq(|texts|, i requires 0 <= i < |texts| => Str(texts[i]));
    InterpolateCongruent(segments, values, Resolve, texts, Escape);
    InterpolateIsInterleaving(segments, values, Resolve);
  }

  /**
   * Literals are never escaped: a template whose values are all literals
   * gives the same text through `rx` as through `rx.raw`.
   */
  lemma {:induction false} LiteralsAsInRaw(segments: seq<string>, literals: seq<RxLiteral>)
    requires WellFormed(segments, literals)
    ensures Tag(segments, seq(|literals|, i requires 0 <= i < |literals| => Lit(literals[i]))).source
         == LiteralFromTemplate(segments, seq(|literals|, i requires 0 <= i < |literals| => Embedded(literals[i]))).ToString()
  {
    var values := seq(|literals|, i requires 0 <= i < |literals| => Lit(literals[i]));
    var embedded := seq(|literals|, i requires 0 <= i < |literals| => Embedded(literals[i]));
    InterleavingCongruent(segments, values, Resolve, embedded, Stringify);
  }

  /** A template with one placeholder: the placeholder's contribution between the two segments. */
  lemma {:induction false} OnePlaceholder(before: string, value: Value, after: string)
    ensures Tag([before, after], [value]).source == before + Resolve(value) + after
  {
    var values := [value];
    assert [before, after][1..] == [after] && values[1..] == [];
    assert Interleaving([before, after], values, Resolve)
        == before + Resolve(values[0]) + Interleaving([after], [], Resolve);
  }

  /** A literal made from a string contributes that string, whatever it holds. */
  lemma {:induction false} LiteralVerbatim(before: string, text: string, after: string)
    ensures Tag([before, after], [Lit(LiteralFromString(text))]).source == before + text + after
  {
    OnePlaceholder(before, Lit(LiteralFromString(text)), after);
  }

  /** A regular expression contributes its source, whatever it holds. */
  lemma {:induction false} RegExpVerbatim(before: string, source: string, after: string)
    ensures Tag([before, after], [Re(source)]).source == before + source + after
  {
    OnePlaceholder(before, Re(source), after);
  }
}
