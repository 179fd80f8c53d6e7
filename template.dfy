/**
 * The fold that both template tags of rx.ts run over a tagged template:
 * `strings.slice(1).reduce((carry, string, index) => carry + render(values[index]) + string, strings[0])`.
 * A template always has one more segment than it has values.
 */
module Template {

  predicate WellFormed<T>(segments: seq<string>, values: seq<T>) {
    |segments| == |values| + 1
  }

  /**
   * The `reduce` callback applied to the remaining segments, from left to
   * right: what is already in the accumulator stays in front, and the last
   * segment ends the text.
   */
  function Reduce<T>(carry: string, rest: seq<string>, values: seq<T>, render: T -> string): (r: string)
    requires |rest| == |values|
    ensures |carry| <= |r| && r[..|carry|] == carry
    ensures rest != [] ==> |rest[|rest| - 1]| <= |r| && r[|r| - |rest[|rest| - 1]|..] == rest[|rest| - 1]
    decreases rest
  {
    if rest == [] then carry
    else
      var next := carry + render(values[0]) + rest[0];
      assert next[..|carry|] == carry;
      assert next[|next| - |rest[0]|..] == rest[0];
      assert rest[1..] != [] ==> rest[1..][|rest[1..]| - 1] == rest[|rest| - 1];
      Reduce(next, rest[1..], values[1..], render)
  }

  /** The whole fold, started from the first segment: the text starts with it and ends with the last. */
  function Interpolate<T>(segments: seq<string>, values: seq<T>, render: T -> string): (r: string)
    requires WellFormed(segments, values)
    ensures |segments[0]| <= |r| && r[..|segments[0]|] == segments[0]
    ensures var last := segments[|segments| - 1]; |last| <= |r| && r[|r| - |last|..] == last
  {
    assert values != [] ==> segments[1..][|segments[1..]| - 1] == segments[|segments| - 1];
    Reduce(segments[0], segments[1..], values, render)
  }

  /**
   * Independent reading of a template: first segment, then each rendered
   * value followed by the segment after it.
   */
  function Interleaving<T>(segments: seq<string>, values: seq<T>, render: T -> string): string
    requires WellFormed(segments, values)
  {
    if values == [] then segments[0]
    else segments[0] + render(values[0]) + Interleaving(segments[1..], values[1..], render)
  }

  /** Text already in the accumulator is never touched by the rest of the fold. */
  lemma {:induction false} ReducePrefix<T>(c: string, d: string, rest: seq<string>, values: seq<T>, render: T -> string)
    requires |rest| == |values|
    ensures Reduce(c + d, rest, values, render) == c + Reduce(d, rest, values, render)
    decreases rest
  {
    if rest != [] {
      assert c + d + render(values[0]) + rest[0] == c + (d + render(values[0]) + rest[0]);
      ReducePrefix(c, d + render(values[0]) + rest[0], rest[1..], values[1..], render);
    }
  }

  /** The left fold of the source builds exactly the ordered interleaving. */
  lemma {:induction false} InterpolateIsInterleaving<T>(segments: seq<string>, values: seq<T>, render: T -> string)
    requires WellFormed(segments, values)
    ensures Interpolate(segments, values, render) == Interleaving(segments, values, render)
  {
    if values != [] {
      var head := segments[0] + render(values[0]);
      assert segments[1..][1..] == segments[2..];
      ReducePrefix(head, segments[1], segments[2..], values[1..], render);
      InterpolateIsInterleaving(segments[1..], values[1..], render);
    }
  }

  /** A template without values is its one segment, unchanged. */
  lemma NoValues<T>(segment: string, render: T -> string)
    ensures Interpolate([segment], [], render) == segment
  {
  }

  /**
   * Value i lands between segment i and segment i + 1: the text is the
   * template before it, its rendering, and the template after it.
   */
  lemma {:induction false} ValueInPlace<T>(segments: seq<string>, values: seq<T>, render: T -> string, i: nat)
    requires WellFormed(segments, values) && i < |values|
    ensures Interleaving(segments, values, render)
         == Interleaving(segments[..i + 1], values[..i], render)
            + render(values[i])
            + Interleaving(segments[i + 1..], values[i + 1..], render)
  {
    if i == 0 {
      assert segments[..1] == [segments[0]];
      assert segments[1..][0] == segments[1];
    } else {
      ValueInPlace(segments[1..], values[1..], render, i - 1);
      assert segments[1..][..i] == segments[..i + 1][1..];
      assert values[1..][..i - 1] == values[..i][1..];
      assert segments[1..][i..] == segments[i + 1..];
      assert values[1..][i..] == values[i + 1..];
    }
  }

  /** Two renderings that agree on every value give the same text. */
  lemma {:induction false} InterpolateCongruent<T, U>(
    segments: seq<string>, values: seq<T>, render: T -> string, others: seq<U>, otherRender: U -> string)
    requires WellFormed(segments, values) && |others| == |values|
    requires forall i :: 0 <= i < |values| ==> render(values[i]) == otherRender(others[i])
    ensures Interpolate(segments, values, render) == Interpolate(segments, others, otherRender)
  {
    InterpolateIsInterleaving(segments, values, render);
    InterpolateIsInterleaving(segments, others, otherRender);
    InterleavingCongruent(segments, values, render, others, otherRender);
  }

  lemma {:induction false} InterleavingCongruent<T, U>(
    segments: seq<string>, values: seq<T>, render: T -> string, others: seq<U>, otherRender: U -> string)
    requires WellFormed(segments, values) && |others| == |values|
    requires forall i :: 0 <= i < |values| ==> render(values[i]) == otherRender(others[i])
    ensures Interleaving(segments, values, render) == Interleaving(segments, others, otherRender)
  {
    if values != [] {
      assert render(values[0]) == otherRender(others[0]);
      forall i | 0 <= i < |values| - 1
        ensures render(values[1..][i]) == otherRender(others[1..][i])
      {
        assert values[1..][i] == values[i + 1] && others[1..][i] == others[i + 1];
      }
      InterleavingCongruent(segments[1..], values[1..], render, others[1..], otherRender);
    }
  }
}
