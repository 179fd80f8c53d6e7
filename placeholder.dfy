/**
 * `handlePlaceholder` of rx.ts: what one interpolated value contributes to
 * the pattern source. The rules are tried in order: a regular expression
 * gives its source, an `RxLiteral` its text, an array the `|`-join of its
 * elements' contributions, and anything else its escaped text.
 */
module Placeholder {
  import opened Sanitize
  import opened Literal

  /** An interpolated value, one variant per rule of `handlePlaceholder`. */
  datatype Value =
    | Re(source: string)
    | Lit(literal: RxLiteral)
    | Arr(items: seq<Value>)
    | Str(text: string)

  /** Total length of the parts. */
  function TotalLength(parts: seq<string>): nat {
    if parts == [] then 0 else |parts[0]| + TotalLength(parts[1..])
  }

  /**
   * `Array.prototype.join`: the parts with `sep` between neighbours. No
   * parts give the empty string and one part gives itself; `JoinEnds` and
   * `JoinLength` state what a longer list gives.
   */
  function Join(parts: seq<string>, sep: string): (r: string)
    ensures parts == [] ==> r == ""
    ensures |parts| == 1 ==> r == parts[0]
  {
    if |parts| == 0 then ""
    else if |parts| == 1 then parts[0]
    else parts[0] + sep + Join(parts[1..], sep)
  }

  /**
   * `handlePlaceholder`: a regular expression gives its source and a literal
   * its text, both unchanged; a plain string gives text that reads back as
   * that string; an empty array gives nothing. What a non-empty array gives
   * is stated by `ResolveEach`, `ArrayAlternation` and `Flatten`.
   */
  function Resolve(p: Value): (r: string)
    ensures p.Re? ==> r == p.source
    ensures p.Lit? ==> r == p.literal.value
    ensures p.Str? ==> Unescape(r) == Some(p.text)
    ensures p.Arr? && p.items == [] ==> r == ""
    decreases p
  {
    match p
    case Re(source) => source
    case Lit(literal) => literal.ToString()
    case Arr(items) => Join(ResolveEach(items), "|")
    case Str(text) => UnescapeEscape(text); Escape(text)
  }

  /** `placeholder.map(handlePlaceholder)`: one contribution per element, in order. */
  function ResolveEach(items: seq<Value>): (parts: seq<string>)
    ensures |parts| == |items|
    ensures forall i :: 0 <= i < |items| ==> parts[i] == Resolve(items[i])
    decreases items
  {
    if items == [] then [] else [Resolve(items[0])] + ResolveEach(items[1..])
  }

  /** True when no array anywhere inside `p` is empty. */
  predicate NoEmptyArray(p: Value)
    decreases p
  {
    match p
    case Arr(items) => |items| > 0 && forall i :: 0 <= i < |items| ==> NoEmptyArray(items[i])
    case _ => true
  }

  /** The non-array values of `p`, left to right, with every level of nesting removed. */
  function Leaves(p: Value): (leaves: seq<Value>)
    ensures forall q :: q in leaves ==> !q.Arr?
    decreases p
  {
    match p
    case Arr(items) => LeavesEach(items)
    case _ => [p]
  }

  function LeavesEach(items: seq<Value>): (leaves: seq<Value>)
    ensures forall q :: q in leaves ==> !q.Arr?
    decreases items
  {
    if items == [] then [] else Leaves(items[0]) + LeavesEach(items[1..])
  }

  /** The joined text starts with the first part and ends with the last. */
  lemma {:induction false} JoinEnds(parts: seq<string>, sep: string)
    requires parts != []
    ensures var r, first, last := Join(parts, sep), parts[0], parts[|parts| - 1];
      |first| <= |r| && r[..|first|] == first && |last| <= |r| && r[|r| - |last|..] == last
  {
    if |parts| > 1 {
      var r := Join(parts, sep);
      JoinEnds(parts[1..], sep);
      assert r == parts[0] + sep + Join(parts[1..], sep);
      assert r[..|parts[0]|] == parts[0];
      assert parts[1..][|parts[1..]| - 1] == parts[|parts| - 1];
    }
  }

  /** The joined text holds every part and one separator fewer than there are parts. */
  lemma {:induction false} JoinLength(parts: seq<string>, sep: string)
    requires parts != []
    ensures |Join(parts, sep)| == TotalLength(parts) + (|parts| - 1) * |sep|
  {
    if |parts| > 1 {
      JoinLength(parts[1..], sep);
      assert (|parts| - 1) * |sep| == |sep| + (|parts| - 2) * |sep|;
    }
  }

  /** Joining two non-empty lists is joining each and putting one separator between them. */
  lemma {:induction false} JoinAppend(a: seq<string>, b: seq<string>, sep: string)
    requires |a| > 0 && |b| > 0
    ensures Join(a + b, sep) == Join(a, sep) + sep + Join(b, sep)
    decreases |a|
  {
    if |a| == 1 {
      assert (a + b)[0] == a[0] && (a + b)[1..] == b;
    } else {
      assert (a + b)[0] == a[0] && (a + b)[1..] == a[1..] + b;
      JoinAppend(a[1..], b, sep);
    }
  }

  /** Resolving the elements of two lists one after the other is resolving each list. */
  lemma {:induction false} ResolveEachConcat(a: seq<Value>, b: seq<Value>)
    ensures ResolveEach(a + b) == ResolveEach(a) + ResolveEach(b)
  {
    assert |ResolveEach(a + b)| == |ResolveEach(a) + ResolveEach(b)|;
    forall i | 0 <= i < |a + b|
      ensures ResolveEach(a + b)[i] == (ResolveEach(a) + ResolveEach(b))[i]
    {
      if i >= |a| {
        assert (a + b)[i] == b[i - |a|];
      }
    }
  }

  /**
   * An array's contribution, element by element in order: the first
   * element's contribution, a `|`, then the rest of the array's.
   */
  lemma {:induction false} ArrayAlternation(first: Value, rest: seq<Value>)
    requires |rest| > 0
    ensures Resolve(Arr([first] + rest)) == Resolve(first) + "|" + Resolve(Arr(rest))
  {
    ResolveEachConcat([first], rest);
    JoinAppend(ResolveEach([first]), ResolveEach(rest), "|");
  }

  /**
   * Nested arrays flatten: when no array inside is empty, the contribution of
   * `p` is the `|`-join of the contributions of its non-array values, each
   * escaped once (if at all), in order.
   */
  lemma {:induction false} Flatten(p: Value)
    requires NoEmptyArray(p)
    ensures |Leaves(p)| > 0
    ensures Resolve(p) == Join(ResolveEach(Leaves(p)), "|")
    decreases p
  {
    match p
    case Arr(items) => FlattenEach(items);
    case _ =>
  }

  lemma {:induction false} FlattenEach(items: seq<Value>)
    requires |items| > 0
    requires forall i :: 0 <= i < |items| ==> NoEmptyArray(items[i])
    ensures |LeavesEach(items)| > 0
    ensures Join(ResolveEach(items), "|") == Join(ResolveEach(LeavesEach(items)), "|")
    decreases items
  {
    var first, rest := items[0], items[1..];
    assert items == [first] + rest;
    Flatten(first);
    if rest == [] {
      assert LeavesEach(items) == Leaves(first) + LeavesEach([]);
      assert LeavesEach(items) == Leaves(first);
      assert ResolveEach(items) == [Resolve(first)];
    } else {
      FlattenEach(rest);
      ArrayAlternation(first, rest);
      ResolveEachConcat(Leaves(first), LeavesEach(rest));
      JoinAppend(ResolveEach(Leaves(first)), ResolveEach(LeavesEach(rest)), "|");
    }
  }

  /**
   * The flattening needs non-empty arrays: an empty array joins to the empty
   * string, so `['r', []]` leaves a dangling `|` that its leaves do not.
   */
  lemma EmptyArrayKeepsSeparator()
    ensures Resolve(Arr([Str("r"), Arr([])])) == "r|"
    ensures Join(ResolveEach(Leaves(Arr([Str("r"), Arr([])]))), "|") == "r"
  {
    assert [Str("r"), Arr([])][1..] == [Arr([])];
  }
}
