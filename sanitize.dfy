/**
 * The escaper of rx.ts (`sanitizeRegex`): every regular-expression
 * metacharacter of a plain string gets one backslash in front of it, every
 * other character is copied unchanged. `Unescape` is its inverse: it reads
 * escaped text back the way a pattern without the `u` or `v` flag reads an
 * identity escape.
 */
module Sanitize {

  datatype Option<T> = None | Some(value: T)

  /** The sixteen characters of the class `[-[\]/{}()*+?.\\^$|]`. */
  predicate IsMeta(c: char) {
    || c == '-' || c == '[' || c == ']' || c == '/'
    || c == '{' || c == '}' || c == '(' || c == ')'
    || c == '*' || c == '+' || c == '?' || c == '.'
    || c == '\\' || c == '^' || c == '$' || c == '|'
  }

  /** Number of metacharacters in `s`. */
  function CountMeta(s: string): nat {
    if s == [] then 0 else (if IsMeta(s[0]) then 1 else 0) + CountMeta(s[1..])
  }

  /**
   * What one character of the input becomes (the replacement `\\$&`): the
   * character itself, last, after one backslash exactly when it is a
   * metacharacter, and text that reads back as that character alone.
   */
  function EscapeChar(c: char): (r: string)
    ensures |r| == if IsMeta(c) then 2 else 1
    ensures r[|r| - 1] == c
    ensures Unescape(r) == Some([c])
  {
    if IsMeta(c) then
      var r := ['\\', c];
      assert r[0] == '\\' && r[1] == c && r[2..] == [];
      assert Unescape(r[2..]) == Some([]) && [c] + [] == [c];
      r
    else
      var r := [c];
      assert r[0] == c && c != '\\' && r[1..] == [];
      assert Unescape(r[1..]) == Some([]) && [c] + [] == [c];
      r
  }

  /** `sanitizeRegex`: a global replace of every metacharacter, left to right. */
  function Escape(s: string): (r: string)
    ensures |r| == |s| + CountMeta(s)
    ensures r == [] <==> s == []
  {
    if s == [] then [] else EscapeChar(s[0]) + Escape(s[1..])
  }

  /**
   * Reads escaped text back: a backslash must be followed by a
   * metacharacter, and a metacharacter may not stand on its own.
   */
  function Unescape(r: string): Option<string> {
    if r == [] then Some([])
    else if r[0] == '\\' then
      if |r| >= 2 && IsMeta(r[1]) then
        match Unescape(r[2..])
        case Some(t) => Some([r[1]] + t)
        case None => None
      else None
    else if IsMeta(r[0]) then None
    else
      match Unescape(r[1..])
      case Some(t) => Some([r[0]] + t)
      case None => None
  }

  lemma {:induction false} CountMetaConcat(a: string, b: string)
    ensures CountMeta(a + b) == CountMeta(a) + CountMeta(b)
  {
    if a != [] {
      assert (a + b)[1..] == a[1..] + b;
      CountMetaConcat(a[1..], b);
    } else {
      assert a + b == b;
    }
  }

  /** Escaping works character by character, so it distributes over concatenation. */
  lemma {:induction false} EscapeConcat(a: string, b: string)
    ensures Escape(a + b) == Escape(a) + Escape(b)
  {
    if a != [] {
      assert (a + b)[0] == a[0];
      assert (a + b)[1..] == a[1..] + b;
      EscapeConcat(a[1..], b);
    } else {
      assert a + b == b;
    }
  }

  /**
   * Exact position of each input character in the output: the character at
   * index i lands at i plus the number of metacharacters before it, with one
   * backslash in front of it exactly when it is a metacharacter.
   */
  lemma EscapeAt(s: string, i: nat)
    requires i < |s|
    ensures var p := i + CountMeta(s[..i]);
      if IsMeta(s[i]) then
        p + 1 < |Escape(s)| && Escape(s)[p] == '\\' && Escape(s)[p + 1] == s[i]
      else
        p < |Escape(s)| && Escape(s)[p] == s[i]
  {
    assert s == s[..i] + s[i..];
    EscapeConcat(s[..i], s[i..]);
    assert s[i..][0] == s[i];
  }

  /** Escaping leaves a string unchanged exactly when it holds no metacharacter. */
  lemma {:induction false} EscapeIdentity(s: string)
    ensures Escape(s) == s <==> CountMeta(s) == 0
  {
    if s != [] && CountMeta(s) == 0 {
      EscapeIdentity(s[1..]);
    }
  }

  /** The escaped text reads back as the original string. */
  lemma {:induction false} UnescapeEscape(s: string)
    ensures Unescape(Escape(s)) == Some(s)
  {
    if s != [] {
      var r := Escape(s);
      UnescapeEscape(s[1..]);
      if IsMeta(s[0]) {
        assert r == ['\\', s[0]] + Escape(s[1..]);
        assert r[0] == '\\' && r[1] == s[0] && r[2..] == Escape(s[1..]);
        assert Unescape(r) == Some([s[0]] + s[1..]);
        assert [s[0]] + s[1..] == s;
      } else {
        assert r == [s[0]] + Escape(s[1..]);
        assert r[0] == s[0] && r[1..] == Escape(s[1..]);
        assert r[0] != '\\' && !IsMeta(r[0]);
        assert Unescape(r) == Some([s[0]] + s[1..]);
        assert [s[0]] + s[1..] == s;
      }
    }
  }

  /** Only escaped text reads back: whatever `Unescape` accepts is the escape of its result. */
  lemma {:induction false} EscapeUnescape(r: string, s: string)
    requires Unescape(r) == Some(s)
    ensures Escape(s) == r
  {
    if r != [] {
      if r[0] == '\\' {
        var t := Unescape(r[2..]).value;
        EscapeUnescape(r[2..], t);
        assert s == [r[1]] + t;
        assert r == [r[0], r[1]] + r[2..];
      } else {
        var t := Unescape(r[1..]).value;
        EscapeUnescape(r[1..], t);
        assert s == [r[0]] + t;
        assert r == [r[0]] + r[1..];
      }
    }
  }

  /** Escaping is one-to-one: different plain strings never give the same pattern text. */
  lemma EscapeInjective(s: string, t: string)
    requires Escape(s) == Escape(t)
    ensures s == t
  {
    UnescapeEscape(s);
    UnescapeEscape(t);
  }

  /** Escaping is not idempotent: a backslash is doubled again on a second pass. */
  lemma EscapeNotIdempotent()
    ensures Escape("\\") == "\\\\"
    ensures Escape(Escape("\\")) == "\\\\\\\\"
  {
  }
}
