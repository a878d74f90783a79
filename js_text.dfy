/**
 * The fragment of JavaScript's value and string semantics that the record
 * service and the list page rely on: truthiness of optional strings,
 * `replace(/\D/g, '')`, ASCII `toLowerCase`, `includes` and `split('T')[0]`.
 */
module JsText {

  datatype Option<+T> = None | Some(value: T)

  /** `undefined`, `null` and `''` are falsy; every other string is truthy. */
  predicate Truthy(s: Option<string>) {
    s.Some? && s.value != ""
  }

  /** `a || b` on values that are strings, `undefined` or `null`. */
  function Or(a: Option<string>, b: Option<string>): Option<string> {
    if Truthy(a) then a else b
  }

  /** `\d` in a JavaScript regular expression without the `u` flag. */
  predicate IsDigit(c: char) {
    '0' <= c <= '9'
  }

  predicate AllDigits(s: string) {
    forall i :: 0 <= i < |s| ==> IsDigit(s[i])
  }

  /** `s.replace(/\D/g, '')`: every non-digit removed, the digits kept in order. */
  function StripNonDigits(s: string): (r: string)
    ensures AllDigits(r)
    ensures |r| <= |s|
  {
    if s == [] then []
    else
      var last := s[|s| - 1];
      StripNonDigits(s[..|s| - 1]) + (if IsDigit(last) then [last] else [])
  }

  /** `b` contains the elements of `a`, in order, possibly with others in between. */
  ghost predicate IsSubsequence<T>(a: seq<T>, b: seq<T>)
    decreases |b|
  {
    if b == [] then a == []
    else
      IsSubsequence(a, b[..|b| - 1])
      || (a != [] && a[|a| - 1] == b[|b| - 1] && IsSubsequence(a[..|a| - 1], b[..|b| - 1]))
  }

  lemma {:induction false} StripNonDigitsAppend(a: string, b: string)
    ensures StripNonDigits(a + b) == StripNonDigits(a) + StripNonDigits(b)
    decreases |b|
  {
    if b == [] {
      assert a + b == a;
    } else {
      var b' := b[..|b| - 1];
      assert (a + b)[..|a + b| - 1] == a + b';
      StripNonDigitsAppend(a, b');
    }
  }

  /** A string of digits only is left as it is. */
  lemma {:induction false} StripNonDigitsOfDigits(s: string)
    requires AllDigits(s)
    ensures StripNonDigits(s) == s
  {
    if s != [] {
      StripNonDigitsOfDigits(s[..|s| - 1]);
    }
  }

  /** The stripped string is obtained from the input by deletions only. */
  lemma {:induction false} StripNonDigitsIsSubsequence(s: string)
    ensures IsSubsequence(StripNonDigits(s), s)
  {
    if s != [] {
      var s' := s[..|s| - 1];
      StripNonDigitsIsSubsequence(s');
      var r := StripNonDigits(s);
      if IsDigit(s[|s| - 1]) {
        assert r[..|r| - 1] == StripNonDigits(s');
      } else {
        assert r == StripNonDigits(s');
      }
    }
  }

  /** Every occurrence of every digit is kept, and no other character survives. */
  lemma {:induction false} StripNonDigitsCounts(s: string, c: char)
    ensures multiset(StripNonDigits(s))[c] == if IsDigit(c) then multiset(s)[c] else 0
  {
    if s != [] {
      var s' := s[..|s| - 1];
      var last := s[|s| - 1];
      StripNonDigitsCounts(s', c);
      assert s == s' + [last];
      assert multiset(s) == multiset(s') + multiset([last]);
    }
  }

  lemma StripNonDigitsIdempotent(s: string)
    ensures StripNonDigits(StripNonDigits(s)) == StripNonDigits(s)
  {
    StripNonDigitsOfDigits(StripNonDigits(s));
  }

  /** ASCII `toLowerCase` on one character. */
  function LowerChar(c: char): char {
    if 'A' <= c <= 'Z' then (c as int + 32) as char else c
  }

  /** `s.toLowerCase()`, restricted to ASCII letters. */
  function ToLower(s: string): (r: string)
    ensures |r| == |s|
    ensures forall i :: 0 <= i < |r| ==> !('A' <= r[i] <= 'Z')
    ensures forall i :: 0 <= i < |s| && !('A' <= s[i] <= 'Z') ==> r[i] == s[i]
    ensures forall i :: 0 <= i < |s| && 'A' <= s[i] <= 'Z' ==> r[i] as int == s[i] as int + 32
  {
    seq(|s|, i requires 0 <= i < |s| => LowerChar(s[i]))
  }

  /** `a` and `b` are the same character up to the case of an ASCII letter. */
  predicate MesmaLetra(a: char, b: char) {
    || a == b
    || ('A' <= a <= 'Z' && b as int == a as int + 32)
    || ('A' <= b <= 'Z' && a as int == b as int + 32)
  }

  /** `s` and `t` spell the same text up to the case of ASCII letters. */
  predicate IgualSemCaixa(s: string, t: string) {
    |s| == |t| && forall i :: 0 <= i < |s| ==> MesmaLetra(s[i], t[i])
  }

  /** Two strings lower-case alike exactly when they differ only in case. */
  lemma ToLowerIgnoraCaixa(s: string, t: string)
    ensures ToLower(s) == ToLower(t) <==> IgualSemCaixa(s, t)
  {
    if ToLower(s) == ToLower(t) {
      forall i | 0 <= i < |s|
        ensures MesmaLetra(s[i], t[i])
      {
        assert ToLower(s)[i] == ToLower(t)[i];
      }
    }
    if IgualSemCaixa(s, t) {
      forall i | 0 <= i < |s|
        ensures ToLower(s)[i] == ToLower(t)[i]
      {
        assert MesmaLetra(s[i], t[i]);
      }
    }
  }

  /** Lower-casing a lower-cased string changes nothing. */
  lemma ToLowerIdempotent(s: string)
    ensures ToLower(ToLower(s)) == ToLower(s)
  {
  }

  predicate IsPrefix(p: string, s: string) {
    |p| <= |s| && s[..|p|] == p
  }

  /** `hay.includes(needle)`: needle occurs somewhere in hay as a contiguous block. */
  predicate Includes(hay: string, needle: string)
    decreases |hay|
  {
    IsPrefix(needle, hay) || (hay != [] && Includes(hay[1..], needle))
  }

  /** `needle` occurs in `hay` starting at index `i`. */
  ghost predicate OccursAt(hay: string, needle: string, i: int) {
    0 <= i <= |hay| - |needle| && hay[i..i + |needle|] == needle
  }

  /** `Includes` agrees with the positional definition of a substring, both ways. */
  lemma {:induction false} IncludesAt(hay: string, needle: string)
    ensures Includes(hay, needle) <==> exists i :: OccursAt(hay, needle, i)
    decreases |hay|
  {
    if hay == [] {
      if Includes(hay, needle) {
        assert OccursAt(hay, needle, 0);
      }
      if exists i :: OccursAt(hay, needle, i) {
        var i :| OccursAt(hay, needle, i);
        assert needle == [];
      }
    } else {
      IncludesAt(hay[1..], needle);
      if IsPrefix(needle, hay) {
        assert OccursAt(hay, needle, 0);
      } else if Includes(hay[1..], needle) {
        var i :| OccursAt(hay[1..], needle, i);
        assert hay[1..][i..i + |needle|] == hay[i + 1..i + 1 + |needle|];
        assert OccursAt(hay, needle, i + 1);
      }
      if exists i :: OccursAt(hay, needle, i) {
        var i :| OccursAt(hay, needle, i);
        if i > 0 {
          assert hay[1..][i - 1..i - 1 + |needle|] == hay[i..i + |needle|];
          assert OccursAt(hay[1..], needle, i - 1);
        }
      }
    }
  }

  /** `s.split('T')[0]`: the part of `s` before its first `'T'`, or all of `s`. */
  function BeforeT(s: string): (r: string)
    ensures IsPrefix(r, s)
    ensures 'T' !in r
    ensures |r| < |s| ==> s[|r|] == 'T'
  {
    if s == [] then []
    else if s[0] == 'T' then []
    else [s[0]] + BeforeT(s[1..])
  }

  /** The cut falls at the first `'T'`. */
  lemma {:induction false} BeforeTFirst(s: string, k: nat)
    requires k < |s| && s[k] == 'T'
    requires forall i :: 0 <= i < k ==> s[i] != 'T'
    ensures BeforeT(s) == s[..k]
  {
    if k > 0 {
      BeforeTFirst(s[1..], k - 1);
    }
  }
}
