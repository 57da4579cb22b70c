/** Small helper datatypes shared by every module of the shop model. */
module Common {

  /** A value that may be missing: a `None` from `dict.get`, a null column. */
  datatype Option<T> = None | Some(value: T)

  /** The outcome of an operation that either produces a value or raises. */
  datatype Result<T, E> = Success(value: T) | Failure(error: E)

  /** ASCII upper-case letters, the class `[A-Z]` of a regular expression. */
  predicate IsAsciiUpper(c: char)
  {
    'A' <= c <= 'Z'
  }

  /** Lower-cases an ASCII upper-case letter and leaves every other character alone. */
  function AsciiLower(c: char): (r: char)
    ensures !IsAsciiUpper(r)
    ensures IsAsciiUpper(c) ==> r as int == c as int + 32
    ensures !IsAsciiUpper(c) ==> r == c
  {
    if IsAsciiUpper(c) then (c as int + 32) as char else c
  }

  /** `s.lower()` restricted to ASCII letters. */
  function LowerAscii(s: string): (r: string)
    ensures |r| == |s|
    ensures forall i :: 0 <= i < |s| ==> r[i] == AsciiLower(s[i])
  {
    if s == [] then [] else [AsciiLower(s[0])] + LowerAscii(s[1..])
  }

  /** Lower-casing works piece by piece. */
  lemma {:induction false} LowerAsciiConcat(a: string, b: string)
    ensures LowerAscii(a + b) == LowerAscii(a) + LowerAscii(b)
  {
    if a == [] {
      assert a + b == b;
    } else {
      assert (a + b)[1..] == a[1..] + b;
      LowerAsciiConcat(a[1..], b);
    }
  }

  /** A string without ASCII capitals is its own lower-case form. */
  lemma {:induction false} LowerAsciiKeepsLower(s: string)
    requires forall i :: 0 <= i < |s| ==> !IsAsciiUpper(s[i])
    ensures LowerAscii(s) == s
  {
    if s != [] {
      LowerAsciiKeepsLower(s[1..]);
    }
  }

  /** True when a copy of `needle` starts at index `i` of `hay`. */
  predicate OccursAt(hay: string, needle: string, i: int)
  {
    0 <= i && i + |needle| <= |hay| && hay[i..i + |needle|] == needle
  }

  /** Python's `needle in hay` for strings: some position of `hay` starts a copy of `needle`. */
  predicate Contains(hay: string, needle: string)
  {
    exists i :: 0 <= i <= |hay| - |needle| && OccursAt(hay, needle, i)
  }

  /** A non-empty set of ids has an element; loops and sums over a set of ids pick one this way. */
  lemma NonEmptyHasElement(s: set<int>)
    requires s != {}
    ensures exists x :: x in s
  {
    if forall x :: x !in s {
      assert false;
    }
  }

  /** Membership-wise inclusion of sets of ids is inclusion. */
  lemma SubsetOfIds(a: set<int>, b: set<int>)
    requires forall k :: k in a ==> k in b
    ensures a <= b
  {
    forall k | k in a
      ensures k in b
    {
    }
  }
}
