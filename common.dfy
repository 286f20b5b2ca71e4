/** Helpers shared by every module of the model: optional and fallible values, ASCII case
    folding (the model of JavaScript's `toLowerCase` on addresses), JavaScript's
    `String.prototype.slice`, the insertion order of a JavaScript `Set`, and powers. */
module Common {

  datatype Option<+T> = None | Some(value: T)

  datatype Result<+T, +E> = Ok(value: T) | Err(error: E)

  // ---------------------------------------------------------------------------
  // Case folding

  predicate IsUpper(c: char) {
    'A' <= c <= 'Z'
  }

  function LowerChar(c: char): (r: char)
    ensures !IsUpper(r)
    ensures !IsUpper(c) ==> r == c
  {
    if IsUpper(c) then (c as int + 32) as char else c
  }

  /** A string without upper-case ASCII letters. */
  predicate IsLower(s: string) {
    forall i :: 0 <= i < |s| ==> !IsUpper(s[i])
  }

  /** `s.toLowerCase()`, restricted to the ASCII letters that addresses and symbols use. */
  function Lower(s: string): (r: string)
    ensures |r| == |s| && IsLower(r)
    ensures forall i :: 0 <= i < |s| ==> r[i] == LowerChar(s[i])
  {
    seq(|s|, i requires 0 <= i < |s| => LowerChar(s[i]))
  }

  lemma LowerOfLowerCase(s: string)
    requires IsLower(s)
    ensures Lower(s) == s
  {
  }

  lemma LowerIdempotent(s: string)
    ensures Lower(Lower(s)) == Lower(s)
  {
    LowerOfLowerCase(Lower(s));
  }

  /** Membership in a list of lower-case strings is membership after lower-casing each entry. */
  lemma LoweredListMembership(xs: seq<string>, s: string)
    requires forall i :: 0 <= i < |xs| ==> Lower(xs[i]) == xs[i]
    ensures s in xs <==> exists i | 0 <= i < |xs| :: Lower(xs[i]) == s
  {
    if s in xs {
      var i :| 0 <= i < |xs| && xs[i] == s;
      assert Lower(xs[i]) == s;
    }
  }

  lemma LowerConcat(a: string, b: string)
    ensures Lower(a + b) == Lower(a) + Lower(b)
  {
  }

  // ---------------------------------------------------------------------------
  // JavaScript String.prototype.slice

  /** How `slice` turns one of its arguments into a position: a negative argument counts from
      the end, and the result is clamped to [0, len]. `-0` is `0` in JavaScript, so
      `slice(-0)` starts at 0 — the same integer here. */
  function SlicePosition(len: nat, k: int): (r: nat)
    ensures r <= len
    ensures 0 <= k <= len ==> r == k
    ensures -(len as int) <= k < 0 ==> r as int == len as int + k
  {
    if k < 0 then (if len + k < 0 then 0 else len + k)
    else if k > len then len
    else k
  }

  /** `s.slice(start, end)`. */
  function Slice(s: string, start: int, end: int): (r: string)
    ensures |r| <= |s|
  {
    var from, to := SlicePosition(|s|, start), SlicePosition(|s|, end);
    if from < to then s[from..to] else ""
  }

  /** `s.slice(start)`. */
  function SliceFrom(s: string, start: int): (r: string)
    ensures r == s[SlicePosition(|s|, start)..]
  {
    Slice(s, start, |s|)
  }

  // ---------------------------------------------------------------------------
  // Insertion-ordered sets

  predicate NoDuplicates<T(==)>(s: seq<T>) {
    forall i, j :: 0 <= i < j < |s| ==> s[i] != s[j]
  }

  /** The elements of `s` without repeats, built by appending each element when it is first
      seen: the iteration order of `new Set(s)` and of the keys of a JavaScript `Map` filled
      from `s`. */
  function Distinct<T(==)>(s: seq<T>): (r: seq<T>)
    ensures forall i :: 0 <= i < |s| ==> s[i] in r
    ensures forall i :: 0 <= i < |r| ==> r[i] in s
    ensures NoDuplicates(r)
  {
    if s == [] then []
    else
      var d := Distinct(s[..|s| - 1]);
      if s[|s| - 1] in d then d else d + [s[|s| - 1]]
  }

  // ---------------------------------------------------------------------------
  // Powers

  function Pow(base: nat, k: nat): (r: nat)
    requires base >= 1
    ensures r >= 1
  {
    if k == 0 then 1 else base * Pow(base, k - 1)
  }

  lemma {:induction false} PowStrictlyIncreasing(base: nat, i: nat, j: nat)
    requires base >= 2 && i < j
    ensures Pow(base, i) < Pow(base, j)
  {
    if j == i + 1 {
    } else {
      PowStrictlyIncreasing(base, i, j - 1);
    }
  }
}
