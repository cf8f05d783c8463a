/**
 * The handful of Python `str` operations the crawler relies on, over
 * `string` (a sequence of Unicode scalar values).
 */
module Strings {
  import opened Wrappers

  /** `s.startswith(p)` */
  predicate StartsWith(s: string, p: string) {
    |p| <= |s| && s[..|p|] == p
  }

  /** `s.endswith(x)` */
  predicate EndsWith(s: string, x: string) {
    |x| <= |s| && s[|s| - |x|..] == x
  }

  /** `sub` occurs in `s` at index `i`. */
  predicate OccursAt(s: string, sub: string, i: int) {
    0 <= i && i + |sub| <= |s| && s[i..i + |sub|] == sub
  }

  /** `sub in s` */
  predicate Contains(s: string, sub: string) {
    exists i | 0 <= i <= |s| :: OccursAt(s, sub, i)
  }

  /** `s.find(sub, i)`, with `None` for Python's `-1`. */
  function FindFrom(s: string, sub: string, i: nat): (r: Option<nat>)
    requires i <= |s|
    ensures r.Some? ==> i <= r.value && OccursAt(s, sub, r.value)
    ensures forall j :: i <= j && (r.None? || j < r.value) ==> !OccursAt(s, sub, j)
    decreases |s| - i
  {
    if OccursAt(s, sub, i) then Some(i)
    else if i == |s| then None
    else FindFrom(s, sub, i + 1)
  }

  /** `s.find(sub)`: the first occurrence, found exactly when `sub in s`. */
  function Find(s: string, sub: string): (r: Option<nat>)
    ensures r.Some? <==> Contains(s, sub)
    ensures r.Some? ==> OccursAt(s, sub, r.value)
    ensures r.Some? ==> forall j :: 0 <= j < r.value ==> !OccursAt(s, sub, j)
  {
    FindFrom(s, sub, 0)
  }

  /** `s.replace(pat, rep, 1)`: replaces the first occurrence only. */
  function ReplaceFirst(s: string, pat: string, rep: string): (r: string)
    ensures !Contains(s, pat) ==> r == s
    ensures StartsWith(s, pat) ==> r == rep + s[|pat|..]
  {
    match Find(s, pat)
    case None => s
    case Some(i) =>
      assert StartsWith(s, pat) ==> OccursAt(s, pat, 0) && i == 0;
      s[..i] + rep + s[i + |pat|..]
  }

  /** `s.replace(a, b)` for a single character `a`: every `a` becomes `b`. */
  function ReplaceChar(s: string, a: char, b: char): (r: string)
    ensures |r| == |s|
    ensures forall i :: 0 <= i < |s| ==> r[i] == (if s[i] == a then b else s[i])
    ensures a !in r || a == b
  {
    seq(|s|, i requires 0 <= i < |s| => if s[i] == a then b else s[i])
  }

  lemma ReplaceCharAppend(x: string, y: string, a: char, b: char)
    ensures ReplaceChar(x + y, a, b) == ReplaceChar(x, a, b) + ReplaceChar(y, a, b)
  {
  }

  lemma ReplaceCharAbsent(s: string, a: char, b: char)
    requires a !in s
    ensures ReplaceChar(s, a, b) == s
  {
  }

  /** `s.lstrip(chars)`, the stripped characters given by `drop`. */
  function TrimLeft(s: string, drop: char -> bool): (r: string)
    ensures EndsWith(s, r)
    ensures forall i :: 0 <= i < |s| - |r| ==> drop(s[i])
    ensures r == [] || !drop(r[0])
    decreases |s|
  {
    if |s| > 0 && drop(s[0]) then
      var r := TrimLeft(s[1..], drop);
      assert s[|s| - |r|..] == s[1..][|s| - 1 - |r|..];
      assert forall i :: 1 <= i < |s| - |r| ==> s[i] == s[1..][i - 1];
      r
    else s
  }

  /** `s.rstrip(chars)`, the stripped characters given by `drop`. */
  function TrimRight(s: string, drop: char -> bool): (r: string)
    ensures StartsWith(s, r)
    ensures forall i :: |r| <= i < |s| ==> drop(s[i])
    ensures r == [] || !drop(r[|r| - 1])
    decreases |s|
  {
    if |s| > 0 && drop(s[|s| - 1]) then TrimRight(s[..|s| - 1], drop) else s
  }

  /** Python's `str.isspace` for one character. */
  predicate IsSpace(c: char) {
    || (9 <= c as int <= 13)
    || (28 <= c as int <= 32)
    || c as int == 0x85 || c as int == 0xA0 || c as int == 0x1680
    || (0x2000 <= c as int <= 0x200A)
    || c as int == 0x2028 || c as int == 0x2029 || c as int == 0x202F
    || c as int == 0x205F || c as int == 0x3000
  }

  /** `s.strip()` */
  function Strip(s: string): (r: string)
    ensures |r| <= |s|
    ensures r == [] || (!IsSpace(r[0]) && !IsSpace(r[|r| - 1]))
  {
    var t := TrimRight(s, IsSpace);
    var r := TrimLeft(t, IsSpace);
    assert r == [] || r[|r| - 1] == t[|t| - 1];
    r
  }

  /** `strip` returns a slice of `s` with only whitespace on either side of it. */
  lemma StripIsSlice(s: string)
    ensures exists i | 0 <= i <= |s| - |Strip(s)| ::
      && StartsWith(s[i..], Strip(s))
      && (forall k | 0 <= k < i :: IsSpace(s[k]))
      && (forall k | i + |Strip(s)| <= k < |s| :: IsSpace(s[k]))
  {
    var t := TrimRight(s, IsSpace);
    var r := TrimLeft(t, IsSpace);
    var i := |t| - |r|;
    assert r == Strip(s);
    assert StartsWith(s[i..], r) by {
      assert t == s[..|t|];
      assert r == t[i..];
      assert s[i..][..|r|] == r;
    }
    assert forall k | 0 <= k < i :: IsSpace(s[k]) by {
      assert forall k | 0 <= k < i :: s[k] == t[k];
    }
    assert forall k | i + |r| <= k < |s| :: IsSpace(s[k]);
  }

  /** The characters of `s` that satisfy `keep`, in order. */
  function Keep(s: string, keep: char -> bool): (r: string)
    ensures |r| <= |s|
    ensures forall i :: 0 <= i < |r| ==> keep(r[i])
    ensures forall c :: c in r <==> c in s && keep(c)
    ensures (forall i :: 0 <= i < |s| ==> keep(s[i])) ==> r == s
    decreases |s|
  {
    if |s| == 0 then []
    else (if keep(s[0]) then [s[0]] else []) + Keep(s[1..], keep)
  }

  lemma {:induction false} KeepAppend(x: string, y: string, keep: char -> bool)
    ensures Keep(x + y, keep) == Keep(x, keep) + Keep(y, keep)
    decreases |x|
  {
    if |x| > 0 {
      assert (x + y)[1..] == x[1..] + y;
      KeepAppend(x[1..], y, keep);
    } else {
      assert x + y == y;
    }
  }

  /** Stripping from the left stops at a suffix that starts with a kept character. */
  lemma {:induction false} TrimLeftAppend(x: string, y: string, drop: char -> bool)
    requires y != [] && !drop(y[0])
    ensures TrimLeft(x + y, drop) == TrimLeft(x, drop) + y
    decreases |x|
  {
    if |x| == 0 {
      assert x + y == y;
    } else if drop(x[0]) {
      assert (x + y)[1..] == x[1..] + y;
      TrimLeftAppend(x[1..], y, drop);
    }
  }
}
