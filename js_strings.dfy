/**
 * The JavaScript string operations the handlers rely on: `trim`, `toLowerCase`,
 * `includes`, `slice`, and truthiness of an optional string field.
 */
module JsStrings {
  import opened Wrappers

  /** A string-valued request field or state field counts as true iff present and non-empty. */
  predicate Truthy(o: Option<string>) {
    o.Some? && o.value != ""
  }

  /** The code points `String.prototype.trim` strips: ECMAScript WhiteSpace and LineTerminator. */
  predicate IsJsSpace(c: char) {
    || c == '\t' || c == '\n' || c == '\U{000B}' || c == '\U{000C}' || c == '\r' || c == ' '
    || c == '\U{00A0}' || c == '\U{1680}' || ('\U{2000}' <= c <= '\U{200A}')
    || c == '\U{2028}' || c == '\U{2029}' || c == '\U{202F}' || c == '\U{205F}'
    || c == '\U{3000}' || c == '\U{FEFF}'
  }

  /** Every character is white space (the empty string included). */
  predicate IsBlank(s: string) {
    forall i :: 0 <= i < |s| ==> IsJsSpace(s[i])
  }

  /** Strips leading white space: the result is the suffix after the longest blank prefix. */
  function TrimStart(s: string): (r: string)
    decreases |s|
    ensures |r| <= |s| && r == s[|s| - |r|..]
    ensures forall i :: 0 <= i < |s| - |r| ==> IsJsSpace(s[i])
    ensures r != [] ==> !IsJsSpace(r[0])
  {
    if s != [] && IsJsSpace(s[0]) then
      var t := s[1..];
      var r := TrimStart(t);
      assert r == t[|t| - |r|..] == s[|s| - |r|..];
      forall i | 0 <= i < |s| - |r| ensures IsJsSpace(s[i]) {
        if i > 0 {
          assert s[i] == t[i - 1];
        }
      }
      r
    else s
  }

  /** Strips trailing white space: the result is the prefix before the longest blank suffix. */
  function TrimEnd(s: string): (r: string)
    decreases |s|
    ensures |r| <= |s| && r == s[..|r|]
    ensures forall i :: |r| <= i < |s| ==> IsJsSpace(s[i])
    ensures r != [] ==> !IsJsSpace(r[|r| - 1])
  {
    if s != [] && IsJsSpace(s[|s| - 1]) then
      var r := TrimEnd(s[..|s| - 1]);
      assert forall i :: |r| <= i < |s| - 1 ==> s[i] == s[..|s| - 1][i];
      r
    else s
  }

  /** `String.prototype.trim`. */
  function Trim(s: string): string {
    TrimEnd(TrimStart(s))
  }

  /** `!s.trim()` holds exactly for the all-white-space strings. */
  lemma TrimEmptyIffBlank(s: string)
    ensures Trim(s) == "" <==> IsBlank(s)
  {
  }

  /** `toLowerCase` restricted to ASCII: `A`..`Z` become `a`..`z`, all else is kept. */
  function LowerChar(c: char): char {
    if 'A' <= c <= 'Z' then (c as int + 32) as char else c
  }

  function Lower(s: string): (r: string)
    ensures |r| == |s|
    ensures forall i :: 0 <= i < |s| && 'A' <= s[i] <= 'Z' ==> r[i] as int == s[i] as int + 32
    ensures forall i :: 0 <= i < |s| && !('A' <= s[i] <= 'Z') ==> r[i] == s[i]
    ensures forall i :: 0 <= i < |r| ==> !('A' <= r[i] <= 'Z')
  {
    seq(|s|, i requires 0 <= i < |s| => LowerChar(s[i]))
  }

  /** `t` occurs in `s` starting at position `i`. */
  predicate OccursAt(s: string, t: string, i: int) {
    0 <= i && i + |t| <= |s| && s[i..i + |t|] == t
  }

  /** `String.prototype.includes`, as a left-to-right scan. */
  function Includes(s: string, t: string): bool
    decreases |s|
  {
    if |t| > |s| then false
    else if s[..|t|] == t then true
    else Includes(s[1..], t)
  }

  /** A text that has `b` between `a` and `c` includes `b`. */
  lemma {:induction false} IncludesMiddle(a: string, b: string, c: string)
    ensures Includes(a + b + c, b)
  {
    var t := a + b + c;
    assert t[|a|..|a| + |b|] == b;
    assert OccursAt(t, b, |a|);
    IncludesIff(t, b);
  }

  lemma {:induction false} IncludesIff(s: string, t: string)
    ensures Includes(s, t) <==> exists i :: OccursAt(s, t, i)
    decreases |s|
  {
    if |t| > |s| {
    } else if s[..|t|] == t {
      assert OccursAt(s, t, 0);
    } else {
      IncludesIff(s[1..], t);
      if Includes(s[1..], t) {
        var i :| OccursAt(s[1..], t, i);
        assert s[1..][i..i + |t|] == s[i + 1..i + 1 + |t|];
        assert OccursAt(s, t, i + 1);
      } else {
        forall i | OccursAt(s, t, i) ensures false {
          assert i != 0;
          assert s[1..][i - 1..i - 1 + |t|] == s[i..i + |t|];
          assert OccursAt(s[1..], t, i - 1);
        }
      }
    }
  }

  /** How `slice` resolves a position: negative counts from the end, then clamp to `0..n`. */
  function RelativeIndex(i: int, n: nat): (r: nat)
    ensures r <= n
    ensures 0 <= i <= n ==> r == i
  {
    if i < 0 then (if n + i < 0 then 0 else n + i)
    else if i > n then n
    else i
  }

  /** `s.slice(begin, end)`. */
  function Slice(s: string, begin: int, end: int): (r: string)
    ensures 0 <= begin <= end <= |s| ==> r == s[begin..end]
    ensures 0 <= begin && end < 0 && begin <= |s| + end ==> r == s[begin..|s| + end]
    ensures 0 <= begin && end < 0 && |s| + end < begin ==> r == []
    ensures 0 <= end < begin ==> r == []
    ensures 0 <= begin <= |s| <= end ==> r == s[begin..]
  {
    var b, e := RelativeIndex(begin, |s|), RelativeIndex(end, |s|);
    if b < e then s[b..e] else []
  }

  /** `s.slice(begin)`. */
  function SliceFrom(s: string, begin: int): (r: string)
    ensures 0 <= begin <= |s| ==> r == s[begin..]
    ensures begin >= |s| ==> r == []
  {
    Slice(s, begin, |s|)
  }
}
