/**
 * The few JavaScript value and string operations the API module relies on:
 * `null`/`undefined` as `None`, string truthiness, `String.prototype.toLowerCase`
 * restricted to ASCII letters, and the two shapes of literal regular expression the
 * demo routes use — an anchored suffix (`/…$/`, no `m` flag, so `$` is end of
 * input) and an unanchored substring test.
 */
module JsText {

  /** A value that may be `null` or `undefined` on the JavaScript side. */
  datatype Option<+T> = None | Some(value: T)

  /** `s || fallback`: an absent or empty string is falsy and gives way to the fallback. */
  function OrElse(s: Option<string>, fallback: string): (r: string)
    ensures s.Some? && s.value != "" ==> r == s.value
    ensures (s.None? || s.value == "") ==> r == fallback
  {
    if s.Some? && s.value != "" then s.value else fallback
  }

  /** JavaScript truthiness of a string that may be `null`: only a non-empty string is truthy. */
  predicate Truthy(s: Option<string>)
  {
    s.Some? && s.value != ""
  }

  predicate IsUpperAscii(c: char)
  {
    'A' <= c <= 'Z'
  }

  /** Lower-cases one ASCII letter and leaves every other character alone. */
  function LowerChar(c: char): (d: char)
    ensures !IsUpperAscii(d)
    ensures IsUpperAscii(c) ==> d as int == c as int + 32
    ensures !IsUpperAscii(c) ==> d == c
  {
    if IsUpperAscii(c) then (c as int + 32) as char else c
  }

  /** `s.toLowerCase()` on the ASCII letters. */
  function Lower(s: string): (r: string)
    ensures |r| == |s|
    ensures forall i :: 0 <= i < |s| ==> r[i] == LowerChar(s[i])
  {
    if s == [] then [] else [LowerChar(s[0])] + Lower(s[1..])
  }

  /** No character of `s` is an upper-case ASCII letter. */
  predicate IsLowerCase(s: string)
  {
    forall i :: 0 <= i < |s| ==> !IsUpperAscii(s[i])
  }

  predicate IsAsciiLetter(c: char)
  {
    'A' <= c <= 'Z' || 'a' <= c <= 'z'
  }

  /** The same character, or the upper- and lower-case forms of one ASCII letter. */
  predicate SameIgnoringCase(c: char, d: char)
  {
    c == d || (IsAsciiLetter(c) && IsAsciiLetter(d) && (c as int - d as int == 32 || d as int - c as int == 32))
  }

  /** The two strings differ at most in the case of ASCII letters, position by position. */
  predicate EqualsIgnoringCase(a: string, b: string)
  {
    |a| == |b| && forall i :: 0 <= i < |a| ==> SameIgnoringCase(a[i], b[i])
  }

  /** Two characters lower-case alike exactly when they are the same ignoring case. */
  lemma LowerCharEqualIff(c: char, d: char)
    ensures LowerChar(c) == LowerChar(d) <==> SameIgnoringCase(c, d)
  {
  }

  /** Lower-casing leaves nothing to lower-case, and doing it twice is doing it once. */
  lemma LowerIsLowerCase(s: string)
    ensures IsLowerCase(Lower(s))
    ensures Lower(Lower(s)) == Lower(s)
  {
  }

  /** Two strings lower-case to the same string exactly when they are equal ignoring case. */
  lemma LowerEqualIff(a: string, b: string)
    ensures Lower(a) == Lower(b) <==> EqualsIgnoringCase(a, b)
  {
    forall i | 0 <= i < |a| && i < |b| ensures LowerChar(a[i]) == LowerChar(b[i]) <==> SameIgnoringCase(a[i], b[i]) {
      LowerCharEqualIff(a[i], b[i]);
    }
    if EqualsIgnoringCase(a, b) {
      assert forall i :: 0 <= i < |a| ==> Lower(a)[i] == Lower(b)[i];
    }
    if Lower(a) == Lower(b) {
      assert forall i :: 0 <= i < |a| ==> LowerChar(a[i]) == Lower(a)[i] == Lower(b)[i] == LowerChar(b[i]);
    }
  }

  /**
   * Against a target that is already lower case, lower-casing `s` yields the target
   * exactly when `s` spells the target in any mixture of cases.
   */
  lemma {:induction false} LowerIsTargetIff(s: string, target: string)
    requires IsLowerCase(target)
    ensures Lower(s) == target <==> EqualsIgnoringCase(s, target)
  {
    LowerEqualIff(s, target);
    assert Lower(target) == target by {
      assert forall i :: 0 <= i < |target| ==> Lower(target)[i] == target[i];
    }
  }

  /** `s.endsWith(suffix)`, the meaning of an anchored literal regex `/suffix$/`. */
  predicate EndsWith(s: string, suffix: string)
    ensures EndsWith(s, suffix) ==> |suffix| <= |s|
    ensures EndsWith(s, suffix) && suffix != [] ==> s[|s| - 1] == suffix[|suffix| - 1]
  {
    |suffix| <= |s| && s[|s| - |suffix|..] == suffix
  }

  /** `s.includes(needle)`, the meaning of an unanchored literal regex `/needle/`. */
  predicate Contains(s: string, needle: string)
    ensures Contains(s, needle) ==> |needle| <= |s|
    ensures needle == [] ==> Contains(s, needle)
  {
    assert [] <= s[0..];
    exists i :: 0 <= i <= |s| && needle <= s[i..]
  }

  /** Every character of an occurring needle occurs in the haystack. */
  lemma ContainsHasChars(s: string, needle: string, k: int)
    requires Contains(s, needle) && 0 <= k < |needle|
    ensures needle[k] in s
  {
    var i :| 0 <= i <= |s| && needle <= s[i..];
    assert s[i..][k] == needle[k];
  }

  /** A needle with a character the haystack lacks does not occur in it. */
  lemma LackingCharNotContained(s: string, needle: string, k: int)
    requires 0 <= k < |needle| && needle[k] !in s
    ensures !Contains(s, needle)
  {
    if Contains(s, needle) { ContainsHasChars(s, needle, k); }
  }

  /** A string ending in the suffix also contains it. */
  lemma EndsWithContains(s: string, suffix: string)
    requires EndsWith(s, suffix)
    ensures Contains(s, suffix)
  {
    assert suffix <= s[|s| - |suffix|..];
  }
}
