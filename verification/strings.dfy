/** The parts of `java.lang.String` the freight service relies on: null
    references, `isEmpty`, `trim`, `toLowerCase` and `equalsIgnoreCase`. */
module Strings {
  import opened Wrappers

  /** A Java `String` reference; `None` is `null`. */
  type JString = Option<string>

  /** `s == null || s.isEmpty()` */
  predicate IsNullOrEmpty(s: JString) {
    s.None? || s.value == ""
  }

  /** `s != null && !s.isEmpty()`: present, with no trim. */
  predicate IsPresent(s: JString) {
    !IsNullOrEmpty(s)
  }

  /** `String.trim` strips every leading and trailing character whose code
      point is at most U+0020 (spaces and all ASCII control characters). */
  predicate IsTrimmable(c: char) {
    c <= ' '
  }

  /** Every character of `s` would be stripped by `trim`. */
  predicate IsBlank(s: string) {
    forall i :: 0 <= i < |s| ==> IsTrimmable(s[i])
  }

  /** The index of the first character `trim` keeps (Java's `st`): every
      character before it is trimmable and the one at it, if any, is not. */
  function TrimStart(s: string): (st: nat)
    ensures st <= |s|
    ensures forall i :: 0 <= i < st ==> IsTrimmable(s[i])
    ensures st < |s| ==> !IsTrimmable(s[st])
    decreases |s|
  {
    if s == [] || !IsTrimmable(s[0]) then 0
    else
      var st := TrimStart(s[1..]);
      assert forall i :: 1 <= i < st + 1 ==> s[i] == s[1..][i - 1];
      st + 1
  }

  /** The index one past the last character `trim` keeps (Java's `len`),
      scanning back no further than `st`. */
  function TrimEnd(s: string, st: nat): (len: nat)
    requires st <= |s|
    ensures st <= len <= |s|
    ensures forall i :: len <= i < |s| ==> IsTrimmable(s[i])
    ensures st < len ==> !IsTrimmable(s[len - 1])
    decreases |s|
  {
    if |s| == st || !IsTrimmable(s[|s| - 1]) then |s|
    else
      var prefix := s[..|s| - 1];
      var len := TrimEnd(prefix, st);
      assert forall i :: len <= i < |s| - 1 ==> s[i] == prefix[i];
      len
  }

  /** `String.trim()`: the infix of `s` between the first and the last
      character `trim` keeps. It is empty exactly when `s` is blank, and
      otherwise starts and ends with a kept character. */
  function Trim(s: string): (r: string)
    ensures r == s[TrimStart(s)..TrimEnd(s, TrimStart(s))]
    ensures |r| <= |s|
    ensures r == [] <==> IsBlank(s)
    ensures r == [] || (!IsTrimmable(r[0]) && !IsTrimmable(r[|r| - 1]))
  {
    var st := TrimStart(s);
    var len := TrimEnd(s, st);
    assert st == len ==> IsBlank(s);
    assert st < len ==> !IsTrimmable(s[st]);
    s[st..len]
  }

  /** `Character.toLowerCase` restricted to ASCII letters. */
  function ToLowerAscii(c: char): (r: char)
    ensures 'A' <= c <= 'Z' ==> 'a' <= r <= 'z' && r as int - c as int == 32
    ensures !('A' <= c <= 'Z') ==> r == c
  {
    if 'A' <= c <= 'Z' then (c as int + 32) as char else c
  }

  /** `String.toLowerCase()` with ASCII case mapping. */
  function LowerAscii(s: string): (r: string)
    ensures |r| == |s|
    ensures forall i :: 0 <= i < |s| ==> r[i] == ToLowerAscii(s[i])
  {
    seq(|s|, i requires 0 <= i < |s| => ToLowerAscii(s[i]))
  }

  /** `a.equalsIgnoreCase(b)` for a non-null `b`: same length and equal
      character by character once both are lower-cased. */
  predicate EqualsIgnoreCase(a: string, b: string) {
    LowerAscii(a) == LowerAscii(b)
  }
}
