/** The Python string operations the model needs: `str.strip`, `str.lower`,
    the `in` substring test and `str.join`. Strings are `seq<char>`. */
module Text {

  /** `str.isspace()` on one character, restricted to the ASCII range:
      space, tab, line feed, vertical tab, form feed, carriage return and
      the four separators 0x1C-0x1F. */
  predicate IsSpace(c: char) {
    c == ' ' || (9 <= c as int <= 13) || (28 <= c as int <= 31)
  }

  /** The end of the run of whitespace that starts at `i`. */
  function SpaceRunEnd(s: string, i: nat): (e: nat)
    requires i <= |s|
    ensures i <= e <= |s|
    ensures forall k | i <= k < e :: IsSpace(s[k])
    ensures e == |s| || !IsSpace(s[e])
    decreases |s| - i
  {
    if i < |s| && IsSpace(s[i]) then SpaceRunEnd(s, i + 1) else i
  }

  /** The start of the run of whitespace that ends just before `j`. */
  function SpaceRunStart(s: string, j: nat): (b: nat)
    requires j <= |s|
    ensures b <= j
    ensures forall k | b <= k < j :: IsSpace(s[k])
    ensures b == 0 || !IsSpace(s[b - 1])
  {
    if j > 0 && IsSpace(s[j - 1]) then SpaceRunStart(s, j - 1) else j
  }

  /** Where `strip` cuts: after the leading whitespace and before the trailing whitespace
      (both at the end of the string when it is all whitespace). */
  function StripBounds(s: string): (b: (nat, nat))
    ensures b.0 <= b.1 <= |s|
    ensures forall k | 0 <= k < b.0 :: IsSpace(s[k])
    ensures forall k | b.1 <= k < |s| :: IsSpace(s[k])
    ensures b.0 < b.1 ==> !IsSpace(s[b.0]) && !IsSpace(s[b.1 - 1])
  {
    var i := SpaceRunEnd(s, 0);
    if i == |s| then (i, i) else (i, SpaceRunStart(s, |s|))
  }

  /** `str.strip()`: drops leading and trailing whitespace. */
  function Strip(s: string): (r: string)
    ensures |r| <= |s|
    ensures r == [] || (!IsSpace(r[0]) && !IsSpace(r[|r| - 1]))
  {
    s[StripBounds(s).0..StripBounds(s).1]
  }

  /** What `strip` removes is whitespace at either end, and nothing else. */
  lemma StripSlice(s: string)
    ensures exists i, j | 0 <= i <= j <= |s| ::
      && Strip(s) == s[i..j]
      && (forall k | 0 <= k < i :: IsSpace(s[k]))
      && (forall k | j <= k < |s| :: IsSpace(s[k]))
  {
    var (i, j) := StripBounds(s);
    assert Strip(s) == s[i..j];
  }

  /** `str.lower()` on one character, restricted to ASCII letters. */
  function LowerChar(c: char): char {
    if 'A' <= c <= 'Z' then (c as int - 'A' as int + 'a' as int) as char else c
  }

  predicate IsUpper(c: char) {
    'A' <= c <= 'Z'
  }

  /** `str.lower()`: same length, no upper-case letter left, lower-case letters kept. */
  function Lower(s: string): (r: string)
    ensures |r| == |s|
    ensures forall i | 0 <= i < |r| :: !IsUpper(r[i])
    ensures forall i | 0 <= i < |s| :: !IsUpper(s[i]) ==> r[i] == s[i]
    ensures forall i | 0 <= i < |s| :: IsUpper(s[i]) ==> r[i] as int == s[i] as int + 32
  {
    seq(|s|, i requires 0 <= i < |s| => LowerChar(s[i]))
  }

  /** `p` occurs in `t` starting at index `i`. */
  predicate OccursAt(p: string, t: string, i: int) {
    0 <= i <= |t| - |p| && t[i..i + |p|] == p
  }

  /** Python's `p in t` for strings. */
  predicate IsSubstring(p: string, t: string) {
    exists i | 0 <= i <= |t| - |p| :: OccursAt(p, t, i)
  }

  /** Lowercasing both sides keeps a substring a substring. */
  lemma SubstringLower(p: string, t: string)
    requires IsSubstring(p, t)
    ensures IsSubstring(Lower(p), Lower(t))
  {
    var i :| 0 <= i <= |t| - |p| && OccursAt(p, t, i);
    assert t[i..i + |p|] == p;
    assert Lower(t)[i..i + |p|] == Lower(p);
    assert OccursAt(Lower(p), Lower(t), i);
  }

  /** `sep.join(parts)`. */
  function Join(sep: string, parts: seq<string>): string {
    if |parts| == 0 then ""
    else if |parts| == 1 then parts[0]
    else Join(sep, parts[..|parts| - 1]) + sep + parts[|parts| - 1]
  }

  /** Every part of a join occurs in it, at the position the parts before it and the separators give. */
  lemma {:induction false} JoinContainsPart(sep: string, parts: seq<string>, k: nat)
    requires k < |parts|
    ensures IsSubstring(parts[k], Join(sep, parts))
  {
    var j := Join(sep, parts);
    if |parts| == 1 {
      assert OccursAt(parts[0], j, 0);
    } else {
      var init := parts[..|parts| - 1];
      var left := Join(sep, init);
      assert j == left + sep + parts[|parts| - 1];
      if k == |parts| - 1 {
        var i := |left + sep|;
        assert j[i..i + |parts[k]|] == parts[k];
        assert OccursAt(parts[k], j, i);
      } else {
        JoinContainsPart(sep, init, k);
        var i :| 0 <= i <= |left| - |init[k]| && OccursAt(init[k], left, i);
        assert j[i..i + |parts[k]|] == left[i..i + |init[k]|];
        assert OccursAt(parts[k], j, i);
      }
    }
  }

  /** The length of a join: all parts plus one separator between each two. */
  lemma {:induction false} JoinLength(sep: string, parts: seq<string>)
    requires |parts| > 0
    ensures |Join(sep, parts)| == TotalLength(parts) + (|parts| - 1) * |sep|
  {
    if |parts| > 1 {
      JoinLength(sep, parts[..|parts| - 1]);
    }
  }

  function TotalLength(parts: seq<string>): nat {
    if parts == [] then 0 else TotalLength(parts[..|parts| - 1]) + |parts[|parts| - 1]|
  }
}
