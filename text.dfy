/** String helpers with the meaning JavaScript gives them: the whitespace that
    `trim` strips and `\s` matches, ASCII lower-casing, and substring search
    (`String.prototype.includes`). */
module Text {

  /** JavaScript's WhiteSpace and LineTerminator code points (ECMAScript
      sections 12.2 and 12.3): exactly the characters `trim` removes and the
      regular-expression class `\s` matches. */
  predicate IsSpace(c: char) {
    var n := c as int;
    n == 0x09 || n == 0x0A || n == 0x0B || n == 0x0C || n == 0x0D || n == 0x20
    || n == 0xA0 || n == 0x1680 || (0x2000 <= n <= 0x200A)
    || n == 0x2028 || n == 0x2029 || n == 0x202F || n == 0x205F
    || n == 0x3000 || n == 0xFEFF
  }

  /** The characters the regular-expression `.` does not match. */
  predicate IsLineTerminator(c: char) {
    var n := c as int;
    n == 0x0A || n == 0x0D || n == 0x2028 || n == 0x2029
  }

  /** Every character of `s` is whitespace (the empty string included). */
  predicate IsBlank(s: string) {
    forall i :: 0 <= i < |s| ==> IsSpace(s[i])
  }

  /** `s` with its leading whitespace removed. */
  function TrimStart(s: string): (r: string)
    ensures |r| <= |s| && r == s[|s| - |r|..]
    ensures IsBlank(s[..|s| - |r|])
    ensures r == [] || !IsSpace(r[0])
  {
    if s == [] || !IsSpace(s[0]) then s else TrimStart(s[1..])
  }

  /** `s` with its trailing whitespace removed. */
  function TrimEnd(s: string): (r: string)
    ensures |r| <= |s| && r == s[..|r|]
    ensures IsBlank(s[|r|..])
    ensures r == [] || !IsSpace(r[|r| - 1])
  {
    if s == [] || !IsSpace(s[|s| - 1]) then s else TrimEnd(s[..|s| - 1])
  }

  /** Trimming the end of the part of `s` after a blank prefix leaves a
      slice of `s` followed only by whitespace. */
  lemma TrimEndOfSuffix(s: string, i: nat)
    requires i <= |s| && IsBlank(s[..i])
    ensures OccursAt(s, TrimEnd(s[i..]), i)
    ensures IsBlank(s[i + |TrimEnd(s[i..])|..])
  {
    var r := TrimEnd(s[i..]);
    assert s[i..][..|r|] == s[i..i + |r|];
    assert s[i..][|r|..] == s[i + |r|..];
  }

  /** `String.prototype.trim`: the slice of `s` left once the whitespace at
      both ends is cut off; it neither starts nor ends with whitespace. */
  function Trim(s: string): (r: string)
    ensures exists i :: OccursAt(s, r, i) && IsBlank(s[..i]) && IsBlank(s[i + |r|..])
    ensures r == [] || (!IsSpace(r[0]) && !IsSpace(r[|r| - 1]))
  {
    var t := TrimStart(s);
    var i := |s| - |t|;
    assert t == s[i..];
    TrimEndOfSuffix(s, i);
    var r := TrimEnd(t);
    assert r != [] ==> r[0] == t[0];
    r
  }

  /** `s.trim() !== ''` holds exactly when `s` has a non-whitespace character. */
  lemma TrimEmptyIffBlank(s: string)
    ensures Trim(s) == "" <==> IsBlank(s)
  {
    var t := TrimStart(s);
    if Trim(s) == "" {
      assert IsBlank(t[0..]);
      assert s == s[..|s| - |t|] + t;
    } else {
      var u := Trim(s);
      assert !IsSpace(u[|u| - 1]);
      assert t[|u| - 1] == u[|u| - 1];
      assert s[|s| - |t| + |u| - 1] == t[|u| - 1];
    }
  }

  /** ASCII `toLowerCase` of one character. */
  function LowerChar(c: char): (d: char)
    ensures !('A' <= d <= 'Z')
    ensures 'A' <= c <= 'Z' ==> d as int == c as int + 32 && 'a' <= d <= 'z'
    ensures !('A' <= c <= 'Z') ==> d == c
  {
    if 'A' <= c <= 'Z' then (c as int + 32) as char else c
  }

  /** ASCII `toLowerCase`: maps every character of `s` through LowerChar. */
  function Lower(s: string): (r: string)
    ensures |r| == |s|
    ensures forall i :: 0 <= i < |s| ==> r[i] == LowerChar(s[i])
  {
    if s == [] then [] else [LowerChar(s[0])] + Lower(s[1..])
  }

  /** No ASCII capital letter occurs in `s`. */
  predicate IsLowerCase(s: string) {
    forall i :: 0 <= i < |s| ==> !('A' <= s[i] <= 'Z')
  }

  /** Lower-casing yields a lower-case string and leaves one unchanged, so it
      is idempotent. */
  lemma LowerIsLowerCase(s: string)
    ensures IsLowerCase(Lower(s))
    ensures IsLowerCase(s) ==> Lower(s) == s
    ensures Lower(Lower(s)) == Lower(s)
  {
    var r := Lower(s);
    assert forall i :: 0 <= i < |r| ==> Lower(r)[i] == r[i];
    if IsLowerCase(s) {
      assert forall i :: 0 <= i < |s| ==> r[i] == s[i];
    }
  }

  /** `key` occurs in `s` starting at index `i`. */
  predicate OccursAt(s: string, key: string, i: int) {
    0 <= i && i + |key| <= |s| && s[i..i + |key|] == key
  }

  /** `s.includes(key)`, as a scan over the start positions of `s`. */
  function Contains(s: string, key: string): (b: bool)
    ensures b <==> exists i :: OccursAt(s, key, i)
  {
    if |key| <= |s| && s[..|key|] == key then
      assert OccursAt(s, key, 0);
      true
    else if s == [] then
      assert forall i :: !OccursAt(s, key, i);
      false
    else
      var rest := Contains(s[1..], key);
      assert forall i :: OccursAt(s[1..], key, i) <==> OccursAt(s, key, i + 1);
      assert forall i :: OccursAt(s, key, i) && i != 0 ==> OccursAt(s[1..], key, i - 1);
      rest
  }

  /** `key` does not occur in `s` when no position where it would fit holds
      its first character. */
  lemma NotContains(s: string, key: string)
    requires |key| > 0
    requires |key| > |s| || key[0] !in s[..|s| - |key| + 1]
    ensures !Contains(s, key)
  {
  }
}
