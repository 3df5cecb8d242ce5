/**
 * The JavaScript string operations the to-do components rely on:
 * `String.prototype.trim`, `toLowerCase` (restricted to ASCII letters) and `includes`.
 */
module Strings {

  /**
   * The characters `trim` removes: the ECMAScript WhiteSpace set (tab, vertical tab,
   * form feed, space, no-break space, byte order mark and the Unicode space separators)
   * and the LineTerminator set (line feed, carriage return, line and paragraph separators).
   */
  function IsWhite(c: char): (b: bool)
    ensures c as int < 128 ==> (b <==> c == '\t' || c == '\n' || c == '\U{000B}' || c == '\U{000C}' || c == '\r' || c == ' ')
    ensures b ==> !('0' <= c <= '9') && !('A' <= c <= 'Z') && !('a' <= c <= 'z')
  {
    c == '\t' || c == '\n' || c == '\U{000B}' || c == '\U{000C}' || c == '\r' || c == ' '
    || c == '\U{00A0}' || c == '\U{1680}' || ('\U{2000}' <= c <= '\U{200A}')
    || c == '\U{2028}' || c == '\U{2029}' || c == '\U{202F}' || c == '\U{205F}'
    || c == '\U{3000}' || c == '\U{FEFF}'
  }

  ghost predicate AllWhite(s: string) {
    forall i :: 0 <= i < |s| ==> IsWhite(s[i])
  }

  /** Scanning forward from `i`: the index of the first non-white character, or `|s|` when there is none. */
  function SkipWhite(s: string, i: nat): (n: nat)
    requires i <= |s|
    ensures i <= n <= |s|
    ensures forall k :: i <= k < n ==> IsWhite(s[k])
    ensures n == |s| || !IsWhite(s[n])
    decreases |s| - i
  {
    if i < |s| && IsWhite(s[i]) then SkipWhite(s, i + 1) else i
  }

  /** Scanning back from `j`, never below `i`: the index just past the last non-white character, or `i`. */
  function SkipWhiteBack(s: string, i: nat, j: nat): (m: nat)
    requires i <= j <= |s|
    ensures i <= m <= j
    ensures forall k :: m <= k < j ==> IsWhite(s[k])
    ensures m == i || !IsWhite(s[m - 1])
    decreases j
  {
    if i < j && IsWhite(s[j - 1]) then SkipWhiteBack(s, i, j - 1) else j
  }

  /** `r` is `s` with the white runs before index `i` and from index `i + |r|` on cut off. */
  ghost predicate PaddedBy(s: string, r: string, i: nat) {
    i + |r| <= |s|
    && (forall k :: 0 <= k < |r| ==> r[k] == s[i + k])
    && (forall k :: 0 <= k < i ==> IsWhite(s[k]))
    && (forall k :: i + |r| <= k < |s| ==> IsWhite(s[k]))
  }

  /** `s.trim()`: the middle of `s` between a white prefix and a white suffix, with no white end of its own. */
  function Trim(s: string): (r: string)
    ensures exists i: nat :: PaddedBy(s, r, i)
    ensures r == [] || (!IsWhite(r[0]) && !IsWhite(r[|r| - 1]))
  {
    var i := SkipWhite(s, 0);
    var j := SkipWhiteBack(s, i, |s|);
    assert PaddedBy(s, s[i..j], i);
    s[i..j]
  }

  /** The test `s.trim() === ""` (equivalently, `!s.trim()`). */
  function IsBlank(s: string): (b: bool)
    ensures b <==> AllWhite(s)
  {
    BlankIffAllWhite(s);
    Trim(s) == ""
  }

  /** A string trims to nothing exactly when it is all white space. */
  lemma BlankIffAllWhite(s: string)
    ensures Trim(s) == "" <==> AllWhite(s)
  {
    var r := Trim(s);
    var i: nat :| PaddedBy(s, r, i);
    if r != [] {
      assert r[0] == s[i];
    }
  }

  /** Trimming an already trimmed string changes nothing. */
  lemma TrimIdempotent(s: string)
    ensures Trim(Trim(s)) == Trim(s)
  {
    var r := Trim(s);
    assert SkipWhite(r, 0) == 0;
    assert SkipWhiteBack(r, 0, |r|) == |r|;
    assert r[0..|r|] == r;
  }

  /** `c.toLowerCase()` on ASCII: capital letters A to Z become a to z, everything else is kept. */
  function LowerChar(c: char): (l: char)
    ensures 'A' <= c <= 'Z' ==> 'a' <= l <= 'z' && l as int - c as int == 32
    ensures !('A' <= c <= 'Z') ==> l == c
  {
    if 'A' <= c <= 'Z' then (c as int + 32) as char else c
  }

  /** `s.toLowerCase()`, character by character. */
  function Lower(s: string): (r: string)
    ensures |r| == |s|
    ensures forall i :: 0 <= i < |s| ==> r[i] == LowerChar(s[i])
  {
    if s == [] then [] else [LowerChar(s[0])] + Lower(s[1..])
  }

  /** Lowering twice is lowering once. */
  lemma LowerIdempotent(s: string)
    ensures Lower(Lower(s)) == Lower(s)
  {
  }

  /** `q` occurs in `s` starting at position `i`. */
  ghost predicate OccursAt(s: string, q: string, i: nat) {
    i + |q| <= |s| && s[i..i + |q|] == q
  }

  /** `s.includes(q)`: `q` is a contiguous piece of `s`. */
  function Includes(s: string, q: string): (b: bool)
    ensures b <==> exists i: nat :: OccursAt(s, q, i)
    decreases |s|
  {
    if |q| > |s| then false
    else if s[..|q|] == q then
      assert OccursAt(s, q, 0);
      true
    else
      OccursInTail(s, q);
      Includes(s[1..], q)
  }

  /** When `q` is not a prefix of `s`, it occurs in `s` exactly when it occurs in `s[1..]`. */
  lemma OccursInTail(s: string, q: string)
    requires |q| <= |s| && s[..|q|] != q
    ensures s != []
    ensures (exists i: nat :: OccursAt(s, q, i)) <==> (exists i: nat :: OccursAt(s[1..], q, i))
  {
    if exists i: nat :: OccursAt(s, q, i) {
      var i: nat :| OccursAt(s, q, i);
      assert i != 0;
      assert s[1..][i - 1..i - 1 + |q|] == s[i..i + |q|];
      assert OccursAt(s[1..], q, i - 1);
    }
    if exists i: nat :: OccursAt(s[1..], q, i) {
      var j: nat :| OccursAt(s[1..], q, j);
      assert s[j + 1..j + 1 + |q|] == s[1..][j..j + |q|];
      assert OccursAt(s, q, j + 1);
    }
  }

  /** The empty string is a piece of every string. */
  lemma IncludesEmpty()
    ensures forall s :: Includes(s, "")
  {
    forall s ensures Includes(s, "") { assert OccursAt(s, "", 0); }
  }

  /** Case-insensitive matching as the components use it: "TASK" is found in "My task one". */
  lemma CaseInsensitiveMatchExample(text: string, query: string)
    requires text == "My task one" && query == "TASK"
    ensures Includes(Lower(text), Lower(query))
  {
    var s := Lower(text);
    var q := Lower(query);
    assert q == ['t', 'a', 's', 'k'] by {
      assert q[0] == LowerChar('T') && q[1] == LowerChar('A') && q[2] == LowerChar('S') && q[3] == LowerChar('K');
    }
    assert s[3..7] == ['t', 'a', 's', 'k'] by {
      assert s[3] == LowerChar('t') && s[4] == LowerChar('a') && s[5] == LowerChar('s') && s[6] == LowerChar('k');
    }
    assert OccursAt(s, q, 3);
  }
}
