/**
 * The two JavaScript string built-ins the core relies on, as pure functions over
 * sequences of characters: `String.prototype.trim` and `String.prototype.includes`.
 */
module JsString {

  /** The characters ECMAScript counts as WhiteSpace or LineTerminator, which `trim` strips. */
  predicate IsWhitespace(c: char)
  {
    || c == '\t' || c == '\U{000B}' || c == '\U{000C}' || c == ' ' || c == '\U{00A0}'
    || c == '\U{FEFF}' || c == '\U{1680}' || ('\U{2000}' <= c <= '\U{200A}')
    || c == '\U{202F}' || c == '\U{205F}' || c == '\U{3000}'
    || c == '\n' || c == '\r' || c == '\U{2028}' || c == '\U{2029}'
  }

  /** Neither the first nor the last character (if any) is whitespace. */
  predicate Trimmed(s: seq<char>)
  {
    s == [] || (!IsWhitespace(s[0]) && !IsWhitespace(s[|s| - 1]))
  }

  /** Drops the longest whitespace prefix: what is left is a suffix of `s` that is empty
      or starts with a non-whitespace character, and everything dropped is whitespace. */
  function TrimStart(s: seq<char>): (r: seq<char>)
    ensures |r| <= |s| && r == s[|s| - |r|..]
    ensures forall k :: 0 <= k < |s| - |r| ==> IsWhitespace(s[k])
    ensures r == [] || !IsWhitespace(r[0])
  {
    if s != [] && IsWhitespace(s[0]) then TrimStart(s[1..]) else s
  }

  /** Drops the longest whitespace suffix: what is left is a prefix of `s` that is empty
      or ends with a non-whitespace character, and everything dropped is whitespace. */
  function TrimEnd(s: seq<char>): (r: seq<char>)
    ensures |r| <= |s| && r == s[..|r|]
    ensures forall k :: |r| <= k < |s| ==> IsWhitespace(s[k])
    ensures r == [] || !IsWhitespace(r[|r| - 1])
  {
    if s != [] && IsWhitespace(s[|s| - 1]) then TrimEnd(s[..|s| - 1]) else s
  }

  /** `r` is the slice of `s` starting at `i`, and everything outside it is whitespace. */
  ghost predicate WhitespaceBounded(s: seq<char>, r: seq<char>, i: nat)
  {
    && i + |r| <= |s| && r == s[i..i + |r|]
    && (forall k :: 0 <= k < i ==> IsWhitespace(s[k]))
    && (forall k :: i + |r| <= k < |s| ==> IsWhitespace(s[k]))
  }

  /** `String.prototype.trim`. */
  function Trim(s: seq<char>): (r: seq<char>)
    ensures Trimmed(r)
  {
    TrimEnd(TrimStart(s))
  }

  /** `Trim(s)` is the slice of `s` that starts after the leading whitespace, with only
      whitespace after it. */
  lemma TrimIsWhitespaceBounded(s: seq<char>)
    ensures WhitespaceBounded(s, Trim(s), |s| - |TrimStart(s)|)
  {
    var a := TrimStart(s);
    var r := TrimEnd(a);
    assert Trim(s) == r;
    SuffixThenPrefixIsBounded(s, a, r);
  }

  /** Cutting whitespace off the front of `s` (giving `a`) and then off the back of `a`
      (giving `r`) leaves a slice of `s` with only whitespace outside it. */
  lemma SuffixThenPrefixIsBounded(s: seq<char>, a: seq<char>, r: seq<char>)
    requires |a| <= |s| && a == s[|s| - |a|..]
    requires forall k :: 0 <= k < |s| - |a| ==> IsWhitespace(s[k])
    requires |r| <= |a| && r == a[..|r|]
    requires forall k :: |r| <= k < |a| ==> IsWhitespace(a[k])
    ensures WhitespaceBounded(s, r, |s| - |a|)
  {
    var i := |s| - |a|;
    assert r == s[i..i + |r|];
    forall k | i + |r| <= k < |s| ensures IsWhitespace(s[k]) {
      assert s[k] == a[k - i];
    }
  }

  /** `Trim(s)` is the slice `s[i..j]` that drops a whitespace prefix and a whitespace
      suffix and keeps no whitespace at either end; such a slice is unique, so this
      characterises `Trim` independently of how it is computed. */
  lemma TrimIsUniqueSlice(s: seq<char>, i: nat, j: nat)
    requires i <= j <= |s|
    requires forall k :: 0 <= k < i ==> IsWhitespace(s[k])
    requires forall k :: j <= k < |s| ==> IsWhitespace(s[k])
    requires Trimmed(s[i..j])
    ensures Trim(s) == s[i..j]
  {
  }

  /** The trimmed text is empty exactly when the input is all whitespace (`""` included). */
  lemma TrimEmptyIff(s: seq<char>)
    ensures Trim(s) == [] <==> forall k :: 0 <= k < |s| ==> IsWhitespace(s[k])
  {
  }

  /** A trimmed text is left alone by `Trim`, so trimming twice is trimming once. */
  lemma TrimFixesTrimmed(s: seq<char>)
    ensures Trimmed(s) <==> Trim(s) == s
    ensures Trim(Trim(s)) == Trim(s)
  {
  }

  /** `t` occurs in `s` starting at index `i`. */
  predicate OccursAt(s: seq<char>, t: seq<char>, i: nat)
  {
    i + |t| <= |s| && s[i..i + |t|] == t
  }

  /** `t` occurs in `s` exactly when it is a prefix of `s` or occurs in the tail. */
  lemma OccursAtHeadOrTail(s: seq<char>, t: seq<char>)
    requires s != []
    ensures (exists i: nat :: OccursAt(s, t, i)) <==>
      (|t| <= |s| && s[..|t|] == t) || (exists i: nat :: OccursAt(s[1..], t, i))
  {
    forall i: nat | OccursAt(s, t, i) && i != 0 ensures OccursAt(s[1..], t, i - 1) {
      assert s[1..][i - 1..i - 1 + |t|] == s[i..i + |t|];
    }
    forall i: nat | OccursAt(s[1..], t, i) ensures OccursAt(s, t, i + 1) {
      assert s[1..][i..i + |t|] == s[i + 1..i + 1 + |t|];
    }
    if |t| <= |s| && s[..|t|] == t {
      assert OccursAt(s, t, 0);
    }
  }

  /** `String.prototype.includes`: tries each start position from the left, and holds
      exactly when `t` occurs in `s` at some position. */
  predicate Includes(s: seq<char>, t: seq<char>)
    ensures Includes(s, t) <==> exists i: nat :: OccursAt(s, t, i)
  {
    if |t| <= |s| && s[..|t|] == t then
      assert OccursAt(s, t, 0);
      true
    else if s == [] then
      assert forall i: nat :: !OccursAt(s, t, i);
      false
    else
      OccursAtHeadOrTail(s, t);
      Includes(s[1..], t)
  }
}
