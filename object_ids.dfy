/**
 * The identifier guard of the by-id routes: a path parameter names a record
 * only when it is an ObjectId in its text form, 24 hexadecimal digits of
 * either case (the pattern `^[0-9a-fA-F]{24}$`).
 */
module ObjectIds {

  predicate IsHexDigit(c: char) {
    '0' <= c <= '9' || 'a' <= c <= 'f' || 'A' <= c <= 'F'
  }

  predicate IsUpperHexLetter(c: char) {
    'A' <= c <= 'F'
  }

  /** Declarative form: exactly 24 characters, every one a hexadecimal digit. */
  predicate IsHex24(s: string) {
    |s| == 24 && forall i :: 0 <= i < |s| ==> IsHexDigit(s[i])
  }

  /**
   * The anchored pattern `^[0-9a-fA-F]{n}$` as a matcher: it consumes one
   * hexadecimal digit per repetition and then demands the end of the input.
   */
  function MatchesHexRun(s: string, n: nat): bool
    decreases n
  {
    if n == 0 then s == []
    else s != [] && IsHexDigit(s[0]) && MatchesHexRun(s[1..], n - 1)
  }

  /** `id.match(/^[0-9a-fA-F]{24}$/)` succeeds. */
  function MatchesIdPattern(s: string): bool {
    MatchesHexRun(s, 24)
  }

  lemma {:induction false} HexRunCharacterised(s: string, n: nat)
    ensures MatchesHexRun(s, n) <==> |s| == n && forall i :: 0 <= i < |s| ==> IsHexDigit(s[i])
    decreases n
  {
    if n > 0 && s != [] {
      HexRunCharacterised(s[1..], n - 1);
      assert forall i :: 1 <= i < |s| ==> s[i] == s[1..][i - 1];
    }
  }

  /** The matcher and the declarative predicate agree on every string, both ways. */
  lemma IdPatternIsHex24(s: string)
    ensures MatchesIdPattern(s) <==> IsHex24(s)
  {
    HexRunCharacterised(s, 24);
  }

  /** A malformed id such as `not-an-id` is refused by the guard. */
  lemma NotAnIdIsRefused()
    ensures !MatchesIdPattern("not-an-id")
  {
    IdPatternIsHex24("not-an-id");
  }

  /**
   * The text form of a stored ObjectId (`toHexString`): 24 hexadecimal
   * digits, the letters in lower case.
   */
  predicate IsObjectIdText(s: string) {
    IsHex24(s) && forall i :: 0 <= i < |s| ==> !IsUpperHexLetter(s[i])
  }

  /** One digit as `toHexString` writes it: `A`..`F` become `a`..`f`. */
  function LowerHexDigit(c: char): (d: char)
    ensures !IsUpperHexLetter(d)
    ensures IsHexDigit(d) <==> IsHexDigit(c)
    ensures IsUpperHexLetter(c) ==> d as int == c as int + 32
    ensures !IsUpperHexLetter(c) ==> d == c
  {
    if IsUpperHexLetter(c) then (c as int + 32) as char else c
  }

  /**
   * The ObjectId a hexadecimal path id casts to, in its stored text form:
   * the cast reads the digits without regard to their case.
   */
  function CanonicalId(s: string): (r: string)
    ensures |r| == |s|
    ensures forall i :: 0 <= i < |s| ==> r[i] == LowerHexDigit(s[i])
  {
    if s == [] then [] else [LowerHexDigit(s[0])] + CanonicalId(s[1..])
  }

  /** Every spelling of a hexadecimal id casts to a stored-form ObjectId. */
  lemma CanonicalIdIsObjectId(s: string)
    requires IsHex24(s)
    ensures IsObjectIdText(CanonicalId(s))
  {
  }

  /** A stored-form id is its own cast, and it is the only spelling that is. */
  lemma CanonicalIdFixedPoints(s: string)
    ensures CanonicalId(s) == s <==> forall i :: 0 <= i < |s| ==> !IsUpperHexLetter(s[i])
  {
    if exists i :: 0 <= i < |s| && IsUpperHexLetter(s[i]) {
      var i :| 0 <= i < |s| && IsUpperHexLetter(s[i]);
      assert CanonicalId(s)[i] != s[i];
    } else {
      assert forall i :: 0 <= i < |s| ==> CanonicalId(s)[i] == s[i];
    }
  }

  /** Two spellings differing only in the case of their letters name the same ObjectId. */
  lemma CaseDoesNotMatter(s: string, t: string)
    requires |s| == |t|
    requires forall i :: 0 <= i < |s| ==>
      || s[i] == t[i]
      || (IsUpperHexLetter(s[i]) && t[i] as int == s[i] as int + 32)
      || (IsUpperHexLetter(t[i]) && s[i] as int == t[i] as int + 32)
    ensures CanonicalId(s) == CanonicalId(t)
  {
    assert forall i :: 0 <= i < |s| ==> CanonicalId(s)[i] == CanonicalId(t)[i];
  }
}
