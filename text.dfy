/**
 * The string operations the handlers apply before storing a record:
 * `toUpperCase` (over ASCII letters), `trim` (ECMAScript white space and
 * line terminators), `split(',')`, and the instructor category list
 * `categories.split(',').map(item => item.trim().toUpperCase())`.
 */
module Text {

  // ---------------------------------------------------------------------
  // Upper-casing
  // ---------------------------------------------------------------------

  predicate IsLowerAscii(c: char) {
    'a' <= c <= 'z'
  }

  /** `toUpperCase` on one character; characters other than `a`..`z` are kept. */
  function UpperChar(c: char): (u: char)
    ensures !IsLowerAscii(u)
    ensures IsLowerAscii(c) ==> u as int == c as int - 32
    ensures !IsLowerAscii(c) ==> u == c
  {
    if IsLowerAscii(c) then (c as int - 32) as char else c
  }

  function ToUpperAscii(s: string): (r: string)
    ensures |r| == |s|
    ensures forall i :: 0 <= i < |s| ==> r[i] == UpperChar(s[i])
  {
    if s == [] then [] else [UpperChar(s[0])] + ToUpperAscii(s[1..])
  }

  /** A value as the handlers store a normalised key: no lower-case letter left. */
  predicate IsUpperNormal(s: string) {
    forall i :: 0 <= i < |s| ==> !IsLowerAscii(s[i])
  }

  lemma UpperIsNormal(s: string)
    ensures IsUpperNormal(ToUpperAscii(s))
  {
  }

  /** Upper-casing is the identity exactly on the strings with no lower-case letter. */
  lemma UpperFixedPoints(s: string)
    ensures ToUpperAscii(s) == s <==> IsUpperNormal(s)
  {
    if IsUpperNormal(s) {
      assert forall i :: 0 <= i < |s| ==> ToUpperAscii(s)[i] == s[i];
    } else {
      var i :| 0 <= i < |s| && IsLowerAscii(s[i]);
      assert ToUpperAscii(s)[i] != s[i];
    }
  }

  lemma UpperIdempotent(s: string)
    ensures ToUpperAscii(ToUpperAscii(s)) == ToUpperAscii(s)
  {
    UpperIsNormal(s);
    UpperFixedPoints(ToUpperAscii(s));
  }

  /** A string holding a lower-case letter is never the upper-cased form of anything. */
  lemma LowerNeverMatchesUpper(raw: string, s: string)
    requires !IsUpperNormal(raw)
    ensures raw != ToUpperAscii(s)
  {
    UpperIsNormal(s);
  }

  // ---------------------------------------------------------------------
  // Trimming
  // ---------------------------------------------------------------------

  /**
   * ECMAScript WhiteSpace and LineTerminator code points: the characters
   * `String.prototype.trim` removes from both ends.
   */
  predicate IsJsSpace(c: char) {
    c in JsSpaces
  }

  const JsSpaces: set<char> := {
    '\t', '\n', '\U{000B}', '\U{000C}', '\r', ' ', '\U{00A0}', '\U{1680}',
    '\U{2000}', '\U{2001}', '\U{2002}', '\U{2003}', '\U{2004}', '\U{2005}',
    '\U{2006}', '\U{2007}', '\U{2008}', '\U{2009}', '\U{200A}',
    '\U{2028}', '\U{2029}', '\U{202F}', '\U{205F}', '\U{3000}', '\U{FEFF}'
  }

  lemma UpperKeepsSpaces(c: char)
    ensures IsJsSpace(UpperChar(c)) <==> IsJsSpace(c)
  {
  }

  /** Drops the leading white space: the result is a suffix not starting with white space. */
  function TrimStart(s: string): (r: string)
    ensures |r| <= |s| && r == s[|s| - |r|..]
    ensures r == [] || !IsJsSpace(r[0])
  {
    if s != [] && IsJsSpace(s[0]) then TrimStart(s[1..]) else s
  }

  /** Drops the trailing white space: the result is a prefix not ending with white space. */
  function TrimEnd(s: string): (r: string)
    ensures |r| <= |s| && r == s[..|r|]
    ensures r == [] || !IsJsSpace(r[|r| - 1])
  {
    if s != [] && IsJsSpace(s[|s| - 1]) then TrimEnd(s[..|s| - 1]) else s
  }

  /** Everything `TrimStart` drops is white space. */
  lemma {:induction false} TrimStartDropsSpace(s: string)
    ensures forall i :: 0 <= i < |s| - |TrimStart(s)| ==> IsJsSpace(s[i])
  {
    if s != [] && IsJsSpace(s[0]) {
      TrimStartDropsSpace(s[1..]);
      forall i | 1 <= i < |s| - |TrimStart(s)| ensures IsJsSpace(s[i]) {
        assert s[i] == s[1..][i - 1];
      }
    }
  }

  /** Everything `TrimEnd` drops is white space. */
  lemma {:induction false} TrimEndDropsSpace(s: string)
    ensures forall i :: |TrimEnd(s)| <= i < |s| ==> IsJsSpace(s[i])
  {
    if s != [] && IsJsSpace(s[|s| - 1]) {
      TrimEndDropsSpace(s[..|s| - 1]);
      forall i | |TrimEnd(s)| <= i < |s| - 1 ensures IsJsSpace(s[i]) {
        assert s[i] == s[..|s| - 1][i];
      }
    }
  }

  /** `s.trim()`. */
  function Trim(s: string): string {
    TrimEnd(TrimStart(s))
  }

  /** The number of white-space characters `trim` drops from the front. */
  function TrimmedFront(s: string): nat {
    |s| - |TrimStart(s)|
  }

  /** A slice of a suffix is a slice of the whole. */
  lemma SliceOfSuffix(s: string, lo: nat, n: nat)
    requires lo + n <= |s|
    ensures s[lo..][..n] == s[lo..lo + n]
  {
  }

  /**
   * `Trim(s)` is the slice of `s` that starts after the leading white space
   * and stops before the trailing white space.
   */
  lemma TrimIsSlice(s: string)
    ensures TrimmedFront(s) + |Trim(s)| <= |s|
    ensures Trim(s) == s[TrimmedFront(s)..TrimmedFront(s) + |Trim(s)|]
    ensures forall i :: 0 <= i < TrimmedFront(s) ==> IsJsSpace(s[i])
    ensures forall i :: TrimmedFront(s) + |Trim(s)| <= i < |s| ==> IsJsSpace(s[i])
  {
    var t := TrimStart(s);
    var lo := |s| - |t|;
    SliceOfSuffix(s, lo, |Trim(s)|);
    TrimStartDropsSpace(s);
    TrimEndTail(t, s, lo);
  }

  /** The white space `TrimEnd` drops from a suffix is white space of the whole. */
  lemma TrimEndTail(t: string, s: string, lo: nat)
    requires lo <= |s| && t == s[lo..]
    ensures forall i :: lo + |TrimEnd(t)| <= i < |s| ==> IsJsSpace(s[i])
  {
    TrimEndDropsSpace(t);
    forall i | lo + |TrimEnd(t)| <= i < |s| ensures IsJsSpace(s[i]) {
      assert s[i] == t[i - lo];
    }
  }

  /** `Trim(s)` has no white space at either end. */
  lemma TrimEnds(s: string)
    ensures Trim(s) == [] || (!IsJsSpace(Trim(s)[0]) && !IsJsSpace(Trim(s)[|Trim(s)| - 1]))
  {
    var t := TrimStart(s);
    var r := TrimEnd(t);
    if r != [] {
      assert r[0] == t[0];
    }
  }

  /** A string already free of white space at both ends is its own trim. */
  lemma TrimNoop(s: string)
    requires s == [] || (!IsJsSpace(s[0]) && !IsJsSpace(s[|s| - 1]))
    ensures Trim(s) == s
  {
  }

  lemma TrimIdempotent(s: string)
    ensures Trim(Trim(s)) == Trim(s)
  {
    TrimEnds(s);
    TrimNoop(Trim(s));
  }

  /** Upper-casing a prefix is the prefix of the upper-cased string. */
  lemma UpperPrefix(s: string, k: nat)
    requires k <= |s|
    ensures ToUpperAscii(s)[..k] == ToUpperAscii(s[..k])
  {
    var u := ToUpperAscii(s);
    var a, b := u[..k], ToUpperAscii(s[..k]);
    forall i | 0 <= i < k ensures a[i] == b[i] {
      assert a[i] == u[i] == UpperChar(s[i]);
      assert s[..k][i] == s[i];
      assert b[i] == UpperChar(s[..k][i]);
    }
  }

  lemma {:induction false} TrimStartUpper(s: string)
    ensures TrimStart(ToUpperAscii(s)) == ToUpperAscii(TrimStart(s))
  {
    if s != [] {
      var u := ToUpperAscii(s);
      assert u == [UpperChar(s[0])] + ToUpperAscii(s[1..]);
      UpperKeepsSpaces(s[0]);
      if IsJsSpace(s[0]) {
        assert u[1..] == ToUpperAscii(s[1..]);
        TrimStartUpper(s[1..]);
      }
    }
  }

  lemma {:induction false} TrimEndUpper(s: string)
    ensures TrimEnd(ToUpperAscii(s)) == ToUpperAscii(TrimEnd(s))
  {
    if s != [] {
      var u, n := ToUpperAscii(s), |s| - 1;
      assert u[n] == UpperChar(s[n]);
      UpperKeepsSpaces(s[n]);
      if IsJsSpace(s[n]) {
        UpperPrefix(s, n);
        TrimEndUpper(s[..n]);
      }
    }
  }

  /** Upper-casing and trimming commute: `s.toUpperCase().trim() == s.trim().toUpperCase()`. */
  lemma TrimUpperCommutes(s: string)
    ensures Trim(ToUpperAscii(s)) == ToUpperAscii(Trim(s))
  {
    TrimStartUpper(s);
    TrimEndUpper(TrimStart(s));
  }

  // ---------------------------------------------------------------------
  // Splitting and joining
  // ---------------------------------------------------------------------

  function Count(s: string, c: char): nat {
    if s == [] then 0 else (if s[0] == c then 1 else 0) + Count(s[1..], c)
  }

  /** `s.split(sep)` for a one-character separator: "" gives [""]. */
  function Split(s: string, sep: char): (pieces: seq<string>)
    ensures |pieces| == Count(s, sep) + 1
    ensures forall i :: 0 <= i < |pieces| ==> sep !in pieces[i]
  {
    if s == [] then [""]
    else
      var rest := Split(s[1..], sep);
      if s[0] == sep then [""] + rest
      else [[s[0]] + rest[0]] + rest[1..]
  }

  /** `pieces.join(sep)`. */
  function Join(pieces: seq<string>, sep: char): string {
    if pieces == [] then ""
    else if |pieces| == 1 then pieces[0]
    else pieces[0] + [sep] + Join(pieces[1..], sep)
  }

  /** Joining the pieces with the separator gives back the split string. */
  lemma {:induction false} JoinSplit(s: string, sep: char)
    ensures Join(Split(s, sep), sep) == s
  {
    if s != [] {
      JoinSplit(s[1..], sep);
      var rest := Split(s[1..], sep);
      if s[0] == sep {
        assert Split(s, sep) == [""] + rest;
        assert s == [sep] + s[1..];
      } else {
        var ps := Split(s, sep);
        assert ps == [[s[0]] + rest[0]] + rest[1..];
        if |rest| == 1 {
          assert s == [s[0]] + rest[0];
        } else {
          assert ps[1..] == rest[1..];
          assert Join(rest, sep) == rest[0] + [sep] + Join(rest[1..], sep);
          assert s == [s[0]] + s[1..];
        }
      }
    }
  }

  /** A separator-free piece followed by the separator splits off as one piece. */
  lemma {:induction false} SplitPrefix(p: string, sep: char, tail: string)
    requires sep !in p
    ensures Split(p + [sep] + tail, sep) == [p] + Split(tail, sep)
    decreases |p|
  {
    if p == [] {
      assert [] + [sep] + tail == [sep] + tail;
      assert ([sep] + tail)[1..] == tail;
    } else {
      SplitPrefix(p[1..], sep, tail);
      var s := p + [sep] + tail;
      assert s[0] == p[0];
      assert s[1..] == p[1..] + [sep] + tail;
      assert [p[0]] + p[1..] == p;
    }
  }

  /** A separator-free string does not split. */
  lemma {:induction false} SplitWhole(p: string, sep: char)
    requires sep !in p
    ensures Split(p, sep) == [p]
    decreases |p|
  {
    if p != [] {
      SplitWhole(p[1..], sep);
      assert [p[0]] + p[1..] == p;
    }
  }

  /** Splitting a join of separator-free pieces gives back the pieces. */
  lemma {:induction false} SplitJoin(pieces: seq<string>, sep: char)
    requires |pieces| >= 1
    requires forall i :: 0 <= i < |pieces| ==> sep !in pieces[i]
    ensures Split(Join(pieces, sep), sep) == pieces
    decreases |pieces|
  {
    if |pieces| == 1 {
      SplitWhole(pieces[0], sep);
    } else {
      SplitJoin(pieces[1..], sep);
      SplitPrefix(pieces[0], sep, Join(pieces[1..], sep));
      assert [pieces[0]] + pieces[1..] == pieces;
    }
  }

  // ---------------------------------------------------------------------
  // Instructor categories
  // ---------------------------------------------------------------------

  /** One category code: `item.trim().toUpperCase()`. */
  function CategoryCode(item: string): string {
    ToUpperAscii(Trim(item))
  }

  /** `categories.split(',').map(item => item.trim().toUpperCase())`. */
  function NormalizeCategories(s: string): (codes: seq<string>)
    ensures |codes| == Count(s, ',') + 1
    ensures forall i :: 0 <= i < |codes| ==> codes[i] == CategoryCode(Split(s, ',')[i])
  {
    var items := Split(s, ',');
    seq(|items|, i requires 0 <= i < |items| => CategoryCode(items[i]))
  }

  lemma CategoryCodeIdempotent(item: string)
    ensures CategoryCode(CategoryCode(item)) == CategoryCode(item)
  {
    var t := Trim(item);
    var u := ToUpperAscii(t);
    TrimEnds(item);
    if u != [] {
      UpperKeepsSpaces(t[0]);
      UpperKeepsSpaces(t[|t| - 1]);
    }
    TrimNoop(u);
    UpperIdempotent(t);
  }

  /** A category code holds no comma when the item it came from holds none. */
  lemma CategoryCodeCommaFree(item: string)
    requires ',' !in item
    ensures ',' !in CategoryCode(item)
  {
    TrimIsSlice(item);
    var t := Trim(item);
    assert forall i :: 0 <= i < |t| ==> t[i] in item;
  }

  /**
   * Normalising is idempotent: joining the codes with commas and
   * normalising again gives the same list.
   */
  lemma NormalizeCategoriesIdempotent(s: string)
    ensures NormalizeCategories(Join(NormalizeCategories(s), ',')) == NormalizeCategories(s)
  {
    var codes := NormalizeCategories(s);
    var items := Split(s, ',');
    forall i | 0 <= i < |codes| ensures ',' !in codes[i] && CategoryCode(codes[i]) == codes[i] {
      CategoryCodeCommaFree(items[i]);
      CategoryCodeIdempotent(items[i]);
    }
    SplitJoin(codes, ',');
  }

  /** Every code of a normalised list is a fixed point of the normalisation. */
  lemma NormalizedCodesAreStable(s: string, i: nat)
    requires i < |NormalizeCategories(s)|
    ensures CategoryCode(NormalizeCategories(s)[i]) == NormalizeCategories(s)[i]
    ensures IsUpperNormal(NormalizeCategories(s)[i])
  {
    CategoryCodeIdempotent(Split(s, ',')[i]);
    UpperIsNormal(Trim(Split(s, ',')[i]));
  }
}
