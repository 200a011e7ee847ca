/** Whitespace trimming with the character set of PHP's `trim`, and `implode`. */
module Text {

  /** The characters `trim` strips when given no character list:
      space, tab, line feed, carriage return, NUL and vertical tab. */
  predicate IsTrimChar(c: char) {
    c == ' ' || c == '\t' || c == '\n' || c == '\r' || c == '\0' || c == '\U{000B}'
  }

  /** Neither end of `s` is a trim character. */
  predicate IsClean(s: string) {
    s == [] || (!IsTrimChar(s[0]) && !IsTrimChar(s[|s| - 1]))
  }

  /** `s` with its leading trim characters removed: a suffix of `s`, everything cut off
      is a trim character, and what remains does not start with one. */
  function TrimStart(s: string): (r: string)
    ensures |r| <= |s| && r == s[|s| - |r|..]
    ensures r == [] || !IsTrimChar(r[0])
  {
    if s != [] && IsTrimChar(s[0]) then TrimStart(s[1..]) else s
  }

  /** Everything `TrimStart` cuts off is a trim character. */
  lemma {:induction false} TrimStartCutsTrimChars(s: string)
    ensures forall i :: 0 <= i < |s| - |TrimStart(s)| ==> IsTrimChar(s[i])
  {
    if s != [] && IsTrimChar(s[0]) {
      TrimStartCutsTrimChars(s[1..]);
      forall i | 0 <= i < |s| - |TrimStart(s)| ensures IsTrimChar(s[i]) {
        if i > 0 { assert s[i] == s[1..][i - 1]; }
      }
    }
  }

  /** `s` with its trailing trim characters removed: a prefix of `s`, everything cut off
      is a trim character, and what remains does not end with one. */
  function TrimEnd(s: string): (r: string)
    ensures |r| <= |s| && r == s[..|r|]
    ensures r == [] || !IsTrimChar(r[|r| - 1])
  {
    if s != [] && IsTrimChar(s[|s| - 1]) then TrimEnd(s[..|s| - 1]) else s
  }

  /** Everything `TrimEnd` cuts off is a trim character. */
  lemma {:induction false} TrimEndCutsTrimChars(s: string)
    ensures forall i :: |TrimEnd(s)| <= i < |s| ==> IsTrimChar(s[i])
  {
    if s != [] && IsTrimChar(s[|s| - 1]) {
      TrimEndCutsTrimChars(s[..|s| - 1]);
      forall i | |TrimEnd(s)| <= i < |s| ensures IsTrimChar(s[i]) {
        if i < |s| - 1 { assert s[i] == s[..|s| - 1][i]; }
      }
    }
  }

  /** `r` is the slice `s[lo..lo + |r|]` and only trim characters lie outside it. */
  predicate IsCoreAt(s: string, r: string, lo: int) {
    && 0 <= lo && lo + |r| <= |s|
    && r == s[lo..lo + |r|]
    && (forall i :: 0 <= i < lo ==> IsTrimChar(s[i]))
    && (forall i :: lo + |r| <= i < |s| ==> IsTrimChar(s[i]))
  }

  /** PHP's `trim($s)`: both ends of the result are free of trim characters. */
  function Trim(s: string): (r: string)
    ensures IsClean(r)
  {
    var t := TrimStart(s);
    var r := TrimEnd(t);
    assert r != [] ==> r[0] == t[0];
    r
  }

  /** `trim` cuts trim characters only: its result is a slice of the input with only
      trim characters on either side. */
  lemma TrimIsCore(s: string)
    ensures exists lo :: IsCoreAt(s, Trim(s), lo)
  {
    var t := TrimStart(s);
    TrimStartCutsTrimChars(s);
    TrimEndCutsTrimChars(t);
    assert IsCoreAt(s, Trim(s), |s| - |t|);
  }

  /** Trimming a string that is already clean changes nothing. */
  lemma TrimClean(s: string)
    requires IsClean(s)
    ensures Trim(s) == s
  {
  }

  /** Trimming is idempotent. */
  lemma TrimIdempotent(s: string)
    ensures Trim(Trim(s)) == Trim(s)
  {
    TrimClean(Trim(s));
  }

  /** `trim` yields `""` exactly when the input is made of trim characters only. */
  lemma TrimEmptyIff(s: string)
    ensures Trim(s) == [] <==> forall i :: 0 <= i < |s| ==> IsTrimChar(s[i])
  {
    var r := Trim(s);
    TrimIsCore(s);
    var lo :| IsCoreAt(s, r, lo);
    if r != [] {
      assert s[lo] == r[0];
    } else {
      forall i | 0 <= i < |s| ensures IsTrimChar(s[i]) {
        if i >= lo { assert lo + |r| <= i; }
      }
    }
  }

  /** PHP's `implode($sep, $parts)`: the parts in order, separated by `sep`. */
  function Join(parts: seq<string>, sep: string): string {
    if |parts| == 0 then ""
    else if |parts| == 1 then parts[0]
    else parts[0] + sep + Join(parts[1..], sep)
  }

  /** `a` occurs in `b` starting at offset `i`. */
  predicate OccursAt(a: string, b: string, i: int) {
    0 <= i && i + |a| <= |b| && b[i..i + |a|] == a
  }

  /** Every part occurs in the joined string. */
  lemma {:induction false} JoinMentions(parts: seq<string>, sep: string, k: int)
    requires 0 <= k < |parts|
    ensures exists i :: OccursAt(parts[k], Join(parts, sep), i)
  {
    var j := Join(parts, sep);
    if k == 0 {
      assert OccursAt(parts[0], j, 0);
    } else {
      var rest := Join(parts[1..], sep);
      JoinMentions(parts[1..], sep, k - 1);
      var i :| OccursAt(parts[1..][k - 1], rest, i);
      var off := |parts[0]| + |sep|;
      assert j == parts[0] + sep + rest;
      assert j[off + i..off + i + |parts[k]|] == rest[i..i + |parts[k]|];
      assert OccursAt(parts[k], j, off + i);
    }
  }
}
