/** `formatRecommendations`: clamp the free-text recommendations to the
    `VARCHAR(2500)` column of `survey_results`. Lengths count codepoints,
    as `mb_strlen` and `mb_substr` do with the 'UTF-8' encoding. */
module Recommendations {
  import opened Text

  /** Width of the `Recommendations` column, in codepoints. */
  const MaxChars: nat := 2500

  /** Codepoints kept from an over-long text before the marker is appended. */
  const KeepChars: nat := 1497

  /** U+2026 HORIZONTAL ELLIPSIS, the single glyph the truncation means to append. */
  const Ellipsis: string := "\U{2026}"

  /** The suffix literal as the source file holds it: U+00E2 U+20AC U+00A6, which is
      the UTF-8 encoding of U+2026 (bytes E2 80 A6) read back as Windows-1252. */
  const MisencodedEllipsis: string := "\U{00E2}\U{20AC}\U{00A6}"

  /** A suffix that keeps a truncated text within the column and clean at its end. */
  predicate IsMarker(m: string) {
    m != [] && IsClean(m) && KeepChars + |m| <= MaxChars
  }

  /** The body of `formatRecommendations` with the truncation marker as a parameter:
      trim; empty stays empty; more than `MaxChars` codepoints become the first
      `KeepChars` of them followed by `marker`; anything else passes through.
      The result always fits the column and has no edge whitespace, and it is
      empty exactly when the trimmed input is. */
  function Clamp(recs: string, marker: string): (r: string)
    requires IsMarker(marker)
    ensures |r| <= MaxChars
    ensures IsClean(r)
    ensures r == [] <==> Trim(recs) == []
  {
    var t := Trim(recs);
    if t == [] then []
    else if |t| > MaxChars then t[..KeepChars] + marker
    else t
  }

  /** A trimmed text within the column width is returned unchanged. */
  lemma ClampShort(recs: string, marker: string)
    requires IsMarker(marker)
    requires |Trim(recs)| <= MaxChars
    ensures Clamp(recs, marker) == Trim(recs)
  {
  }

  /** An over-long trimmed text becomes its first `KeepChars` codepoints followed by
      the marker, so its length is exactly `KeepChars + |marker|`. */
  lemma ClampLong(recs: string, marker: string)
    requires IsMarker(marker)
    requires |Trim(recs)| > MaxChars
    ensures var r := Clamp(recs, marker);
      && |r| == KeepChars + |marker|
      && r[..KeepChars] == Trim(recs)[..KeepChars]
      && r[KeepChars..] == marker
  {
  }

  /** A clean text that fits the column is returned unchanged. */
  lemma ClampFitting(recs: string, marker: string)
    requires IsMarker(marker)
    requires IsClean(recs) && |recs| <= MaxChars
    ensures Clamp(recs, marker) == recs
  {
    TrimClean(recs);
  }

  /** Clamping a clamped text changes nothing. */
  lemma ClampIdempotent(recs: string, marker: string)
    requires IsMarker(marker)
    ensures Clamp(Clamp(recs, marker), marker) == Clamp(recs, marker)
  {
    ClampFitting(Clamp(recs, marker), marker);
  }

  /** `formatRecommendations` with the suffix literal exactly as the source holds it. */
  function FormatRecommendationsAsWritten(recs: string): (r: string)
    ensures |r| <= MaxChars && IsClean(r)
    ensures r == [] <==> Trim(recs) == []
  {
    Clamp(recs, MisencodedEllipsis)
  }

  /** `formatRecommendations` with the single ellipsis glyph it evidently intends. */
  function FormatRecommendations(recs: string): (r: string)
    ensures |r| <= MaxChars && IsClean(r)
    ensures r == [] <==> Trim(recs) == []
  {
    Clamp(recs, Ellipsis)
  }

  /** As written, an over-long text is stored as 1500 codepoints ending in the three
      characters "â€¦" instead of the ellipsis glyph. */
  lemma AsWrittenAppendsMojibake(recs: string)
    requires |Trim(recs)| > MaxChars
    ensures var r := FormatRecommendationsAsWritten(recs);
      && |r| == 1500
      && r[1497..] == "\U{00E2}\U{20AC}\U{00A6}"
      && r[|r| - 1] != '\U{2026}'
  {
    var r := FormatRecommendationsAsWritten(recs);
    ClampLong(recs, MisencodedEllipsis);
    assert r[KeepChars..] == MisencodedEllipsis;
    assert r[|r| - 1] == MisencodedEllipsis[2];
  }

  /** Corrected, an over-long text is stored as 1498 codepoints, the last being U+2026,
      and the first 1497 are those of the trimmed input. */
  lemma CorrectedAppendsEllipsis(recs: string)
    requires |Trim(recs)| > MaxChars
    ensures var r := FormatRecommendations(recs);
      && |r| == 1498
      && r[..1497] == Trim(recs)[..1497]
      && r[1497] == '\U{2026}'
  {
    ClampLong(recs, Ellipsis);
  }

  /** Text of 3000 copies of a non-whitespace character is cut to 1498 codepoints. */
  lemma {:induction false} CorrectedOnLongRun(c: char)
    requires !IsTrimChar(c)
    ensures FormatRecommendations(seq(3000, _ => c)) == seq(1497, _ => c) + Ellipsis
  {
    var s := seq(3000, _ => c);
    TrimClean(s);
    assert s[..1497] == seq(1497, _ => c);
  }
}
