/** The decoded request, the extracted submission, and the extraction step of
    `upload_results.php`: each string field is read with a default of "" and
    trimmed, each score defaults to 0, and the recommendations are clamped. */
module Survey {
  import opened Wrappers
  import opened Text
  import Recommendations

  /** A decoded JSON request object: each key maps to the text of its value,
      or to `None` when the value is JSON `null`. */
  type Body = map<string, Option<string>>

  /** A score as the `(float)` cast leaves it: the literal default 0 when the key is
      absent or null, otherwise the cast of the given text (left uninterpreted). */
  datatype Score = Zero | Cast(text: string)

  /** One submission, as extracted and sanitised from the request. */
  datatype Submission = Submission(
    organization: string,
    contactPerson: string,
    contactPersonRole: string,
    email: string,
    industry: string,
    dateRaw: string,
    overallScore: Score,
    maturityStage: string,
    strategy: Score,
    dataCat: Score,
    technology: Score,
    people: Score,
    governance: Score,
    recommendations: string)

  /** `$data[key] ?? ...`: the value under `key`, `None` when the key is absent or null. */
  function Lookup(body: Body, key: string): Option<string> {
    if key in body then body[key] else None
  }

  /** `trim((string)($data[key] ?? ''))`: the result has no edge whitespace. */
  function TextField(body: Body, key: string): (r: string)
    ensures IsClean(r)
  {
    Trim(Lookup(body, key).GetOr(""))
  }

  /** An absent or null text key reads as "", and a value without edge whitespace is
      read as it is. */
  lemma TextFieldDefault(body: Body, key: string)
    ensures Lookup(body, key).None? ==> TextField(body, key) == ""
    ensures Lookup(body, key).Some? && IsClean(Lookup(body, key).value) ==>
      TextField(body, key) == Lookup(body, key).value
  {
    TrimClean("");
    if Lookup(body, key).Some? {
      if IsClean(Lookup(body, key).value) { TrimClean(Lookup(body, key).value); }
    }
  }

  /** `(float)($data[key] ?? 0)`. */
  function ScoreField(body: Body, key: string): Score {
    match Lookup(body, key)
    case None => Zero
    case Some(t) => Cast(t)
  }

  /** An absent or null score key takes the `??` default 0; a present value goes
      through the cast, whatever number the cast then yields. */
  lemma ScoreFieldDefault(body: Body, key: string)
    ensures ScoreField(body, key) == Zero <==> Lookup(body, key).None?
  {
  }

  /** What extraction guarantees of a submission: no text field has edge whitespace
      and the recommendations fit their column. */
  predicate Sanitised(s: Submission) {
    && IsClean(s.organization) && IsClean(s.contactPerson) && IsClean(s.contactPersonRole)
    && IsClean(s.email) && IsClean(s.industry) && IsClean(s.dateRaw)
    && IsClean(s.maturityStage) && IsClean(s.recommendations)
    && |s.recommendations| <= Recommendations.MaxChars
  }

  /** The fourteen keys the extraction block reads. */
  const FieldKeys: set<string> := {
    "Organization", "Contact_Person", "Contact_Person_role", "Email", "Industry", "Date",
    "Overall_Score", "Maturity_Stage", "Strategy", "Data", "Technology", "People",
    "Governance", "Recommendations" }

  /** The extraction block: every field read from its own JSON key (the key "Data"
      feeds `dataCat`, the key "Date" feeds `dateRaw`), and the recommendations
      clamped with truncation marker `marker`; the result is sanitised. The marker
      `Recommendations.MisencodedEllipsis` gives the block as written, the marker
      `Recommendations.Ellipsis` the corrected one. */
  function Extract(body: Body, marker: string): (s: Submission)
    requires Recommendations.IsMarker(marker)
    ensures Sanitised(s)
  {
    Submission(
      TextField(body, "Organization"),
      TextField(body, "Contact_Person"),
      TextField(body, "Contact_Person_role"),
      TextField(body, "Email"),
      TextField(body, "Industry"),
      TextField(body, "Date"),
      ScoreField(body, "Overall_Score"),
      TextField(body, "Maturity_Stage"),
      ScoreField(body, "Strategy"),
      ScoreField(body, "Data"),
      ScoreField(body, "Technology"),
      ScoreField(body, "People"),
      ScoreField(body, "Governance"),
      Recommendations.Clamp(Lookup(body, "Recommendations").GetOr(""), marker))
  }

  /** A body without any of the fourteen keys (for instance `{}`, `{"foo": "x"}`, or
      JSON that is not an object) extracts to all defaults: empty strings and zero
      scores, whatever the marker. */
  lemma ExtractDefaults(body: Body, marker: string)
    requires Recommendations.IsMarker(marker)
    requires forall k :: k in FieldKeys ==> Lookup(body, k).None?
    ensures Extract(body, marker) == Submission("", "", "", "", "", "", Zero, "", Zero, Zero, Zero, Zero, Zero, "")
  {
    assert Lookup(body, "Organization") == None;
    assert Lookup(body, "Contact_Person") == None;
    assert Lookup(body, "Contact_Person_role") == None;
    assert Lookup(body, "Email") == None;
    assert Lookup(body, "Industry") == None;
    assert Lookup(body, "Date") == None;
    assert Lookup(body, "Maturity_Stage") == None;
    assert Lookup(body, "Recommendations") == None;
    assert Lookup(body, "Overall_Score") == None;
    assert Lookup(body, "Strategy") == None;
    assert Lookup(body, "Data") == None;
    assert Lookup(body, "Technology") == None;
    assert Lookup(body, "People") == None;
    assert Lookup(body, "Governance") == None;
    TrimClean("");
  }
}
