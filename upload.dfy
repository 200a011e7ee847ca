/** The request handler of `upload_results.php`: read the body, decode it, extract
    the submission, check the required fields, check the email, normalise the date,
    insert the row, and answer 201 — or, for the first step that throws, answer 400
    with that step's message. The JSON decoder, the email validator, the date
    normaliser and the datastore are parameters of the handler. */
module Upload {
  import opened Wrappers
  import opened Text
  import opened Survey
  import opened Validation
  import Recommendations

  const EmptyBodyMessage: string := "Empty request body."
  const InsertedMessage: string := "Inserted successfully"

  /** What the handler answers: the HTTP status, the `status` and `message` members of
      the JSON payload, and `survey_id` on success. */
  datatype Response = Response(code: int, status: string, message: string, surveyId: Option<int>)

  /** The values bound to the fourteen parameters of the `INSERT INTO survey_results`. */
  datatype Record = Record(
    organization: string,
    contactPerson: string,
    contactPersonRole: string,
    email: string,
    industry: string,
    date: string,
    overallScore: Score,
    maturityStage: string,
    strategy: Score,
    dataCat: Score,
    technology: Score,
    people: Score,
    governance: Score,
    recommendations: string)

  /** The 400 answer of the `catch` block, carrying the exception's message. */
  function Failed(message: string): Response {
    Response(400, "error", message, None)
  }

  /** The 201 answer, carrying the id the datastore assigned. */
  function Created(id: int): Response {
    Response(201, "ok", InsertedMessage, Some(id))
  }

  /** The row bound from a submission, with its date already normalised. */
  function ToRecord(s: Submission, date: string): Record {
    Record(s.organization, s.contactPerson, s.contactPersonRole, s.email, s.industry, date,
           s.overallScore, s.maturityStage, s.strategy, s.dataCat, s.technology, s.people,
           s.governance, s.recommendations)
  }

  /** What every row that reaches the datastore satisfies: the seven required values
      are non-empty and clean, the email is accepted, the date is the normaliser's
      output for the raw date, and the recommendations are clean and fit the column. */
  predicate Storable(r: Record, s: Submission, isEmail: string -> bool, normalizeDate: string -> string) {
    && r.organization != "" && r.contactPerson != "" && r.contactPersonRole != ""
    && r.email != "" && r.industry != "" && r.maturityStage != "" && s.dateRaw != ""
    && IsClean(r.organization) && IsClean(r.contactPerson) && IsClean(r.contactPersonRole)
    && IsClean(r.email) && IsClean(r.industry) && IsClean(r.maturityStage)
    && isEmail(r.email)
    && r.date == normalizeDate(s.dateRaw)
    && IsClean(r.recommendations) && |r.recommendations| <= Recommendations.MaxChars
  }

  /** A submission that passes validation yields a row fit for the datastore. */
  lemma AdmissibleIsStorable(s: Submission, isEmail: string -> bool, normalizeDate: string -> string)
    requires Sanitised(s) && Admissible(s, isEmail)
    ensures Storable(ToRecord(s, normalizeDate(s.dateRaw)), s, isEmail, normalizeDate)
  {
    MissingRequired(s, "");
  }

  /** How the steps after extraction answer for submission `s`: a missing-field report
      fails with the missing-fields message, then a rejected email fails with the
      invalid-email message, and in both cases nothing reaches the datastore; an
      admissible submission sends its row, dated by `normalizeDate`, and the answer is
      201 with the new id or 400 with the insert's message. */
  predicate Answered(
    s: Submission,
    isEmail: string -> bool,
    normalizeDate: string -> string,
    insert: Record -> Result<int, string>,
    resp: Response,
    sent: Option<Record>)
  {
    var missing := Missing(RequiredValues(s));
    && (missing != [] ==> resp == Failed(MissingMessage(missing)) && sent.None?)
    && (missing == [] && !isEmail(s.email) ==> resp == Failed(InvalidEmailMessage) && sent.None?)
    && (Admissible(s, isEmail) ==>
          && sent == Some(ToRecord(s, normalizeDate(s.dateRaw)))
          && resp == match insert(sent.value)
                     case Success(id) => Created(id)
                     case Failure(e) => Failed(e))
  }

  /** A request object whose seven required keys carry values that are non-empty once
      trimmed (edge whitespace is allowed), and which omits every other key but the
      overall score, passes validation once its trimmed email is accepted; the row
      sent for it carries the trimmed values, the normalised trimmed date, the omitted
      scores at their default 0 and empty recommendations. */
  lemma CompleteSubmissionAdmissible(
    body: Body, marker: string, isEmail: string -> bool, normalizeDate: string -> string,
    org: string, person: string, role: string, email: string, industry: string,
    date: string, stage: string, overall: string)
    requires Recommendations.IsMarker(marker)
    requires Lookup(body, "Organization") == Some(org) && Trim(org) != ""
    requires Lookup(body, "Contact_Person") == Some(person) && Trim(person) != ""
    requires Lookup(body, "Contact_Person_role") == Some(role) && Trim(role) != ""
    requires Lookup(body, "Email") == Some(email) && Trim(email) != ""
    requires Lookup(body, "Industry") == Some(industry) && Trim(industry) != ""
    requires Lookup(body, "Date") == Some(date) && Trim(date) != ""
    requires Lookup(body, "Maturity_Stage") == Some(stage) && Trim(stage) != ""
    requires Lookup(body, "Overall_Score") == Some(overall)
    requires Lookup(body, "Strategy") == Lookup(body, "Data") == Lookup(body, "Technology") == None
    requires Lookup(body, "People") == Lookup(body, "Governance") == Lookup(body, "Recommendations") == None
    requires isEmail(Trim(email))
    ensures var s := Extract(body, marker);
      && Admissible(s, isEmail)
      && ToRecord(s, normalizeDate(s.dateRaw)) == Record(
           Trim(org), Trim(person), Trim(role), Trim(email), Trim(industry), normalizeDate(Trim(date)),
           Cast(overall), Trim(stage), Zero, Zero, Zero, Zero, Zero, "")
  {
    var s := Extract(body, marker);
    assert s.recommendations == "" by { TrimClean(""); }
    MissingRequired(s, "");
  }

  /** The steps after extraction (validate, normalise the date, insert, answer) for
      the extracted submission `s`. `isEmail` stands for
      `filter_var(..., FILTER_VALIDATE_EMAIL)`, `normalizeDate` for `normalizeDate`,
      and `insert` for connecting, preparing and executing the insert and reading the
      new id (its failure carries the exception's message). `sent` is the row handed
      to the datastore, `None` when validation fails first. */
  method Submit(
    s: Submission,
    isEmail: string -> bool,
    normalizeDate: string -> string,
    insert: Record -> Result<int, string>)
    returns (resp: Response, sent: Option<Record>)
    requires Sanitised(s)
    ensures Answered(s, isEmail, normalizeDate, insert, resp, sent)
    ensures sent.Some? ==> Storable(sent.value, s, isEmail, normalizeDate)
    ensures resp.code == 201 <==> Admissible(s, isEmail) && sent.Some? && insert(sent.value).Success?
    ensures resp == Failed(resp.message) || (resp.surveyId.Some? && resp == Created(resp.surveyId.value))
  {
    var invalid := CheckSubmission(s, isEmail);
    if invalid.Some? {
      return Failed(invalid.value), None;
    }
    AdmissibleIsStorable(s, isEmail, normalizeDate);
    var record := ToRecord(s, normalizeDate(s.dateRaw));
    sent := Some(record);
    var outcome := insert(record);
    if outcome.Failure? {
      resp := Failed(outcome.error);
    } else {
      resp := Created(outcome.value);
    }
  }

  /** The whole request, from the raw body (`None` when it cannot be read) to the
      answer; `decode` stands for `json_decode`, whose failure carries the exception's
      message, and `marker` is the suffix appended to over-long recommendations
      (`Recommendations.MisencodedEllipsis` as written, `Recommendations.Ellipsis`
      corrected). 201 comes back exactly when every check passed and the insert succeeded;
      every other path answers 400 with the message of the step that failed. */
  method HandleUpload(
    raw: Option<string>,
    marker: string,
    decode: string -> Result<Body, string>,
    isEmail: string -> bool,
    normalizeDate: string -> string,
    insert: Record -> Result<int, string>)
    returns (resp: Response, sent: Option<Record>)
    requires Recommendations.IsMarker(marker)
    // Only the two shapes of answer exist.
    ensures resp == Failed(resp.message) || (resp.surveyId.Some? && resp == Created(resp.surveyId.value))
    // An unreadable or empty body fails first.
    ensures raw.None? || raw == Some("") ==> resp == Failed(EmptyBodyMessage) && sent.None?
    // A body the decoder rejects fails with the decoder's message.
    ensures raw.Some? && raw.value != "" && decode(raw.value).Failure? ==>
      resp == Failed(decode(raw.value).error) && sent.None?
    // After decoding, the remaining steps answer for the extracted submission.
    ensures raw.Some? && raw.value != "" && decode(raw.value).Success? ==>
      var s := Extract(decode(raw.value).value, marker);
      && Answered(s, isEmail, normalizeDate, insert, resp, sent)
      && (sent.Some? ==> Storable(sent.value, s, isEmail, normalizeDate))
    // 201 exactly when every check passed and the insert succeeded.
    ensures resp.code == 201 <==>
      && raw.Some? && raw.value != "" && decode(raw.value).Success?
      && Admissible(Extract(decode(raw.value).value, marker), isEmail)
      && sent.Some? && insert(sent.value).Success?
  {
    if raw.None? || raw.value == "" {
      return Failed(EmptyBodyMessage), None;
    }
    var decoded := decode(raw.value);
    if decoded.Failure? {
      return Failed(decoded.error), None;
    }
    var s := Extract(decoded.value, marker);
    resp, sent := Submit(s, isEmail, normalizeDate, insert);
  }
}
