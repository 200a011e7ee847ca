/** The required-field check of `upload_results.php`: the seven required fields are
    scanned in a fixed order and the name of every empty one is collected. */
module Validation {
  import opened Wrappers
  import opened Text
  import opened Survey

  /** The required fields, in the order the check scans them. */
  const RequiredFields: seq<string> :=
    ["Organization", "Contact_Person", "Contact_Person_role", "Email", "Industry", "Date", "Maturity_Stage"]

  const MissingPrefix: string := "Missing required fields: "
  const InvalidEmailMessage: string := "Invalid email format."

  /** The field-name/value pairs the check iterates over, in the order of `RequiredFields`. */
  function RequiredValues(s: Submission): (fields: seq<(string, string)>)
    ensures |fields| == |RequiredFields|
    ensures forall i :: 0 <= i < |fields| ==> fields[i].0 == RequiredFields[i]
  {
    [ ("Organization", s.organization),
      ("Contact_Person", s.contactPerson),
      ("Contact_Person_role", s.contactPersonRole),
      ("Email", s.email),
      ("Industry", s.industry),
      ("Date", s.dateRaw),
      ("Maturity_Stage", s.maturityStage) ]
  }

  /** The names of the fields whose value is "", in scan order. */
  function Missing(fields: seq<(string, string)>): seq<string> {
    if fields == [] then []
    else
      var last := fields[|fields| - 1];
      Missing(fields[..|fields| - 1]) + (if last.1 == "" then [last.0] else [])
  }

  /** The `foreach` that appends every empty field's name to `$missing`. */
  method CollectMissing(fields: seq<(string, string)>) returns (missing: seq<string>)
    ensures missing == Missing(fields)
  {
    missing := [];
    var i := 0;
    while i < |fields|
      invariant 0 <= i <= |fields|
      invariant missing == Missing(fields[..i])
    {
      assert fields[..i + 1][..i] == fields[..i];
      if fields[i].1 == "" {
        missing := missing + [fields[i].0];
      }
      i := i + 1;
    }
    assert fields[..|fields|] == fields;
  }

  /** The message of the missing-fields failure: the prefix, then the names joined by ", ". */
  function MissingMessage(missing: seq<string>): string {
    MissingPrefix + Join(missing, ", ")
  }

  /** The missing-fields message starts with its prefix and mentions every missing
      field, not only the first. */
  lemma MissingMessageMentions(missing: seq<string>, k: int)
    requires 0 <= k < |missing|
    ensures var m := MissingMessage(missing);
      && m[..|MissingPrefix|] == MissingPrefix
      && exists i :: OccursAt(missing[k], m, i)
  {
    var m := MissingMessage(missing);
    var j := Join(missing, ", ");
    JoinMentions(missing, ", ", k);
    var i :| OccursAt(missing[k], j, i);
    assert m[|MissingPrefix| + i..|MissingPrefix| + i + |missing[k]|] == j[i..i + |missing[k]|];
    assert OccursAt(missing[k], m, |MissingPrefix| + i);
  }

  /** A submission passes validation: all seven required fields are present and the
      email validator accepts the email. */
  predicate Admissible(s: Submission, isEmail: string -> bool) {
    Missing(RequiredValues(s)) == [] && isEmail(s.email)
  }

  /** The presence check followed by the email check: the message of the first check
      that fails, or `None` when the submission is admissible. The email validator is
      consulted only when no required field is missing. */
  method CheckSubmission(s: Submission, isEmail: string -> bool) returns (error: Option<string>)
    ensures Missing(RequiredValues(s)) != [] ==> error == Some(MissingMessage(Missing(RequiredValues(s))))
    ensures Missing(RequiredValues(s)) == [] && !isEmail(s.email) ==> error == Some(InvalidEmailMessage)
    ensures error.None? <==> Admissible(s, isEmail)
  {
    var missing := CollectMissing(RequiredValues(s));
    if missing != [] {
      return Some(MissingMessage(missing));
    }
    if !isEmail(s.email) {
      return Some(InvalidEmailMessage);
    }
    return None;
  }

  /** A name is reported exactly when some field of that name is empty. */
  lemma {:induction false} MissingMembership(fields: seq<(string, string)>, name: string)
    ensures name in Missing(fields) <==> exists i :: 0 <= i < |fields| && fields[i] == (name, "")
  {
    if fields != [] {
      var init := fields[..|fields| - 1];
      MissingMembership(init, name);
      if exists i :: 0 <= i < |init| && init[i] == (name, "") {
        var i :| 0 <= i < |init| && init[i] == (name, "");
        assert fields[i] == (name, "");
      }
      if exists i :: 0 <= i < |fields| && fields[i] == (name, "") {
        var i :| 0 <= i < |fields| && fields[i] == (name, "");
        if i < |init| { assert init[i] == (name, ""); }
      }
    }
  }

  /** Nothing is reported exactly when every field is non-empty. */
  lemma {:induction false} MissingEmptyIff(fields: seq<(string, string)>)
    ensures Missing(fields) == [] <==> forall i :: 0 <= i < |fields| ==> fields[i].1 != ""
  {
    if fields != [] {
      var init := fields[..|fields| - 1];
      MissingEmptyIff(init);
      if Missing(fields) == [] {
        forall i | 0 <= i < |fields| ensures fields[i].1 != "" {
          if i < |init| { assert init[i] == fields[i]; }
        }
      }
    }
  }

  /** Scanning two runs of fields one after the other reports the first run's names
      first: the report follows scan order. */
  lemma {:induction false} MissingAppend(a: seq<(string, string)>, b: seq<(string, string)>)
    ensures Missing(a + b) == Missing(a) + Missing(b)
  {
    if b != [] {
      var binit := b[..|b| - 1];
      MissingAppend(a, binit);
      assert (a + b)[..|a + b| - 1] == a + binit;
    } else {
      assert a + b == a;
    }
  }

  /** Every reported name belongs to some scanned field. */
  lemma {:induction false} MissingNamesScanned(fields: seq<(string, string)>)
    ensures forall n :: n in Missing(fields) ==> exists i :: 0 <= i < |fields| && fields[i].0 == n
  {
    forall n | n in Missing(fields) ensures exists i :: 0 <= i < |fields| && fields[i].0 == n {
      MissingMembership(fields, n);
    }
  }

  /** When the scanned names are pairwise distinct, no name is reported twice. */
  lemma {:induction false} MissingNoDuplicates(fields: seq<(string, string)>)
    requires forall i, j :: 0 <= i < j < |fields| ==> fields[i].0 != fields[j].0
    ensures forall i, j :: 0 <= i < j < |Missing(fields)| ==> Missing(fields)[i] != Missing(fields)[j]
  {
    if fields != [] {
      var init := fields[..|fields| - 1];
      var last := fields[|fields| - 1];
      MissingNoDuplicates(init);
      if last.1 == "" {
        MissingNamesScanned(init);
        assert last.0 !in Missing(init);
      }
    }
  }

  /** The seven required-field names are pairwise distinct. */
  lemma RequiredFieldsDistinct()
    ensures forall i, j :: 0 <= i < j < |RequiredFields| ==> RequiredFields[i] != RequiredFields[j]
  {
  }

  /** The report for a submission holds a required field's name exactly when that field
      is empty, lists no name twice, and is empty exactly when all seven are present. */
  lemma {:induction false} MissingRequired(s: Submission, name: string)
    ensures var m := Missing(RequiredValues(s));
      && (name in m <==> exists i :: 0 <= i < |RequiredFields| && RequiredFields[i] == name && RequiredValues(s)[i].1 == "")
      && (forall i, j :: 0 <= i < j < |m| ==> m[i] != m[j])
      && (m == [] <==> (s.organization != "" && s.contactPerson != "" && s.contactPersonRole != ""
                        && s.email != "" && s.industry != "" && s.dateRaw != "" && s.maturityStage != ""))
  {
    var fields := RequiredValues(s);
    MissingMembership(fields, name);
    RequiredFieldsDistinct();
    MissingNoDuplicates(fields);
    MissingEmptyIff(fields);
    if exists i :: 0 <= i < |RequiredFields| && RequiredFields[i] == name && fields[i].1 == "" {
      var i :| 0 <= i < |RequiredFields| && RequiredFields[i] == name && fields[i].1 == "";
      assert fields[i] == (name, "");
    }
    if Missing(fields) == [] {
      assert fields[0].1 != "" && fields[1].1 != "" && fields[2].1 != "" && fields[3].1 != "";
      assert fields[4].1 != "" && fields[5].1 != "" && fields[6].1 != "";
    }
  }

  /** With distinct field names, the name of the field at position `k` is reported
      exactly when that field is empty. */
  lemma MissingAt(fields: seq<(string, string)>, k: int)
    requires forall i, j :: 0 <= i < j < |fields| ==> fields[i].0 != fields[j].0
    requires 0 <= k < |fields|
    ensures fields[k].0 in Missing(fields) <==> fields[k].1 == ""
  {
    MissingMembership(fields, fields[k].0);
    if fields[k].1 == "" {
      assert fields[k] == (fields[k].0, "");
    }
  }

  /** Each required name is reported exactly when its own submission field is empty. */
  lemma MissingByField(s: Submission)
    ensures var m := Missing(RequiredValues(s));
      && ("Organization" in m <==> s.organization == "")
      && ("Contact_Person" in m <==> s.contactPerson == "")
      && ("Contact_Person_role" in m <==> s.contactPersonRole == "")
      && ("Email" in m <==> s.email == "")
      && ("Industry" in m <==> s.industry == "")
      && ("Date" in m <==> s.dateRaw == "")
      && ("Maturity_Stage" in m <==> s.maturityStage == "")
  {
    var fields := RequiredValues(s);
    RequiredFieldsDistinct();
    MissingAt(fields, 0);
    MissingAt(fields, 1);
    MissingAt(fields, 2);
    MissingAt(fields, 3);
    MissingAt(fields, 4);
    MissingAt(fields, 5);
    MissingAt(fields, 6);
  }
}
