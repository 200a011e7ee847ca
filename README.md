# Survey upload: a Dafny model of the submission pipeline

This project models the request handler of the AI readiness survey endpoint
(`upload_results.php`). The handler accepts one JSON survey submission, extracts
and sanitises its fourteen fields, clamping the free-text recommendations to the
`VARCHAR(2500)` column, and checks that the seven required fields are present. It
then checks the email and normalises the date. Finally it inserts the row into
`survey_results` and answers 201 with the new id, or 400 with the message of the
first step that failed.

Modules, one per step of the handler:

- `Wrappers` (`wrappers.dfy`): `Option` and `Result`.
- `Text` (`text.dfy`): PHP's `trim` with its default character set (space, tab,
  line feed, carriage return, NUL and vertical tab) and `implode`.
- `Recommendations` (`recommendations.dfy`): `formatRecommendations`. Strings are
  sequences of codepoints, which is how `mb_strlen` and `mb_substr` count with
  `'UTF-8'`. The truncation marker is a parameter of one definition, `Clamp`. The
  marker as the file holds it and the marker it evidently means are two instances
  of `Clamp` (see Findings).
- `Survey` (`survey.dfy`): the decoded request object is a map from key to
  `Option<string>`, where `None` stands for JSON `null`. This module holds the
  extraction block (string fields read with default `""` and trimmed, scores
  defaulting to 0, recommendations clamped with a given truncation marker) and
  the extracted `Submission`.
- `Validation` (`validation.dfy`): the ordered scan of the seven required fields
  that collects every empty one, as a loop (`CollectMissing`) proved against the
  function `Missing`. It also holds the missing-fields message and the
  presence-then-email check.
- `Upload` (`upload.dfy`): the whole handler as a method returning a `Response`.
  It also returns the row handed to the datastore (`None` when the handler fails
  before the insert).

`json_decode`, `filter_var(..., FILTER_VALIDATE_EMAIL)`, `normalizeDate` and the
database insert are function-typed parameters of the handler. The body read from
`php://input` is a parameter too, with `None` standing for a failed read. So every
property of the handler holds whatever those collaborators do.

The truncation marker is also a parameter of the extraction step and of the
handler. With `Recommendations.MisencodedEllipsis`, the three codepoints "â€¦" that
line 35 holds, they are the code as written: an over-long text is stored as 1500
codepoints. With `Recommendations.Ellipsis` (U+2026) they are the corrected code,
which stores 1498. Every property of the handler is proved for both markers. The
discrepancy is logged under Findings.

## Model

| member | source | states |
|---|---|---|
| `Text.Trim` | upload_results.php:30 | the trimmed text has no trim character at either end |
| `Text.TrimIsCore` | upload_results.php:30 | trimming only cuts characters off the ends: the result is a slice of the input with only trim characters outside it |
| `Text.TrimEmptyIff` | upload_results.php:30-33 | `trim` gives "" exactly when every character of the input is a trim character |
| `Text.TrimClean` | upload_results.php:30 | a text without edge whitespace is left unchanged by `trim` |
| `Text.TrimIdempotent` | upload_results.php:30 | trimming twice is the same as trimming once |
| `Text.JoinMentions` | upload_results.php:81 | every name passed to `implode` occurs in the joined text |
| `Recommendations.Clamp` | upload_results.php:28-38 | for every input the result has at most 2500 codepoints and no edge whitespace, and it is "" exactly when the trimmed input is "" |
| `Recommendations.ClampShort` | upload_results.php:34-37 | a trimmed text of at most 2500 codepoints is returned unchanged |
| `Recommendations.ClampLong` | upload_results.php:34-35 | a trimmed text of more than 2500 codepoints becomes its first 1497 codepoints followed by the marker, `1497 + \|marker\|` codepoints in all |
| `Recommendations.ClampFitting` | upload_results.php:27-38 | a clean text that fits the column passes through unchanged |
| `Recommendations.ClampIdempotent` | upload_results.php:27-38 | formatting an already formatted text changes nothing |
| `Recommendations.FormatRecommendationsAsWritten` | upload_results.php:28-38 | with the suffix literal as written: fits 2500 codepoints, clean, empty exactly when the trimmed input is empty |
| `Recommendations.FormatRecommendations` | upload_results.php:28-38 | with the U+2026 suffix: fits 2500 codepoints, clean, empty exactly when the trimmed input is empty |
| `Recommendations.AsWrittenAppendsMojibake` | upload_results.php:35 | as written, an over-long text is stored as 1500 codepoints ending in U+00E2 U+20AC U+00A6, not in U+2026 |
| `Recommendations.CorrectedAppendsEllipsis` | upload_results.php:35 | corrected, an over-long text is stored as its first 1497 codepoints followed by U+2026, 1498 in all |
| `Recommendations.CorrectedOnLongRun` | upload_results.php:34-35 | 3000 copies of one non-whitespace character become 1497 copies followed by the ellipsis |
| `Survey.TextField` | upload_results.php:52-59 | a string field, once read and trimmed, has no edge whitespace |
| `Survey.TextFieldDefault` | upload_results.php:52-59 | an absent or null string key reads as "", and a value without edge whitespace is read as it is |
| `Survey.ScoreFieldDefault` | upload_results.php:58-64 | an absent or null score key takes the `??` default 0 (`Zero`); a present value goes through the cast (`Cast`) |
| `Survey.Extract` | upload_results.php:52-65 | for either truncation marker, the extracted submission is sanitised: no text field has edge whitespace and the recommendations fit 2500 codepoints |
| `Survey.ExtractDefaults` | upload_results.php:52-65 | a request object holding none of the fourteen keys (other keys are allowed) extracts to empty strings and zero scores |
| `Validation.RequiredValues` | upload_results.php:69-77 | the scan visits exactly the seven required fields, in the fixed order Organization, Contact_Person, Contact_Person_role, Email, Industry, Date, Maturity_Stage |
| `Validation.RequiredFieldsDistinct` | upload_results.php:69-77 | the seven required-field names are pairwise distinct |
| `Validation.CollectMissing` | upload_results.php:68-79 | the loop that appends to `$missing` computes exactly the missing-field report |
| `Validation.MissingMembership` | upload_results.php:68-79 | a name is reported exactly when a scanned field of that name is empty |
| `Validation.MissingEmptyIff` | upload_results.php:78-80 | nothing is reported exactly when every scanned field is non-empty |
| `Validation.MissingAppend` | upload_results.php:68-79 | the report of two runs of fields is the first run's report followed by the second's, so names appear in scan order |
| `Validation.MissingNamesScanned` | upload_results.php:68-79 | every reported name is the name of a scanned field |
| `Validation.MissingNoDuplicates` | upload_results.php:68-79 | with distinct field names, no name is reported twice |
| `Validation.MissingAt` | upload_results.php:68-79 | with distinct field names, the name at a given position is reported exactly when that field is empty |
| `Validation.MissingByField` | upload_results.php:68-79 | each of the seven names is reported exactly when its own submission field is empty (Email with the email, Date with the raw date, and so on) |
| `Validation.MissingRequired` | upload_results.php:68-82 | for a submission: a required name is reported exactly when its field is empty, no name twice, and the report is empty exactly when all seven fields are non-empty |
| `Validation.MissingMessageMentions` | upload_results.php:80-82 | the missing-fields message starts with "Missing required fields: " and mentions every missing field, not just the first |
| `Validation.CheckSubmission` | upload_results.php:80-85 | missing fields fail with the missing-fields message whatever the email; only with nothing missing does a rejected email fail with "Invalid email format."; it passes exactly when the submission is admissible |
| `Upload.AdmissibleIsStorable` | upload_results.php:83-117 | an admissible extracted submission yields a row whose required values are non-empty and clean, whose email is accepted, whose date is the normaliser's output and whose recommendations fit the column |
| `Upload.CompleteSubmissionAdmissible` | upload_results.php:52-117 | a request whose seven required values are non-empty once trimmed (edge whitespace allowed), with an email accepted after trimming and only an overall score, passes validation; its row holds the trimmed values, the normalised trimmed date, the other scores at 0 and empty recommendations |
| `Upload.Submit` | upload_results.php:68-131 | after extraction: missing fields, then a rejected email, fail with their messages and send nothing; otherwise the dated row is sent, and the answer is 201 with the new id exactly when the insert succeeds, else 400 with its message |
| `Upload.HandleUpload` | upload_results.php:42-131 | for either truncation marker, the handler answers 201 "ok" with the datastore's id exactly when the body is non-empty, decodes, all seven fields are present, the email is accepted and the insert succeeds. Every other path answers 400 "error" with the failing step's message ("Empty request body.", the decoder's, the missing-fields message, "Invalid email format." or the insert's). Steps after the failing one are not reached, and only a storable row reaches the datastore |

## Left out

- `normalizeDate` (upload_results.php:7-25): it relies on `strtotime`, `date_create` and `date`, which are locale- and clock-dependent. It is the parameter `normalizeDate`, and the model only proves that the stored date is its output for the trimmed raw date.
- `filter_var(..., FILTER_VALIDATE_EMAIL)`: a foreign validator, modelled as the predicate parameter `isEmail`.
- `json_decode` and the read of `php://input`: I/O and a foreign parser. The decoder is a parameter that yields either a map from each string key to the text of its value or the exception's message. A body that decodes to something other than an object counts as an object without the fourteen keys.
- The `(float)` casts of the scores: floating point and PHP's string-to-number coercion. A score is either the default 0 or the uninterpreted cast of the given text.
- PHP's `(string)` coercion of non-string JSON values such as arrays, booleans and numbers: the decoder yields each value's text directly.
- `getPdo`, `prepare`, `execute` and `lastInsertId` (upload_results.php:90-122) and db.php as a whole: database I/O. They are one parameter, `insert`, that maps the bound row to the new id or to the exception's message.
- `header`, `http_response_code`, `echo` and `json_encode`: output I/O. The response is a returned value.
- The nullable parameter of `formatRecommendations`: its only caller passes a string, so the model takes a string.
- Byte strings: PHP's `trim` works on bytes. All its characters are ASCII, so on valid UTF-8 it agrees with trimming codepoints. Ill-formed UTF-8 input is not modelled.

## Findings

| source | as written | input that shows it | evidently intended | confidence | as-written member | corrected member |
|---|---|---|---|---|---|---|
| upload_results.php:35 | the suffix literal holds the three codepoints U+00E2 U+20AC U+00A6 ("â€¦"), the UTF-8 bytes of U+2026 read as Windows-1252, so an over-long text is stored as 1500 codepoints ending in mojibake | recommendations whose trimmed form exceeds 2500 codepoints, e.g. 3000 copies of "a" | one U+2026 glyph, giving 1497 codepoints of text plus the ellipsis, 1498 in all | medium (the file's bytes may have been re-encoded in transit), not executed | `Recommendations.AsWrittenAppendsMojibake` | `Recommendations.CorrectedAppendsEllipsis` |

The handler takes the marker as a parameter, so it runs as written with
`MisencodedEllipsis` and as corrected with `Ellipsis`. Every property of `Clamp`,
`Extract` and `HandleUpload` holds for both markers.
