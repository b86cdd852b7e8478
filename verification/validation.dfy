/**
 * The prompt-answer validator of the import script and its question table
 * (lib/import/index.js, lines 32-68).
 *
 * `validateInput(value, name, regex)` answers either `true` or an error
 * string. It first rejects a missing, empty or whitespace-only answer, then
 * matches the answer against one of two whole-string character-class
 * patterns.
 */
module Validation {
  import opened Base

  // ---------------------------------------------------------------------------
  // Whitespace and String.prototype.trim
  // ---------------------------------------------------------------------------

  /** The code points removed by JavaScript's `trim`: the ECMAScript WhiteSpace
      set (TAB, VT, FF, ZWNBSP and every Unicode space separator) together with
      the LineTerminator set (LF, CR, LS, PS). */
  predicate IsJsWhitespace(c: char) {
    var n := c as int;
    || n == 0x09 || n == 0x0A || n == 0x0B || n == 0x0C || n == 0x0D
    || n == 0x20 || n == 0xA0 || n == 0x1680
    || (0x2000 <= n <= 0x200A)
    || n == 0x2028 || n == 0x2029 || n == 0x202F || n == 0x205F
    || n == 0x3000 || n == 0xFEFF
  }

  /** Every character of `s` is whitespace (this includes the empty string). */
  predicate IsBlank(s: string) {
    forall i :: 0 <= i < |s| ==> IsJsWhitespace(s[i])
  }

  /** The index of the first non-whitespace character of `s` at or after
      `i`, or `|s|` when there is none: where `trim` starts its result. */
  function FirstNonBlank(s: string, i: nat): (b: nat)
    requires i <= |s|
    ensures i <= b <= |s|
    ensures forall k :: i <= k < b ==> IsJsWhitespace(s[k])
    ensures b < |s| ==> !IsJsWhitespace(s[b])
    decreases |s| - i
  {
    if i < |s| && IsJsWhitespace(s[i]) then FirstNonBlank(s, i + 1) else i
  }

  /** The index just past the last non-whitespace character of `s` before
      `j`, or `0` when there is none: where `trim` ends its result. */
  function NonBlankEnd(s: string, j: nat): (e: nat)
    requires j <= |s|
    ensures e <= j
    ensures forall k :: e <= k < j ==> IsJsWhitespace(s[k])
    ensures e > 0 ==> !IsJsWhitespace(s[e - 1])
    decreases j
  {
    if j > 0 && IsJsWhitespace(s[j - 1]) then NonBlankEnd(s, j - 1) else j
  }

  /** A run of whitespace, read as a slice, is blank. */
  lemma BlankSlice(s: string, i: nat, j: nat)
    requires i <= j <= |s|
    requires forall k :: i <= k < j ==> IsJsWhitespace(s[k])
    ensures IsBlank(s[i..j])
    ensures i == 0 ==> IsBlank(s[..j])
    ensures j == |s| ==> IsBlank(s[i..])
  {
  }

  /** JavaScript's `String.prototype.trim`: the middle part of `s` left
      after dropping the leading and the trailing whitespace. */
  function Trim(s: string): (r: string)
    ensures exists k :: 0 <= k <= |s| - |r| && r == s[k..k + |r|]
                        && IsBlank(s[..k]) && IsBlank(s[k + |r|..])
    ensures r == [] <==> IsBlank(s)
    ensures |r| > 0 ==> !IsJsWhitespace(r[0]) && !IsJsWhitespace(r[|r| - 1])
  {
    var b := FirstNonBlank(s, 0);
    var e := NonBlankEnd(s, |s|);
    BlankSlice(s, 0, b);
    if b == |s| then
      assert s[..b] == s && s[b..b] == [] && s[b..] == [];
      []
    else
      assert !IsJsWhitespace(s[b]);
      BlankSlice(s, e, |s|);
      assert s[b..e] == s[b..b + (e - b)];
      s[b..e]
  }

  // ---------------------------------------------------------------------------
  // The two character-class patterns
  // ---------------------------------------------------------------------------

  /** The two regular expressions the script validates answers with. */
  datatype Pattern =
    | BigQueryValidCharacters    // /^[a-zA-Z0-9_]+$/
    | FirestoreValidCharacters   // /^[^\/]+$/
  {
    /** The character class the pattern repeats. */
    predicate Allows(c: char) {
      match this
      case BigQueryValidCharacters =>
        ('a' <= c <= 'z') || ('A' <= c <= 'Z') || ('0' <= c <= '9') || c == '_'
      case FirestoreValidCharacters =>
        c != '/'
    }

    /** The anchored pattern `^[class]+$` matches `s`: at least one character,
        and every character in the class. */
    predicate Matches(s: string) {
      |s| > 0 && forall i :: 0 <= i < |s| ==> Allows(s[i])
    }
  }

  /** How the two character classes relate: the BigQuery class `[a-zA-Z0-9_]`
      lies inside the Firestore class `[^/]` and holds no whitespace, while
      '/' is outside both. */
  lemma CharacterClasses(c: char)
    ensures BigQueryValidCharacters.Allows(c) ==> FirestoreValidCharacters.Allows(c) && !IsJsWhitespace(c)
    ensures c == '/' ==> !BigQueryValidCharacters.Allows(c) && !FirestoreValidCharacters.Allows(c)
    ensures IsJsWhitespace(c) ==> FirestoreValidCharacters.Allows(c) && !BigQueryValidCharacters.Allows(c)
  {
  }

  /** The recursive reading of `^[class]+$`: one character of the class,
      followed by either the end of input or another match. */
  predicate OneOrMore(p: Pattern, s: string)
    decreases |s|
  {
    |s| > 0 && p.Allows(s[0]) && (|s| == 1 || OneOrMore(p, s[1..]))
  }

  /** `Matches` agrees with the recursive reading of the anchored pattern,
      and every BigQuery identifier also matches the Firestore pattern. */
  lemma {:induction false} MatchesIsOneOrMore(p: Pattern, s: string)
    ensures p.Matches(s) <==> OneOrMore(p, s)
    ensures BigQueryValidCharacters.Matches(s) ==> FirestoreValidCharacters.Matches(s)
    decreases |s|
  {
    if |s| > 1 {
      MatchesIsOneOrMore(p, s[1..]);
      if OneOrMore(p, s) {
        forall i | 0 <= i < |s| ensures p.Allows(s[i]) {
          if i > 0 { assert s[i] == s[1..][i - 1]; }
        }
      }
      if p.Matches(s) {
        forall i | 0 <= i < |s| - 1 ensures p.Allows(s[1..][i]) {
          assert s[1..][i] == s[i + 1];
        }
      }
    }
  }

  // ---------------------------------------------------------------------------
  // validateInput
  // ---------------------------------------------------------------------------

  /** What a validator hands back to the prompt: `true`, or an error message. */
  datatype ValidationResult = Accepted | Rejected(message: string)

  function PleaseSupply(name: string): string {
    "Please supply a " + name
  }

  function MustOnlyContain(name: string): string {
    "The " + name + " must only contain letters or spaces"
  }

  /** The two error messages can never be confused, whatever the names. */
  lemma MessagesDistinct(a: string, b: string)
    ensures PleaseSupply(a) != MustOnlyContain(b)
  {
    assert PleaseSupply(a)[0] == 'P';
    assert MustOnlyContain(b)[0] == 'T';
  }

  /** The answer is absent (`undefined`, `null`), empty, or whitespace only. */
  predicate IsMissing(value: Option<string>) {
    value.None? || IsBlank(value.value)
  }

  /** `validateInput(value, name, regex)`. */
  function ValidateInput(value: Option<string>, name: string, pattern: Pattern): (r: ValidationResult)
    ensures r == Rejected(PleaseSupply(name)) <==> IsMissing(value)
    ensures r == Rejected(MustOnlyContain(name)) <==> !IsMissing(value) && !pattern.Matches(value.value)
    ensures r == Accepted <==> !IsMissing(value) && pattern.Matches(value.value)
  {
    MessagesDistinct(name, name);
    if value.None? || value.value == "" || Trim(value.value) == "" then
      Rejected(PleaseSupply(name))
    else if !pattern.Matches(value.value) then
      Rejected(MustOnlyContain(name))
    else
      Accepted
  }

  /** Every call ends in exactly one of the three outcomes. */
  lemma ValidateInputThreeWay(value: Option<string>, name: string, pattern: Pattern)
    ensures var r := ValidateInput(value, name, pattern);
      && (r == Accepted || r == Rejected(PleaseSupply(name)) || r == Rejected(MustOnlyContain(name)))
      && !(r == Accepted && r == Rejected(PleaseSupply(name)))
      && !(r == Accepted && r == Rejected(MustOnlyContain(name)))
      && !(r == Rejected(PleaseSupply(name)) && r == Rejected(MustOnlyContain(name)))
  {
  }

  /** A missing or blank answer is reported as missing under every pattern. */
  lemma MissingIgnoresPattern(value: Option<string>, name: string, p: Pattern, q: Pattern)
    requires IsMissing(value)
    ensures ValidateInput(value, name, p) == ValidateInput(value, name, q) == Rejected(PleaseSupply(name))
  {
  }

  /** The blank check runs before the pattern check: every non-empty
      whitespace-only answer matches the Firestore pattern and is still
      reported as missing. */
  lemma BlankCheckComesFirst(v: string, name: string)
    requires |v| > 0 && IsBlank(v)
    ensures FirestoreValidCharacters.Matches(v)
    ensures ValidateInput(Some(v), name, FirestoreValidCharacters) == Rejected(PleaseSupply(name))
  {
  }

  /** Under the BigQuery pattern the blank check is subsumed: an answer is
      accepted exactly when it is non-empty and made of `[A-Za-z0-9_]`. */
  lemma BigQueryAcceptedIff(v: string, name: string)
    ensures ValidateInput(Some(v), name, BigQueryValidCharacters) == Accepted
        <==> |v| > 0 && forall i :: 0 <= i < |v| ==> BigQueryValidCharacters.Allows(v[i])
  {
    if |v| > 0 {
      // The first character is in [a-zA-Z0-9_], hence not whitespace, so the answer is not blank.
      CharacterClasses(v[0]);
    }
  }

  /** Under the Firestore pattern an answer is accepted exactly when it is
      not blank and contains no `/`. */
  lemma FirestoreAcceptedIff(v: string, name: string)
    ensures ValidateInput(Some(v), name, FirestoreValidCharacters) == Accepted
        <==> !IsBlank(v) && '/' !in v
  {
  }

  // ---------------------------------------------------------------------------
  // The question table
  // ---------------------------------------------------------------------------

  /** One prompt: the answer key, the text shown, and the display name and
      pattern its validator is called with. */
  datatype Question = Question(key: AnswerKey, message: string, displayName: string, pattern: Pattern)

  /** The property of the answers object a prompt fills in. */
  datatype AnswerKey = ProjectId | CollectionPath | DatasetId | TableName

  const Questions: seq<Question> := [
    Question(ProjectId, "What is your Firebase project ID?",
             "project ID", FirestoreValidCharacters),
    Question(CollectionPath, "What is the path of the the collection you would like to mirror?",
             "collection path", FirestoreValidCharacters),
    Question(DatasetId, "What is the ID of the BigQuery dataset that you would like to use? (The dataset will be created if it doesn't already exist)",
             "dataset", BigQueryValidCharacters),
    Question(TableName, "What is the ID of the BigQuery table that you would like to use? (The table will be created if it doesn't already exist)",
             "dataset", BigQueryValidCharacters)
  ]

  /** The `validate` callback of one prompt. */
  function ValidateAnswer(q: Question, value: Option<string>): ValidationResult {
    ValidateInput(value, q.displayName, q.pattern)
  }

  /** The answers the prompt resolves with. */
  datatype Answers = Answers(projectId: string, collectionPath: string, datasetId: string, tableName: string)

  function AnswerTo(a: Answers, key: AnswerKey): Option<string> {
    match key
    case ProjectId => Some(a.projectId)
    case CollectionPath => Some(a.collectionPath)
    case DatasetId => Some(a.datasetId)
    case TableName => Some(a.tableName)
  }

  /** Every prompt's validator accepted its answer (the prompt re-asks until it does). */
  predicate AllAccepted(a: Answers) {
    forall i :: 0 <= i < |Questions| ==> ValidateAnswer(Questions[i], AnswerTo(a, Questions[i].key)) == Accepted
  }

  /** What a completed prompt guarantees about its four answers: the project
      ID and collection path are non-blank and free of `/` (so no sub-collection
      path can be entered), the dataset and table names are non-empty BigQuery
      identifiers; and nothing more is demanded. */
  lemma AllAcceptedIff(a: Answers)
    ensures AllAccepted(a) <==>
      && !IsBlank(a.projectId) && '/' !in a.projectId
      && !IsBlank(a.collectionPath) && '/' !in a.collectionPath
      && BigQueryValidCharacters.Matches(a.datasetId)
      && BigQueryValidCharacters.Matches(a.tableName)
  {
    AllAcceptedUnfolded(a);
    FirestoreAcceptedIff(a.projectId, "project ID");
    FirestoreAcceptedIff(a.collectionPath, "collection path");
    BigQueryAcceptedIff(a.datasetId, "dataset");
    BigQueryAcceptedIff(a.tableName, "dataset");
  }

  /** `AllAccepted`, one prompt at a time. */
  lemma AllAcceptedUnfolded(a: Answers)
    ensures AllAccepted(a) <==>
      && ValidateInput(Some(a.projectId), "project ID", FirestoreValidCharacters) == Accepted
      && ValidateInput(Some(a.collectionPath), "collection path", FirestoreValidCharacters) == Accepted
      && ValidateInput(Some(a.datasetId), "dataset", BigQueryValidCharacters) == Accepted
      && ValidateInput(Some(a.tableName), "dataset", BigQueryValidCharacters) == Accepted
  {
    var v0 := ValidateInput(Some(a.projectId), "project ID", FirestoreValidCharacters);
    var v1 := ValidateInput(Some(a.collectionPath), "collection path", FirestoreValidCharacters);
    var v2 := ValidateInput(Some(a.datasetId), "dataset", BigQueryValidCharacters);
    var v3 := ValidateInput(Some(a.tableName), "dataset", BigQueryValidCharacters);
    assert ValidateAnswer(Questions[0], AnswerTo(a, Questions[0].key)) == v0;
    assert ValidateAnswer(Questions[1], AnswerTo(a, Questions[1].key)) == v1;
    assert ValidateAnswer(Questions[2], AnswerTo(a, Questions[2].key)) == v2;
    assert ValidateAnswer(Questions[3], AnswerTo(a, Questions[3].key)) == v3;
    if v0 == Accepted && v1 == Accepted && v2 == Accepted && v3 == Accepted {
      forall i | 0 <= i < |Questions|
        ensures ValidateAnswer(Questions[i], AnswerTo(a, Questions[i].key)) == Accepted
      {
        assert i == 0 || i == 1 || i == 2 || i == 3;
      }
    }
  }

  /** An answer containing `/` is rejected by every prompt. */
  lemma SlashRejectedEverywhere(q: Question, v: string)
    requires q in Questions
    requires '/' in v
    ensures ValidateAnswer(q, Some(v)) != Accepted
  {
    CharacterClasses('/');
  }

  /** Each prompt, found by the answer it fills in, validates with its own
      display name and pattern; the table-name prompt reuses "dataset". */
  lemma QuestionWiring(q: Question, v: Option<string>)
    requires q in Questions
    ensures q.key == ProjectId ==>
      ValidateAnswer(q, v) == ValidateInput(v, "project ID", FirestoreValidCharacters)
    ensures q.key == CollectionPath ==>
      ValidateAnswer(q, v) == ValidateInput(v, "collection path", FirestoreValidCharacters)
    ensures q.key == DatasetId ==>
      ValidateAnswer(q, v) == ValidateInput(v, "dataset", BigQueryValidCharacters)
    ensures q.key == TableName ==>
      ValidateAnswer(q, v) == ValidateInput(v, "dataset", BigQueryValidCharacters)
  {
  }

  /** The table-name prompt reports its errors under the label "dataset". */
  lemma TableErrorsSayDataset(q: Question, v: Option<string>)
    requires q in Questions && q.key == TableName
    ensures ValidateAnswer(q, v) != Accepted ==>
      ValidateAnswer(q, v) in {Rejected(PleaseSupply("dataset")), Rejected(MustOnlyContain("dataset"))}
  {
    QuestionWiring(q, v);
  }
}
