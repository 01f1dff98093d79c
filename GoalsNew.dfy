/**
 * The new-goal route (app/routes/goals.new.tsx): how the action reads the
 * form, the goalSchema rules as zod applies them, the fold of a ZodError
 * into one message per field, the extra custom-goal check, and the goal
 * that is created before redirecting. The database create is a parameter
 * saying whether it succeeded.
 */
module GoalsNew {
  import opened JsBuiltins
  import opened Zod
  import HeartRate
  import AuthServer

  /** The goal types the schema's enum accepts. */
  const GoalTypes: seq<string> := ["weight_loss", "cardio_health", "marathon", "sprint", "custom"]

  const TypeMessage: string := "目標タイプを選択してください"
  const DescriptionLengthMessage: string := "目標の詳細は5文字以上で入力してください"
  const StartDateRequiredMessage: string := "開始日は必須です"
  const DescriptionRequiredMessage: string := "カスタム目標の詳細は必須です"
  const GeneralMessage: string := "入力内容を確認してください"

  /** Every goal type the form accepts has a recommended zone distribution, and no other. */
  lemma GoalTypesHaveDistributions()
    ensures (set t | t in GoalTypes) == HeartRate.DistributionKeys
    ensures forall t :: t in GoalTypes ==> t in HeartRate.RecommendedZoneDistribution
  {
    HeartRate.DistributionsSumTo100();
  }

  // ---------------------------------------------------------------------------
  // goalSchema
  // ---------------------------------------------------------------------------

  /** The object goalSchema.parse receives; None is undefined. */
  datatype GoalSchemaInput = GoalSchemaInput(
    goalType: string, customDescription: Option<string>, startDate: Option<string>, targetDate: Option<string>)

  /**
   * The issues of customDescription: `.min(5)` reports a too-short string and,
   * because that failure does not abort, the `.refine` then runs on it too
   * and reports the same message for a non-empty string under 5 characters.
   * undefined passes both.
   */
  function DescriptionIssues(description: Option<string>): (r: seq<Issue>)
    ensures r == [] <==> description.None? || |description.value| >= 5
    ensures forall i :: 0 <= i < |r| ==> r[i] == Issue("customDescription", DescriptionLengthMessage)
  {
    match description
    case None => []
    case Some(s) =>
      (if |s| < 5 then [Issue("customDescription", DescriptionLengthMessage)] else [])
      + (if s == "" || |s| >= 5 then [] else [Issue("customDescription", DescriptionLengthMessage)])
  }

  /**
   * goalSchema's issues, in the order of its keys: a type outside the enum
   * (the schema's errorMap gives every enum issue the same message), then
   * customDescription, then a missing startDate. targetDate, an optional
   * string, never fails. So the schema passes exactly when the type is in
   * the enum, a present description has at least 5 characters, and the
   * start date is present.
   */
  function GoalSchemaIssues(input: GoalSchemaInput): (r: seq<Issue>)
    ensures r == [] <==>
              && input.goalType in GoalTypes
              && (input.customDescription.None? || |input.customDescription.value| >= 5)
              && input.startDate.Some?
  {
    (if input.goalType in GoalTypes then [] else [Issue("type", TypeMessage)])
    + DescriptionIssues(input.customDescription)
    + (if input.startDate.None? then [Issue("startDate", StartDateRequiredMessage)] else [])
  }

  /**
   * Which fields goalSchema reports: type exactly when it is outside the
   * enum, customDescription exactly when it is present and shorter than 5
   * characters, startDate exactly when it is missing, and nothing else.
   */
  lemma GoalSchemaRules(input: GoalSchemaInput)
    ensures Fields(GoalSchemaIssues(input)) <= {"type", "customDescription", "startDate"}
    ensures "type" in Fields(GoalSchemaIssues(input)) <==> input.goalType !in GoalTypes
    ensures "customDescription" in Fields(GoalSchemaIssues(input)) <==>
              input.customDescription.Some? && |input.customDescription.value| < 5
    ensures "startDate" in Fields(GoalSchemaIssues(input)) <==> input.startDate.None?
  {
    var typeIssues := if input.goalType in GoalTypes then [] else [Issue("type", TypeMessage)];
    var d := DescriptionIssues(input.customDescription);
    var r := GoalSchemaIssues(input);
    forall i | 0 <= i < |r| ensures r[i].field in {"type", "customDescription", "startDate"} {
      if |typeIssues| <= i < |typeIssues| + |d| {
        assert r[i] == d[i - |typeIssues|];
      }
    }
    if input.goalType !in GoalTypes { assert r[0].field == "type"; }
    if input.startDate.None? { assert r[|r| - 1].field == "startDate"; }
    if d != [] { assert r[|typeIssues|] == d[0]; }
  }

  // ---------------------------------------------------------------------------
  // The ZodError fold
  // ---------------------------------------------------------------------------

  /** The index of the last issue about a field, or -1 when there is none. */
  function LastIssueFor(issues: seq<Issue>, field: string): (i: int)
    ensures -1 <= i < |issues|
    ensures i >= 0 ==> issues[i].field == field
    ensures forall j :: i < j < |issues| ==> issues[j].field != field
  {
    if issues == [] then -1
    else if issues[|issues| - 1].field == field then |issues| - 1
    else
      var i := LastIssueFor(issues[..|issues| - 1], field);
      assert forall j :: i < j < |issues| - 1 ==> issues[j] == issues[..|issues| - 1][j];
      i
  }

  /**
   * `error.errors.reduce((acc, curr) => { acc[curr.path[0]] = curr.message; ... }, {})`:
   * one entry per field with issues, holding the message of its last issue.
   */
  function FieldErrorMap(issues: seq<Issue>): (m: map<string, string>)
    ensures m.Keys == Fields(issues)
    ensures forall f :: f in m ==> LastIssueFor(issues, f) >= 0 && m[f] == issues[LastIssueFor(issues, f)].message
  {
    if issues == [] then map[]
    else
      var n := |issues| - 1;
      var prefix := issues[..n];
      var m := FieldErrorMap(prefix)[issues[n].field := issues[n].message];
      FieldsOfPrefix(issues);
      assert forall f :: f in m ==> LastIssueFor(issues, f) >= 0 && m[f] == issues[LastIssueFor(issues, f)].message by {
        forall f | f in m
          ensures LastIssueFor(issues, f) >= 0 && m[f] == issues[LastIssueFor(issues, f)].message
        {
          if f != issues[n].field {
            var i := LastIssueFor(prefix, f);
            assert LastIssueFor(issues, f) == i;
            assert prefix[i] == issues[i];
          }
        }
      }
      m
  }

  /** The fold as the source runs it: one pass over the issues updating the accumulator in place. */
  method CollectFieldErrors(issues: seq<Issue>) returns (acc: map<string, string>)
    ensures acc == FieldErrorMap(issues)
  {
    acc := map[];
    var k := 0;
    while k < |issues|
      invariant 0 <= k <= |issues|
      invariant acc == FieldErrorMap(issues[..k])
    {
      acc := acc[issues[k].field := issues[k].message];
      k := k + 1;
      assert issues[..k][..k - 1] == issues[..k - 1];
    }
    assert issues[..|issues|] == issues;
  }

  /** Issues that all carry one message fold to that message. */
  lemma FieldErrorMapOfUniformField(issues: seq<Issue>, field: string, message: string)
    requires issues != []
    requires forall i :: 0 <= i < |issues| ==> issues[i] == Issue(field, message)
    ensures FieldErrorMap(issues) == map[field := message]
  {
    var m := FieldErrorMap(issues);
    UniformFields(issues, field, message);
    assert field in m;
    var i := LastIssueFor(issues, field);
    assert m[field] == issues[i].message;
    assert issues[i] == Issue(field, message);
    assert m.Keys == map[field := message].Keys;
  }

  /** Issues that all concern one field report exactly that field. */
  lemma UniformFields(issues: seq<Issue>, field: string, message: string)
    requires issues != []
    requires forall i :: 0 <= i < |issues| ==> issues[i] == Issue(field, message)
    ensures Fields(issues) == {field}
  {
    assert issues[0].field == field;
  }

  // ---------------------------------------------------------------------------
  // The action
  // ---------------------------------------------------------------------------

  /** `formData.get(name)?.toString() || ""`: an absent or empty entry becomes "". */
  function OrEmpty(entry: Option<string>): (r: string)
    ensures entry.Some? ==> r == entry.value
    ensures entry.None? ==> r == ""
  {
    if entry.Some? && entry.value != "" then entry.value else ""
  }

  /** `formData.get(name)?.toString() || undefined`: an absent or empty entry becomes undefined. */
  function OrUndefined(entry: Option<string>): (r: Option<string>)
    ensures r.None? <==> entry.None? || entry.value == ""
    ensures r.Some? ==> r.value == entry.value
  {
    if entry.Some? && entry.value != "" then entry else None
  }

  /** The trainingGoal row the action creates. */
  datatype GoalRecord = GoalRecord(
    userId: string, goalType: string, customDescription: Option<string>, startDate: string, targetDate: Option<string>)

  /**
   * The action's response: the redirect to the login page for a request
   * without a signed-in user, `{ errors }` rendered back on the form, or the
   * redirect after creating a goal.
   */
  datatype GoalActionResult =
    | LoginRequired(location: string, redirectTo: string)
    | Errors(errors: map<string, string>)
    | Created(goal: GoalRecord, location: string)

  /**
   * The action. requireUserId runs first: a request whose session holds no
   * user is redirected to the login page, carrying the request's path, before
   * anything is read or created. A signed-in user's request goes on as
   * SignedInGoalAction describes.
   */
  function GoalAction(
    session: AuthServer.SessionValue, requestPath: string, typeEntry: Option<string>, descriptionEntry: Option<string>,
    startDateEntry: Option<string>, targetDateEntry: Option<string>, createSucceeds: bool): (r: GoalActionResult)
    ensures r.LoginRequired? <==> AuthServer.GetUserId(session).None?
    ensures r.LoginRequired? ==> r.location == AuthServer.LoginPath && r.redirectTo == requestPath
    ensures AuthServer.GetUserId(session).Some? ==>
              r == SignedInGoalAction(
                     AuthServer.GetUserId(session).value, typeEntry, descriptionEntry, startDateEntry, targetDateEntry,
                     createSucceeds)
  {
    match AuthServer.RequireUserId(session, requestPath)
    case RedirectToLogin(path, redirectTo) => LoginRequired(path, redirectTo)
    case Authorized(userId) =>
      SignedInGoalAction(userId, typeEntry, descriptionEntry, startDateEntry, targetDateEntry, createSucceeds)
  }

  /**
   * The action once requireUserId has passed. Each form entry is its value
   * as a string, or None when absent;
   * createSucceeds says whether prisma.trainingGoal.create resolved (it
   * rejects, among others, a date string that does not parse). A goal is
   * created exactly when the type is in the enum, a custom goal has a
   * description of at least 5 characters that is not all whitespace, and the
   * create succeeds; the goal then holds the submitted values (for a
   * non-custom type the description is stored unvalidated).
   */
  function SignedInGoalAction(
    userId: string, typeEntry: Option<string>, descriptionEntry: Option<string>,
    startDateEntry: Option<string>, targetDateEntry: Option<string>, createSucceeds: bool): (r: GoalActionResult)
    ensures !r.LoginRequired?
    ensures r.Errors? ==> r.errors != map[]
    ensures var description := OrUndefined(descriptionEntry);
            r.Created? <==>
              && OrEmpty(typeEntry) in GoalTypes
              && (OrEmpty(typeEntry) == "custom" ==>
                    description.Some? && |description.value| >= 5 && !AllWhitespace(description.value))
              && createSucceeds
    ensures r.Created? ==>
              && r.location == "/dashboard"
              && r.goal == GoalRecord(
                   userId, OrEmpty(typeEntry), OrUndefined(descriptionEntry), OrEmpty(startDateEntry), OrUndefined(targetDateEntry))
  {
    var goalType := OrEmpty(typeEntry);
    var customDescription := OrUndefined(descriptionEntry);
    var startDate := OrEmpty(startDateEntry);
    var targetDate := OrUndefined(targetDateEntry);
    var issues := GoalSchemaIssues(GoalSchemaInput(
      goalType, if goalType == "custom" then customDescription else None, Some(startDate), targetDate));
    if issues != [] then
      assert issues[0].field in Fields(issues);
      Errors(FieldErrorMap(issues))
    else if goalType == "custom" && (customDescription.None? || Trim(customDescription.value) == "") then
      var errors := map["customDescription" := DescriptionRequiredMessage];
      assert "customDescription" in errors;
      Errors(errors)
    else if !createSucceeds then
      var errors := map["general" := GeneralMessage];
      assert "general" in errors;
      Errors(errors)
    else
      Created(GoalRecord(userId, goalType, customDescription, startDate, targetDate), "/dashboard")
  }

  /** A type outside the enum is reported under `type` and nothing is created. */
  lemma InvalidTypeRejected(
    userId: string, typeEntry: Option<string>, descriptionEntry: Option<string>,
    startDateEntry: Option<string>, targetDateEntry: Option<string>, createSucceeds: bool)
    requires OrEmpty(typeEntry) !in GoalTypes
    ensures var r := SignedInGoalAction(userId, typeEntry, descriptionEntry, startDateEntry, targetDateEntry, createSucceeds);
            r.Errors? && "type" in r.errors && r.errors["type"] == TypeMessage
  {
    var goalType := OrEmpty(typeEntry);
    var issues := GoalSchemaIssues(GoalSchemaInput(goalType, None, Some(OrEmpty(startDateEntry)), OrUndefined(targetDateEntry)));
    assert issues == [Issue("type", TypeMessage)];
    FieldErrorMapOfUniformField(issues, "type", TypeMessage);
  }

  /**
   * A custom goal whose description is missing, empty or only whitespace
   * (and at least 5 characters, so the length rule passes) gets the
   * "required" message and creates nothing.
   */
  lemma CustomGoalNeedsDescription(
    userId: string, descriptionEntry: Option<string>,
    startDateEntry: Option<string>, targetDateEntry: Option<string>, createSucceeds: bool)
    requires descriptionEntry.None? || descriptionEntry.value == ""
             || (|descriptionEntry.value| >= 5 && AllWhitespace(descriptionEntry.value))
    ensures SignedInGoalAction(userId, Some("custom"), descriptionEntry, startDateEntry, targetDateEntry, createSucceeds)
            == Errors(map["customDescription" := DescriptionRequiredMessage])
  {
    if descriptionEntry.Some? && descriptionEntry.value != "" {
    }
  }

  /**
   * A custom goal whose description has 1 to 4 characters, whitespace or
   * not, gets the 5-character message: the schema rejects it before the
   * "required" check runs.
   */
  lemma ShortCustomDescriptionRejected(
    userId: string, description: string,
    startDateEntry: Option<string>, targetDateEntry: Option<string>, createSucceeds: bool)
    requires 0 < |description| < 5
    ensures SignedInGoalAction(userId, Some("custom"), Some(description), startDateEntry, targetDateEntry, createSucceeds)
            == Errors(map["customDescription" := DescriptionLengthMessage])
  {
    var issues := GoalSchemaIssues(GoalSchemaInput("custom", Some(description), Some(OrEmpty(startDateEntry)), OrUndefined(targetDateEntry)));
    assert issues == DescriptionIssues(Some(description));
    FieldErrorMapOfUniformField(issues, "customDescription", DescriptionLengthMessage);
  }

  /**
   * When the type is valid, a custom goal's description passes both checks,
   * and the create fails, the form shows exactly the general message.
   */
  lemma CreateFailureIsGeneralError(
    userId: string, typeEntry: Option<string>, descriptionEntry: Option<string>,
    startDateEntry: Option<string>, targetDateEntry: Option<string>)
    requires OrEmpty(typeEntry) in GoalTypes
    requires OrEmpty(typeEntry) == "custom" ==>
               var description := OrUndefined(descriptionEntry);
               description.Some? && |description.value| >= 5 && !AllWhitespace(description.value)
    ensures SignedInGoalAction(userId, typeEntry, descriptionEntry, startDateEntry, targetDateEntry, false)
            == Errors(map["general" := GeneralMessage])
  {
    var goalType := OrEmpty(typeEntry);
    var description := OrUndefined(descriptionEntry);
    if goalType == "custom" {
      assert GoalSchemaIssues(GoalSchemaInput(goalType, description, Some(OrEmpty(startDateEntry)), OrUndefined(targetDateEntry))) == [];
    } else {
      assert GoalSchemaIssues(GoalSchemaInput(goalType, None, Some(OrEmpty(startDateEntry)), OrUndefined(targetDateEntry))) == [];
    }
  }

  // ---------------------------------------------------------------------------
  // The goal-type label
  // ---------------------------------------------------------------------------

  const CustomGoalLabel: string := "カスタム目標"

  /** The four goal types with a label of their own. */
  const NamedGoalTypes: set<string> := {"weight_loss", "cardio_health", "marathon", "sprint"}

  /** The label shown for a stored goal's type; anything not one of the four named types is a custom goal. */
  function GoalTypeLabel(goalType: string): (text: string)
    ensures goalType in NamedGoalTypes <==> text != CustomGoalLabel
  {
    if goalType == "weight_loss" then "ダイエット・脂肪燃焼"
    else if goalType == "cardio_health" then "心肺機能向上"
    else if goalType == "marathon" then "マラソン・長距離レース対策"
    else if goalType == "sprint" then "短距離・スプリント能力向上"
    else CustomGoalLabel
  }

  /** The four named types have four different labels. */
  lemma GoalTypeLabelsDistinct(a: string, b: string)
    requires a in NamedGoalTypes && b in NamedGoalTypes && a != b
    ensures GoalTypeLabel(a) != GoalTypeLabel(b)
  {
  }
}
