/**
 * The registration route (app/routes/auth.register.tsx): the RegisterSchema
 * rules as zod applies them to the parsed form, the action's outcome
 * (status, messages, echoed fields, the user it registers), and the form
 * component's live max-heart-rate preview. The email regex, bcrypt and the
 * database are parameters.
 */
module AuthRegister {
  import opened JsBuiltins
  import opened HeartRate
  import opened Zod
  import AuthServer

  const EmailMessage: string := "有効なメールアドレスを入力してください"
  const PasswordMessage: string := "パスワードは6文字以上で入力してください"
  const NameMessage: string := "名前を入力してください"
  /** The schema's message for a gender that is not a string; the action always passes a string. */
  const GenderTypeMessage: string := "性別を選択してください"
  const FormNotSubmittedMessage: string := "フォームが正しく送信されませんでした。"
  const DuplicateEmailMessage: string := "このメールアドレスは既に使用されています"
  const RegistrationFailedPrefix: string := "ユーザー登録に失敗しました: "

  /** The gender enum. */
  const Genders: seq<string> := ["male", "female", "other", "prefer_not_to_say"]

  /** zod's joinValues: each option in single quotes, separated by " | ". */
  function JoinValues(options: seq<string>): string
  {
    if options == [] then ""
    else if |options| == 1 then "'" + options[0] + "'"
    else "'" + options[0] + "' | " + JoinValues(options[1..])
  }

  /** zod's own message for a string outside the enum (the schema sets no message for it). */
  function GenderEnumMessage(received: string): string
  {
    "Invalid enum value. Expected " + JoinValues(Genders) + ", received '" + received + "'"
  }

  // ---------------------------------------------------------------------------
  // Number rules
  // ---------------------------------------------------------------------------

  /** The checks of one `z.number(...)` chain: an optional `.int()`, then `.min` and `.max`, both inclusive. */
  datatype NumberRules = NumberRules(
    typeMessage: string, integerMessage: Option<string>,
    min: real, minMessage: string, max: real, maxMessage: string)

  const AgeRules: NumberRules := NumberRules(
    "年齢は数値で入力してください", Some("年齢は整数で入力してください"),
    10.0, "年齢は10歳以上で入力してください", 100.0, "年齢は100歳以下で入力してください")

  const HeightRules: NumberRules := NumberRules(
    "身長は数値で入力してください", None,
    100.0, "身長は100cm以上で入力してください", 250.0, "身長は250cm以下で入力してください")

  const WeightRules: NumberRules := NumberRules(
    "体重は数値で入力してください", None,
    30.0, "体重は30kg以上で入力してください", 300.0, "体重は300kg以下で入力してください")

  predicate IsInteger(v: JsNumber)
  {
    v.Finite? && v.value.Floor as real == v.value
  }

  predicate BelowMin(v: JsNumber, min: real)
  {
    (v.Finite? && v.value < min) || (v.Infinity? && v.negative)
  }

  predicate AboveMax(v: JsNumber, max: real)
  {
    (v.Finite? && v.value > max) || (v.Infinity? && !v.negative)
  }

  /**
   * The issues of one number field: NaN is not a number and stops there;
   * otherwise every failing check adds its message, in order.
   */
  function NumberIssues(field: string, v: JsNumber, rules: NumberRules): (r: seq<Issue>)
    ensures forall i :: 0 <= i < |r| ==> r[i].field == field
  {
    if v.NaN? then [Issue(field, rules.typeMessage)]
    else
      (if rules.integerMessage.Some? && !IsInteger(v) then [Issue(field, rules.integerMessage.value)] else [])
      + (if BelowMin(v, rules.min) then [Issue(field, rules.minMessage)] else [])
      + (if AboveMax(v, rules.max) then [Issue(field, rules.maxMessage)] else [])
  }

  /** A number field has issues exactly when it is NaN, infinite, a non-integer under `.int()`, or outside [min, max]. */
  lemma NumberIssuesIff(field: string, v: JsNumber, rules: NumberRules)
    requires rules.min <= rules.max
    ensures NumberIssues(field, v, rules) == [] <==>
              v.Finite? && rules.min <= v.value <= rules.max && (rules.integerMessage.Some? ==> IsInteger(v))
  {
  }

  // ---------------------------------------------------------------------------
  // RegisterSchema
  // ---------------------------------------------------------------------------

  /** What the action hands to RegisterSchema.safeParse: the strings, and the three parsed numbers. */
  datatype RegisterValues = RegisterValues(
    email: string, password: string, name: string, age: JsNumber, gender: string, height: JsNumber, weight: JsNumber)

  /** The email's issue: isEmail stands for zod's email pattern. */
  function EmailIssues(email: string, isEmail: string -> bool): (r: seq<Issue>)
    ensures r == [] <==> isEmail(email)
    ensures forall i :: 0 <= i < |r| ==> r[i].field == "email"
  {
    if isEmail(email) then [] else [Issue("email", EmailMessage)]
  }

  /** The password's issue: fewer than 6 characters. */
  function PasswordIssues(password: string): (r: seq<Issue>)
    ensures r == [] <==> |password| >= 6
    ensures forall i :: 0 <= i < |r| ==> r[i].field == "password"
  {
    if |password| < 6 then [Issue("password", PasswordMessage)] else []
  }

  /** The name's issue: the empty string. */
  function NameIssues(name: string): (r: seq<Issue>)
    ensures r == [] <==> name != ""
    ensures forall i :: 0 <= i < |r| ==> r[i].field == "name"
  {
    if name == "" then [Issue("name", NameMessage)] else []
  }

  /** The gender enum's issue: a string outside the list, with zod's own message. */
  function GenderIssues(gender: string): (r: seq<Issue>)
    ensures r == [] <==> gender in Genders
    ensures forall i :: 0 <= i < |r| ==> r[i].field == "gender"
  {
    if gender in Genders then [] else [Issue("gender", GenderEnumMessage(gender))]
  }

  /**
   * RegisterSchema's issues, in the order of its keys. The schema reports no
   * issue exactly when every rule holds: a valid email, a password of at
   * least 6 characters, a non-empty name, an integer age in 10..100, a listed
   * gender, a height in 100..250 and a weight in 30..300.
   */
  function RegisterIssues(v: RegisterValues, isEmail: string -> bool): (r: seq<Issue>)
    ensures r == [] <==> SatisfiesSchema(v, isEmail)
  {
    NumberIssuesIff("age", v.age, AgeRules);
    NumberIssuesIff("height", v.height, HeightRules);
    NumberIssuesIff("weight", v.weight, WeightRules);
    EmailIssues(v.email, isEmail)
    + PasswordIssues(v.password)
    + NameIssues(v.name)
    + NumberIssues("age", v.age, AgeRules)
    + GenderIssues(v.gender)
    + NumberIssues("height", v.height, HeightRules)
    + NumberIssues("weight", v.weight, WeightRules)
  }

  /** All rules of RegisterSchema at once. */
  predicate SatisfiesSchema(v: RegisterValues, isEmail: string -> bool)
  {
    && isEmail(v.email)
    && |v.password| >= 6
    && v.name != ""
    && v.age.Finite? && IsInteger(v.age) && 10.0 <= v.age.value <= 100.0
    && v.gender in Genders
    && v.height.Finite? && 100.0 <= v.height.value <= 250.0
    && v.weight.Finite? && 30.0 <= v.weight.value <= 300.0
  }

  /** The result of safeParse: the validated data, or the issues. */
  datatype ParseResult = Success(data: AuthServer.RegisterInput) | Failure(issues: seq<Issue>)

  function SafeParse(v: RegisterValues, isEmail: string -> bool): (r: ParseResult)
    ensures r.Success? <==> RegisterIssues(v, isEmail) == []
    ensures r.Failure? ==> r.issues == RegisterIssues(v, isEmail)
    ensures r.Success? ==>
              && r.data.email == v.email && r.data.password == v.password && r.data.name == v.name
              && r.data.age as real == v.age.value && 10 <= r.data.age <= 100
              && r.data.gender == v.gender && r.data.height == v.height.value && r.data.weight == v.weight.value
  {
    var issues := RegisterIssues(v, isEmail);
    if issues != [] then Failure(issues)
    else
      Success(ValidatedInput(v, isEmail))
  }

  /** The data safeParse returns for values that satisfy the schema: the age as the integer it is. */
  function ValidatedInput(v: RegisterValues, isEmail: string -> bool): (r: AuthServer.RegisterInput)
    requires SatisfiesSchema(v, isEmail)
    ensures r.age as real == v.age.value && 10 <= r.age <= 100
    ensures r.email == v.email && r.password == v.password && r.name == v.name && r.gender == v.gender
    ensures r.height == v.height.value && r.weight == v.weight.value
  {
    AuthServer.RegisterInput(v.email, v.password, v.name, v.age.value.Floor, v.gender, v.height.value, v.weight.value)
  }

  // ---------------------------------------------------------------------------
  // Where the field errors go
  // ---------------------------------------------------------------------------

  /** The `fieldErrors` the action reads off `result.error.format()`; None is undefined. */
  function FieldErrorsAsWritten(issues: seq<Issue>): Option<FormattedValue>
  {
    FormattedProperty(Format(issues), "fieldErrors")
  }

  /** The field names RegisterSchema can report. */
  const SchemaFields: set<string> := {"email", "password", "name", "age", "gender", "height", "weight"}

  /** Issues all about one allowed field report only allowed fields. */
  lemma OneFieldWithin(issues: seq<Issue>, field: string, allowed: set<string>)
    requires field in allowed
    requires forall i :: 0 <= i < |issues| ==> issues[i].field == field
    ensures Fields(issues) <= allowed
  {
  }

  /** Two issue lists reporting only allowed fields report only allowed fields together. */
  lemma ConcatWithin(a: seq<Issue>, b: seq<Issue>, allowed: set<string>)
    requires Fields(a) <= allowed && Fields(b) <= allowed
    ensures Fields(a + b) <= allowed
  {
    FieldsOfConcat(a, b);
  }

  /** Every issue RegisterSchema reports is about one of its seven keys. */
  lemma RegisterIssueFields(v: RegisterValues, isEmail: string -> bool)
    ensures Fields(RegisterIssues(v, isEmail)) <= SchemaFields
  {
    var e := EmailIssues(v.email, isEmail);
    var p := PasswordIssues(v.password);
    var n := NameIssues(v.name);
    var a := NumberIssues("age", v.age, AgeRules);
    var g := GenderIssues(v.gender);
    var h := NumberIssues("height", v.height, HeightRules);
    var w := NumberIssues("weight", v.weight, WeightRules);
    OneFieldWithin(e, "email", {"email"});
    OneFieldWithin(p, "password", {"password"});
    OneFieldWithin(n, "name", {"name"});
    OneFieldWithin(a, "age", {"age"});
    OneFieldWithin(g, "gender", {"gender"});
    OneFieldWithin(h, "height", {"height"});
    OneFieldWithin(w, "weight", {"weight"});
    SevenPartsWithin(e, p, n, a, g, h, w);
  }

  /** Seven issue lists, one per key of RegisterSchema, in key order. */
  lemma SevenPartsWithin(
    e: seq<Issue>, p: seq<Issue>, n: seq<Issue>, a: seq<Issue>, g: seq<Issue>, h: seq<Issue>, w: seq<Issue>)
    requires Fields(e) <= {"email"} && Fields(p) <= {"password"} && Fields(n) <= {"name"} && Fields(a) <= {"age"}
    requires Fields(g) <= {"gender"} && Fields(h) <= {"height"} && Fields(w) <= {"weight"}
    ensures Fields(e + p + n + a + g + h + w) <= SchemaFields
  {
    var allowed := SchemaFields;
    ConcatWithin(e, p, allowed);
    ConcatWithin(e + p, n, allowed);
    ConcatWithin(e + p + n, a, allowed);
    ConcatWithin(e + p + n + a, g, allowed);
    ConcatWithin(e + p + n + a + g, h, allowed);
    ConcatWithin(e + p + n + a + g + h, w, allowed);
  }

  /**
   * As written, the 400 response never carries a message: format() has no
   * `fieldErrors` property, so the value sent is undefined whatever failed.
   */
  lemma FieldErrorsAsWrittenUndefined(v: RegisterValues, isEmail: string -> bool)
    ensures FieldErrorsAsWritten(RegisterIssues(v, isEmail)).None?
  {
    var issues := RegisterIssues(v, isEmail);
    RegisterIssueFields(v, isEmail);
    assert "fieldErrors" !in SchemaFields;
    FormatHasNoFieldErrors(issues);
  }

  /**
   * The input that shows it: an age of 5 with every other field valid fails
   * the schema with the minimum-age message, which format() files under
   * `age` and flatten() under `fieldErrors.age`, yet `format().fieldErrors`
   * is undefined.
   */
  lemma FieldErrorsLostForYoungAge()
    ensures var v := RegisterValues("a@example.com", "secret1", "Taro", Finite(5.0), "male", Finite(170.0), Finite(60.0));
            var issues := RegisterIssues(v, s => true);
            && issues == [Issue("age", AgeRules.minMessage)]
            && FormattedProperty(Format(issues), "age") == Some(Nested([AgeRules.minMessage]))
            && FieldErrorsAsWritten(issues).None?
            && Flatten(issues).fieldErrors == map["age" := [AgeRules.minMessage]]
  {
    var v := RegisterValues("a@example.com", "secret1", "Taro", Finite(5.0), "male", Finite(170.0), Finite(60.0));
    var issues := RegisterIssues(v, s => true);
    assert NumberIssues("age", v.age, AgeRules) == [Issue("age", AgeRules.minMessage)];
    assert NumberIssues("height", v.height, HeightRules) == [];
    assert NumberIssues("weight", v.weight, WeightRules) == [];
    assert issues == [Issue("age", AgeRules.minMessage)];
    assert Fields(issues) == {"age"} by { assert issues[0].field == "age"; }
    assert MessagesFor(issues, "age") == [AgeRules.minMessage] by { assert issues[..0] == []; }
  }

  /**
   * The corrected response, `flatten().fieldErrors` (the form reads
   * `fieldErrors.<field>` as a message list): every field with an issue is
   * present, with all its messages in order, and no other field is.
   */
  function FieldErrorsCorrected(issues: seq<Issue>): (r: map<string, seq<string>>)
    ensures r.Keys == Fields(issues)
    ensures forall f :: f in r ==> r[f] == MessagesFor(issues, f) && r[f] != []
  {
    Flatten(issues).fieldErrors
  }

  // ---------------------------------------------------------------------------
  // The action
  // ---------------------------------------------------------------------------

  /** What `formData.get(name)` returns: a string, a file, or null when absent. */
  datatype FormEntry = Text(text: string) | FileEntry | Absent

  /** The seven submitted strings, echoed back to the form. */
  datatype RegisterFields = RegisterFields(
    email: string, password: string, name: string, age: string, gender: string, height: string, weight: string)

  /** What prisma.user.create did: the id of the new row, or a failure with its code, unique-constraint target and message. */
  datatype CreateOutcome = Inserted(id: string) | CreateFailed(code: string, target: Option<seq<string>>, message: string)

  /**
   * Which `fieldErrors` a failed validation sends: `format().fieldErrors`,
   * as the action is written, or `flatten().fieldErrors`, its correction.
   */
  datatype ErrorView = AsWritten | Corrected

  /** The `fieldErrors` value of the 400 response, under either view. */
  datatype SentFieldErrors = FormatView(value: Option<FormattedValue>) | FlattenView(errors: map<string, seq<string>>)

  function SentFieldErrorsOf(view: ErrorView, issues: seq<Issue>): SentFieldErrors
  {
    match view
    case AsWritten => FormatView(FieldErrorsAsWritten(issues))
    case Corrected => FlattenView(FieldErrorsCorrected(issues))
  }

  /** The action's response. */
  datatype RegisterActionResult =
    | FormError(status: int, formError: string, echoed: Option<RegisterFields>)
    | FieldErrors(status: int, fieldErrors: SentFieldErrors, fields: RegisterFields)
    | SessionCreated(user: AuthServer.UserRecord, response: AuthServer.SessionRedirect)

  /**
   * The values the action validates: the four strings as submitted, the age
   * through parseInt (NaN exactly when no digit can be read, and otherwise
   * always an integer), height and weight through parseFloat.
   */
  function ParsedValues(fields: RegisterFields): (r: RegisterValues)
    ensures r.email == fields.email && r.password == fields.password && r.name == fields.name
    ensures r.gender == fields.gender
    ensures r.age.NaN? <==> ParseInt(fields.age).None?
    ensures !r.age.NaN? ==> IsInteger(r.age) && r.age.value == ParseInt(fields.age).value as real
    ensures r.height == ParseFloat(fields.height) && r.weight == ParseFloat(fields.weight)
  {
    RegisterValues(
      fields.email, fields.password, fields.name,
      match ParseInt(fields.age) case Some(n) => Finite(n as real) case None => NaN,
      fields.gender, ParseFloat(fields.height), ParseFloat(fields.weight))
  }

  /** The response to a failed create: a duplicate email, or any other error with its message. */
  function CreateFailure(code: string, target: Option<seq<string>>, message: string, fields: RegisterFields): (r: RegisterActionResult)
    ensures r.FormError? && r.echoed == Some(fields)
    ensures r.status == 400 <==> code == "P2002" && target.Some? && "email" in target.value
    ensures r.status == 400 ==> r.formError == DuplicateEmailMessage
    ensures r.status != 400 ==> r.status == 500 && r.formError == RegistrationFailedPrefix + message
  {
    if code == "P2002" && target.Some? && "email" in target.value then FormError(400, DuplicateEmailMessage, Some(fields))
    else FormError(500, RegistrationFailedPrefix + message, Some(fields))
  }

  /**
   * The action, with the regex, the password hash and the create's outcome
   * as parameters (the catch around the number parsing is omitted: parseInt
   * and parseFloat do not throw, so it is unreachable).
   */
  function RegisterAction(
    email: FormEntry, password: FormEntry, name: FormEntry, age: FormEntry, gender: FormEntry,
    height: FormEntry, weight: FormEntry,
    isEmail: string -> bool, passwordHash: string, create: CreateOutcome, view: ErrorView): (r: RegisterActionResult)
    ensures r == FormError(400, FormNotSubmittedMessage, None) <==>
              !(email.Text? && password.Text? && name.Text? && age.Text? && gender.Text? && height.Text? && weight.Text?)
  {
    if !(email.Text? && password.Text? && name.Text? && age.Text? && gender.Text? && height.Text? && weight.Text?) then
      FormError(400, FormNotSubmittedMessage, None)
    else
      ActionOnStrings(
        RegisterFields(email.text, password.text, name.text, age.text, gender.text, height.text, weight.text),
        isEmail, passwordHash, create, view)
  }

  /** The action once all seven entries are strings: validate, then create the user and the session. */
  function ActionOnStrings(
    fields: RegisterFields, isEmail: string -> bool, passwordHash: string, create: CreateOutcome, view: ErrorView)
    : (r: RegisterActionResult)
    ensures r.FieldErrors? <==> !SatisfiesSchema(ParsedValues(fields), isEmail)
    ensures r.FieldErrors? ==> r.status == 400 && r.fields == fields
    ensures r.SessionCreated? <==> SatisfiesSchema(ParsedValues(fields), isEmail) && create.Inserted?
    ensures r.FormError? ==> r.echoed == Some(fields)
  {
    match SafeParse(ParsedValues(fields), isEmail)
    case Failure(issues) => FieldErrors(400, SentFieldErrorsOf(view, issues), fields)
    case Success(input) =>
      match create
      case Inserted(id) =>
        SessionCreated(AuthServer.NewUserRecord(input, passwordHash), AuthServer.CreateUserSession(id, "/dashboard"))
      case CreateFailed(code, target, message) => CreateFailure(code, target, message, fields)
  }

  /** Seven string entries reach the validation with exactly the submitted strings. */
  lemma StringEntriesReachValidation(
    fields: RegisterFields, isEmail: string -> bool, passwordHash: string, create: CreateOutcome, view: ErrorView)
    ensures RegisterAction(
              Text(fields.email), Text(fields.password), Text(fields.name), Text(fields.age),
              Text(fields.gender), Text(fields.height), Text(fields.weight), isEmail, passwordHash, create, view)
            == ActionOnStrings(fields, isEmail, passwordHash, create, view)
  {
    assert RegisterFields(fields.email, fields.password, fields.name, fields.age, fields.gender, fields.height, fields.weight)
           == fields;
  }

  /** Any entry that is not a string is a form error with status 400, before anything is parsed or stored. */
  lemma NonStringEntryIsFormError(
    email: FormEntry, password: FormEntry, name: FormEntry, age: FormEntry, gender: FormEntry,
    height: FormEntry, weight: FormEntry,
    isEmail: string -> bool, passwordHash: string, create: CreateOutcome, view: ErrorView)
    requires !email.Text? || !password.Text? || !name.Text? || !age.Text? || !gender.Text? || !height.Text? || !weight.Text?
    ensures RegisterAction(email, password, name, age, gender, height, weight, isEmail, passwordHash, create, view)
            == FormError(400, FormNotSubmittedMessage, None)
  {
  }

  /**
   * With seven strings, the action fails validation exactly when the schema
   * reports issues; it then answers 400 with the submitted strings unchanged,
   * whatever the database would have done. As written the `fieldErrors` it
   * sends is undefined; corrected, it holds every field's messages and no
   * other field.
   */
  lemma ValidationFailureEchoesFields(
    fields: RegisterFields, isEmail: string -> bool, passwordHash: string, create: CreateOutcome, view: ErrorView)
    ensures var r := RegisterAction(
              Text(fields.email), Text(fields.password), Text(fields.name), Text(fields.age),
              Text(fields.gender), Text(fields.height), Text(fields.weight), isEmail, passwordHash, create, view);
            var issues := RegisterIssues(ParsedValues(fields), isEmail);
            && (r.FieldErrors? <==> issues != [])
            && (r.FieldErrors? ==> r.status == 400 && r.fields == fields)
            && (r.FieldErrors? && view == AsWritten ==> r.fieldErrors == FormatView(None))
            && (r.FieldErrors? && view == Corrected ==>
                  && r.fieldErrors.FlattenView?
                  && r.fieldErrors.errors.Keys == Fields(issues)
                  && forall f :: f in r.fieldErrors.errors ==> r.fieldErrors.errors[f] == MessagesFor(issues, f))
  {
    StringEntriesReachValidation(fields, isEmail, passwordHash, create, view);
    var parsed := SafeParse(ParsedValues(fields), isEmail);
    var r := ActionOnStrings(fields, isEmail, passwordHash, create, view);
    if parsed.Failure? {
      assert r == FieldErrors(400, SentFieldErrorsOf(view, parsed.issues), fields);
      if view == AsWritten {
        FieldErrorsAsWrittenUndefined(ParsedValues(fields), isEmail);
      }
    } else {
      assert !r.FieldErrors?;
    }
  }

  /**
   * A user is registered, and the session created with a redirect to the
   * dashboard, exactly when all seven entries are strings that pass the
   * schema and the create succeeds. The stored record is the one register
   * builds from the parsed values, so its max heart rate lies in 147..205
   * and its zones are contiguous and ascending.
   */
  lemma RegisteredIff(
    fields: RegisterFields, isEmail: string -> bool, passwordHash: string, create: CreateOutcome, view: ErrorView)
    ensures var r := RegisterAction(
              Text(fields.email), Text(fields.password), Text(fields.name), Text(fields.age),
              Text(fields.gender), Text(fields.height), Text(fields.weight), isEmail, passwordHash, create, view);
            && (r.SessionCreated? <==> SatisfiesSchema(ParsedValues(fields), isEmail) && create.Inserted?)
            && (r.SessionCreated? ==>
                  var z := r.user.heartRateZones;
                  && r.response == AuthServer.CreateUserSession(create.id, "/dashboard")
                  && r.user == AuthServer.NewUserRecord(ValidatedInput(ParsedValues(fields), isEmail), passwordHash)
                  && r.user.email == fields.email && r.user.passwordHash == passwordHash
                  && r.user.name == fields.name && r.user.gender == fields.gender
                  && r.user.height == ParseFloat(fields.height).value && r.user.weight == ParseFloat(fields.weight).value
                  && 147 <= r.user.maxHeartRate <= 205
                  && z.zone1Max == z.zone2Min && z.zone2Max == z.zone3Min
                  && z.zone3Max == z.zone4Min && z.zone4Max == z.zone5Min
                  && z.zone5Max == r.user.maxHeartRate
                  && forall i, j :: 0 <= i <= j < 10 ==> z.Bounds()[i] <= z.Bounds()[j])
  {
    var v := ParsedValues(fields);
    StringEntriesReachValidation(fields, isEmail, passwordHash, create, view);
    var r := ActionOnStrings(fields, isEmail, passwordHash, create, view);
    var parsed := SafeParse(v, isEmail);
    if parsed.Success? {
      if create.Inserted? {
        assert parsed.data == ValidatedInput(v, isEmail);
        assert r == SessionCreated(AuthServer.NewUserRecord(parsed.data, passwordHash), AuthServer.CreateUserSession(create.id, "/dashboard"));
        AuthServer.RegisteredZonesContiguous(parsed.data, passwordHash);
      } else {
        assert r.FormError?;
      }
    } else {
      assert r.FieldErrors?;
    }
  }

  /**
   * A create that fails on the email's unique constraint is reported as a
   * duplicate email (400); any other failure as a 500 carrying its message.
   */
  lemma CreateFailureOutcome(
    fields: RegisterFields, isEmail: string -> bool, passwordHash: string,
    code: string, target: Option<seq<string>>, message: string, view: ErrorView)
    requires SatisfiesSchema(ParsedValues(fields), isEmail)
    ensures var r := RegisterAction(
              Text(fields.email), Text(fields.password), Text(fields.name), Text(fields.age),
              Text(fields.gender), Text(fields.height), Text(fields.weight), isEmail, passwordHash,
              CreateFailed(code, target, message), view);
            && r.FormError? && r.echoed == Some(fields)
            && (code == "P2002" && target.Some? && "email" in target.value ==> r == FormError(400, DuplicateEmailMessage, Some(fields)))
            && (!(code == "P2002" && target.Some? && "email" in target.value) ==> r == FormError(500, RegistrationFailedPrefix + message, Some(fields)))
  {
    var create := CreateFailed(code, target, message);
    StringEntriesReachValidation(fields, isEmail, passwordHash, create, view);
    assert SafeParse(ParsedValues(fields), isEmail).Success?;
    assert ActionOnStrings(fields, isEmail, passwordHash, create, view) == CreateFailure(code, target, message, fields);
  }

  // ---------------------------------------------------------------------------
  // The max-heart-rate preview
  // ---------------------------------------------------------------------------

  /** The preview for an age field's text: the max heart rate when it parses to a positive integer. */
  function AgePreview(value: string): (r: Option<int>)
    ensures r.Some? <==> ParseInt(value).Some? && ParseInt(value).value > 0
    ensures r.Some? ==> r.value == MaxHeartRate(ParseInt(value).value)
  {
    match ParseInt(value)
    case Some(age) => if age > 0 then Some(MaxHeartRate(age)) else None
    case None => None
  }

  /**
   * Typing an age, with leading whitespace and trailing text allowed as
   * parseInt allows them, previews that age's max heart rate; "0" and a
   * negative age preview nothing.
   */
  lemma AgePreviewOfTypedAge(ws: string, negative: bool, n: nat, tail: string)
    requires forall i :: 0 <= i < |ws| ==> IsWhitespace(ws[i])
    requires tail == [] || !IsDigit(tail[0])
    ensures AgePreview(ws + (if negative then "-" else "") + NatToDecimal(n) + tail)
            == if !negative && n > 0 then Some(MaxHeartRate(n)) else None
  {
    ParseIntReadsDecimal(ws, negative, n, tail);
  }

  /** For the ages the schema accepts, the preview lies in 147..205. */
  lemma AgePreviewForFormAges(n: nat)
    requires 10 <= n <= 100
    ensures AgePreview(NatToDecimal(n)).Some?
    ensures 147 <= AgePreview(NatToDecimal(n)).value <= 205
  {
    ParseIntOfDecimal(n);
    MaxHeartRateForFormAges(n);
  }

  /** The initial form state: the echoed fields when the last submission failed, else empty; gender defaults to "male". */
  function InitialFormData(previous: Option<RegisterFields>): (r: map<string, string>)
    ensures r.Keys == SchemaFields
    ensures r["gender"] == if previous.Some? && previous.value.gender != "" then previous.value.gender else "male"
    ensures forall f :: f in r && f != "gender" ==> r[f] == if previous.Some? then FieldText(previous.value, f) else ""
  {
    var p := if previous.Some? then previous.value else RegisterFields("", "", "", "", "", "", "");
    map["email" := p.email, "password" := p.password, "name" := p.name, "age" := p.age,
        "gender" := if p.gender != "" then p.gender else "male", "height" := p.height, "weight" := p.weight]
  }

  /** One echoed field by name. */
  function FieldText(fields: RegisterFields, f: string): string
  {
    if f == "email" then fields.email else if f == "password" then fields.password
    else if f == "name" then fields.name else if f == "age" then fields.age
    else if f == "gender" then fields.gender else if f == "height" then fields.height
    else fields.weight
  }

  /** The registration form's state: the field values and the previewed max heart rate. */
  class RegisterForm {
    var formData: map<string, string>
    var calculatedMaxHeartRate: Option<int>

    constructor(previous: Option<RegisterFields>)
      ensures formData == InitialFormData(previous)
      ensures calculatedMaxHeartRate == None
    {
      formData := InitialFormData(previous);
      calculatedMaxHeartRate := None;
    }

    /**
     * handleInputChange: store the new value under the input's name; when
     * the age changes to a non-empty value, recompute the preview (an
     * unparsable or non-positive age clears it). Clearing the age leaves the
     * preview as it was.
     */
    method HandleInputChange(name: string, value: string)
      modifies this
      ensures formData == old(formData)[name := value]
      ensures name == "age" && value != "" ==> calculatedMaxHeartRate == AgePreview(value)
      ensures !(name == "age" && value != "") ==> calculatedMaxHeartRate == old(calculatedMaxHeartRate)
    {
      formData := formData[name := value];
      if name == "age" && value != "" {
        calculatedMaxHeartRate := AgePreview(value);
      }
    }
  }
}
