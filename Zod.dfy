/**
 * The part of zod's error reporting the routes rely on: a validation issue
 * (the first element of its path and its message), and the two ways a
 * ZodError groups its issues per field, format() and flatten(). Every issue
 * the schemas here produce has a one-element path, so form-level errors
 * stay empty.
 */
module Zod {
  import opened JsBuiltins

  datatype Issue = Issue(field: string, message: string)

  /** The fields the issues are about. */
  function Fields(issues: seq<Issue>): set<string>
  {
    set i | 0 <= i < |issues| :: issues[i].field
  }

  /** Dropping the last issue drops its field unless an earlier issue shares it. */
  lemma FieldsOfPrefix(issues: seq<Issue>)
    requires issues != []
    ensures Fields(issues) == Fields(issues[..|issues| - 1]) + {issues[|issues| - 1].field}
  {
    var n := |issues| - 1;
    forall f | f in Fields(issues) ensures f in Fields(issues[..n]) + {issues[n].field} {
      var i :| 0 <= i < |issues| && issues[i].field == f;
      if i < n { assert issues[..n][i] == issues[i]; }
    }
    forall f | f in Fields(issues[..n]) ensures f in Fields(issues) {
      var i :| 0 <= i < n && issues[..n][i].field == f;
      assert issues[i] == issues[..n][i];
    }
  }

  /** The fields of two issue lists together. */
  lemma FieldsOfConcat(a: seq<Issue>, b: seq<Issue>)
    ensures Fields(a + b) == Fields(a) + Fields(b)
  {
    forall f | f in Fields(a + b) ensures f in Fields(a) + Fields(b) {
      var i :| 0 <= i < |a + b| && (a + b)[i].field == f;
      if i < |a| { assert (a + b)[i] == a[i]; } else { assert (a + b)[i] == b[i - |a|]; }
    }
    forall f | f in Fields(a) + Fields(b) ensures f in Fields(a + b) {
      if f in Fields(a) {
        var i :| 0 <= i < |a| && a[i].field == f;
        assert (a + b)[i] == a[i];
      } else {
        var i :| 0 <= i < |b| && b[i].field == f;
        assert (a + b)[|a| + i] == b[i];
      }
    }
  }

  /** The messages of one field's issues, in the order the issues were raised. */
  function MessagesFor(issues: seq<Issue>, field: string): (r: seq<string>)
    ensures |r| <= |issues|
    ensures r == [] <==> field !in Fields(issues)
  {
    if issues == [] then []
    else
      var n := |issues| - 1;
      MessagesFor(issues[..n], field) + (if issues[n].field == field then [issues[n].message] else [])
  }

  /**
   * A property of the object error.format() builds: `_errors` holds the
   * form-level messages, and each field with issues holds `{ _errors }`.
   */
  datatype FormattedValue = ErrorList(messages: seq<string>) | Nested(errors: seq<string>)

  /** The object error.format() returns. */
  datatype FormattedError = FormattedError(formErrors: seq<string>, fields: map<string, seq<string>>)

  /**
   * error.format(): no form-level message, and one entry for exactly each
   * field with issues, holding that field's messages in order.
   */
  function Format(issues: seq<Issue>): (r: FormattedError)
    ensures r.formErrors == [] && r.fields.Keys == Fields(issues)
    ensures forall f :: f in r.fields ==> r.fields[f] == MessagesFor(issues, f) && r.fields[f] != []
  {
    FormattedError([], map f | f in Fields(issues) :: MessagesFor(issues, f))
  }

  /** Reading a property of the formatted object; None is `undefined`. */
  function FormattedProperty(e: FormattedError, key: string): (r: Option<FormattedValue>)
    ensures r.None? <==> key != "_errors" && key !in e.fields
  {
    if key == "_errors" then Some(ErrorList(e.formErrors))
    else if key in e.fields then Some(Nested(e.fields[key]))
    else None
  }

  /** The object error.flatten() returns. */
  datatype FlattenedError = FlattenedError(formErrors: seq<string>, fieldErrors: map<string, seq<string>>)

  /**
   * error.flatten(): no form-level message, and fieldErrors holding exactly
   * the fields with issues, each with that field's messages in order.
   */
  function Flatten(issues: seq<Issue>): (r: FlattenedError)
    ensures r.formErrors == [] && r.fieldErrors.Keys == Fields(issues)
    ensures forall f :: f in r.fieldErrors ==> r.fieldErrors[f] == MessagesFor(issues, f) && r.fieldErrors[f] != []
  {
    FlattenedError([], map f | f in Fields(issues) :: MessagesFor(issues, f))
  }

  /**
   * flatten().fieldErrors holds, for exactly the fields with issues, the
   * same non-empty message lists that format() nests under `_errors`
   * (when no field is itself named `_errors`).
   */
  lemma FlattenAgreesWithFormat(issues: seq<Issue>)
    requires "_errors" !in Fields(issues)
    ensures Flatten(issues).fieldErrors.Keys == Fields(issues)
    ensures forall f :: f in Fields(issues) ==>
              && Flatten(issues).fieldErrors[f] != []
              && FormattedProperty(Format(issues), f) == Some(Nested(Flatten(issues).fieldErrors[f]))
  {
    var flat := Flatten(issues).fieldErrors;
    var formatted := Format(issues);
    forall f | f in Fields(issues)
      ensures flat[f] != [] && FormattedProperty(formatted, f) == Some(Nested(flat[f]))
    {
      assert flat[f] == MessagesFor(issues, f) == formatted.fields[f];
    }
  }

  /**
   * format() has no `fieldErrors` property unless some issue is about a
   * field of that name: reading it yields undefined.
   */
  lemma FormatHasNoFieldErrors(issues: seq<Issue>)
    requires "fieldErrors" !in Fields(issues)
    ensures FormattedProperty(Format(issues), "fieldErrors").None?
  {
  }
}
