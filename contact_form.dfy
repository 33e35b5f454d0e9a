/** A contact-form submission (domain/contact_form.go): six string fields,
    each tagged `validate:"required"`.
 */
module ContactFormDomain {

  datatype ContactForm = ContactForm(
    name: string,
    email: string,
    company: string,
    number: string,
    message: string,
    recaptchaResponse: string)

  /** The Go field names with their values, in declaration order. */
  function Fields(f: ContactForm): (fields: seq<(string, string)>)
    ensures |fields| == 6
  {
    [ ("Name", f.name), ("Email", f.email), ("Company", f.company),
      ("Number", f.number), ("Message", f.message), ("RecaptchaResponse", f.recaptchaResponse) ]
  }

  /** The names of the fields whose value is empty, keeping their order. */
  function EmptyFieldNames(fields: seq<(string, string)>): (names: seq<string>)
    ensures |names| <= |fields|
    ensures forall k :: 0 <= k < |fields| && fields[k].1 == "" ==> fields[k].0 in names
    ensures forall n :: n in names ==> exists k :: 0 <= k < |fields| && fields[k].0 == n && fields[k].1 == ""
  {
    if fields == [] then []
    else
      var rest := EmptyFieldNames(fields[1..]);
      assert forall k :: 1 <= k < |fields| ==> fields[k] == fields[1..][k - 1];
      if fields[0].1 == "" then [fields[0].0] + rest else rest
  }

  /** What `validator.Struct` reports for a form: every field that fails the
      `required` rule, which for a string means it is empty. */
  function MissingFields(f: ContactForm): (missing: seq<string>)
    ensures forall k :: 0 <= k < 6 ==> (Fields(f)[k].0 in missing <==> Fields(f)[k].1 == "")
  {
    EmptyFieldNames(Fields(f))
  }

  /** The form passes validation when no field is reported. */
  predicate IsValid(f: ContactForm): (ok: bool)
    ensures ok <==> forall k :: 0 <= k < 6 ==> Fields(f)[k].1 != ""
  {
    var missing := MissingFields(f);
    assert missing != [] ==> missing[0] in missing;
    missing == []
  }

  /** A form is valid exactly when all six fields are non-empty. Only
      emptiness is checked: the email field's format is not. */
  lemma ValidIffAllFieldsPresent(f: ContactForm)
    ensures IsValid(f) <==>
      && f.name != "" && f.email != "" && f.company != ""
      && f.number != "" && f.message != "" && f.recaptchaResponse != ""
  {
    var missing := MissingFields(f);
    var fields := Fields(f);
    assert fields[0].1 == f.name && fields[1].1 == f.email && fields[2].1 == f.company;
    assert fields[3].1 == f.number && fields[4].1 == f.message && fields[5].1 == f.recaptchaResponse;
    if missing != [] {
      assert missing[0] in missing;
      var k :| 0 <= k < |fields| && fields[k].0 == missing[0] && fields[k].1 == "";
      assert k in {0, 1, 2, 3, 4, 5};
    }
  }
}
