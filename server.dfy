/** The request-handling logic of server.go: the POST `/contact` handler,
    which turns the form into a status code by way of the reCAPTCHA
    verifier and the contact-form processor, and the error handler's choice
    of status and error page. The two collaborators are the parameters
    `verify` and `process`; the handler's reply records which of them it
    called, and with what.
 */
module Server {
  import opened Outcomes
  import opened GoStrconv
  import opened GoFmt
  import opened ContactFormDomain
  import RecaptchaService

  /* ---------------- Reading the form ---------------- */

  /** The submitted form: each key with its values, in order. */
  type FormValues = map<string, seq<string>>

  /** `c.FormValue(key)`: the first value of the key, or the empty string
      when the key is absent or has no value. */
  function FormValue(values: FormValues, key: string): (v: string)
    ensures key in values && |values[key]| > 0 ==> v == values[key][0]
    ensures key !in values || values[key] == [] ==> v == ""
  {
    if key in values && |values[key]| > 0 then values[key][0] else ""
  }

  /** The form keys, in the order of the `ContactForm` fields. */
  const FormKeys: seq<string> := ["name", "email", "company", "number", "message", "g-recaptcha-response"]

  /** The `ContactForm` the handler builds: field `i` is the first value of
      form key `i`. */
  function ContactFormFromRequest(values: FormValues): (f: ContactForm)
    ensures forall i :: 0 <= i < 6 ==> Fields(f)[i].1 == FormValue(values, FormKeys[i])
  {
    ContactForm(
      FormValue(values, "name"),
      FormValue(values, "email"),
      FormValue(values, "company"),
      FormValue(values, "number"),
      FormValue(values, "message"),
      FormValue(values, "g-recaptcha-response"))
  }

  /** A request missing any of the six keys, or giving it an empty first
      value, is not a valid form. */
  lemma MissingKeyMakesFormInvalid(values: FormValues, i: nat)
    requires i < 6
    requires FormKeys[i] !in values || values[FormKeys[i]] == [] || values[FormKeys[i]][0] == ""
    ensures !IsValid(ContactFormFromRequest(values))
  {
    var f := ContactFormFromRequest(values);
    assert Fields(f)[i].1 == "";
    ValidIffAllFieldsPresent(f);
  }

  /* ---------------- The POST /contact handler ---------------- */

  /** A call the handler made to one of its collaborators. */
  datatype Call = VerifyCall(token: string) | ProcessCall(form: ContactForm)

  /** The status the handler answers with, and the calls it made, in order. */
  datatype Reply = Reply(status: int, calls: seq<Call>)

  /** The POST `/contact` handler: 400 for an invalid form; otherwise verify
      the form's reCAPTCHA token, answering 500 when the verifier could not
      be reached, 403 when the user was not verified and 500 for any other
      verifier error; otherwise process the form, answering 500 if that
      fails and 200 if it succeeds. */
  function HandleContactSubmission(values: FormValues,
                                   verify: string -> Outcome,
                                   process: ContactForm -> Outcome): (reply: Reply)
    ensures var f := ContactFormFromRequest(values);
      && reply.status in {200, 400, 403, 500}
      && (reply.status == 400 <==> !IsValid(f))
      && (!IsValid(f) ==> reply.calls == [])
      && (IsValid(f) ==> |reply.calls| >= 1 && reply.calls[0] == VerifyCall(f.recaptchaResponse))
      && (IsValid(f) && verify(f.recaptchaResponse).Err? ==> reply.calls == [VerifyCall(f.recaptchaResponse)])
      && (IsValid(f) && verify(f.recaptchaResponse) == Ok ==>
            reply.calls == [VerifyCall(f.recaptchaResponse), ProcessCall(f)])
      && (reply.status == 200 <==> IsValid(f) && verify(f.recaptchaResponse) == Ok && process(f) == Ok)
      && (reply.status == 403 <==>
            IsValid(f) && verify(f.recaptchaResponse) == Err(RecaptchaService.NotVerifiedError))
  {
    var form := ContactFormFromRequest(values);
    if !IsValid(form) then Reply(400, [])
    else
      var verified := VerifyCall(form.recaptchaResponse);
      match verify(form.recaptchaResponse)
      case Err(message) =>
        if message == RecaptchaService.CannotCommunicateRecaptchaError then Reply(500, [verified])
        else if message == RecaptchaService.NotVerifiedError then Reply(403, [verified])
        else Reply(500, [verified])
      case Ok =>
        var processed := ProcessCall(form);
        match process(form)
        case Err(_) => Reply(500, [verified, processed])
        case Ok => Reply(200, [verified, processed])
  }

  /** Each verifier error on a valid form: an unreachable verifier and any
      unexpected error give 500, an unverified user 403, and in all three
      cases the form is not processed. */
  lemma VerifierErrorStatus(values: FormValues, verify: string -> Outcome,
                            process: ContactForm -> Outcome, message: string)
    requires IsValid(ContactFormFromRequest(values))
    requires verify(ContactFormFromRequest(values).recaptchaResponse) == Err(message)
    ensures var reply := HandleContactSubmission(values, verify, process);
      && (message == RecaptchaService.CannotCommunicateRecaptchaError ==> reply.status == 500)
      && (message == RecaptchaService.NotVerifiedError ==> reply.status == 403)
      && (message !in {RecaptchaService.CannotCommunicateRecaptchaError, RecaptchaService.NotVerifiedError}
          ==> reply.status == 500)
      && (forall c :: c in reply.calls ==> !c.ProcessCall?)
  {
  }

  /** The processor runs only after the verifier accepted the token, is
      handed exactly the form that was read, and its failure is a 500. */
  lemma ProcessOnlyAfterVerification(values: FormValues, verify: string -> Outcome,
                                     process: ContactForm -> Outcome)
    ensures var reply := HandleContactSubmission(values, verify, process);
            var f := ContactFormFromRequest(values);
      && (forall i :: 0 <= i < |reply.calls| && reply.calls[i].ProcessCall? ==>
            i > 0 && reply.calls[i - 1] == VerifyCall(f.recaptchaResponse)
            && verify(f.recaptchaResponse) == Ok && reply.calls[i].form == f)
      && (IsValid(f) && verify(f.recaptchaResponse) == Ok && process(f).Err? ==> reply.status == 500)
  {
  }

  /** The verifier is called at most once, and exactly once for a valid form. */
  lemma VerifyCalledOnce(values: FormValues, verify: string -> Outcome, process: ContactForm -> Outcome)
    ensures var reply := HandleContactSubmission(values, verify, process);
            var f := ContactFormFromRequest(values);
      |set i | 0 <= i < |reply.calls| && reply.calls[i].VerifyCall?| == (if IsValid(f) then 1 else 0)
  {
    var reply := HandleContactSubmission(values, verify, process);
    var f := ContactFormFromRequest(values);
    var verifies := set i | 0 <= i < |reply.calls| && reply.calls[i].VerifyCall?;
    if IsValid(f) {
      assert verifies == {0};
    } else {
      assert verifies == {};
    }
  }

  /* ---------------- The error handler ---------------- */

  /** The error a route returned: an `echo.HTTPError` with its status code,
      or any other error. */
  datatype HandlerError = HttpError(code: int, message: string) | OtherError(message: string)

  /** What the error handler renders: the status, the template name and the
      data handed to the template. */
  datatype ErrorPage = ErrorPage(status: int, template: string, data: int)

  /** The `Sprintf` template of the error page's name. */
  const ErrorTemplateFormat := "%d" + ".html"

  /** `CustomEchoErrorHandler.handle`: the code of an `HTTPError`, 500 for
      any other error, rendered with the template `<code>.html` and the code
      as its data. */
  function ErrorPageFor(err: HandlerError): (page: ErrorPage)
    ensures err.HttpError? ==> page.status == err.code
    ensures err.OtherError? ==> page.status == 500
    ensures page.template == FormatInt(page.status) + ".html"
    ensures page.data == page.status
  {
    var code := if err.HttpError? then err.code else 500;
    SprintfVerb('d', ".html", Int(code), []);
    SprintfLiteral(".html", "", []);
    assert ".html" + "" == ".html";
    assert ErrorTemplateFormat == ['%', 'd'] + ".html";
    assert [Int(code)] == [Int(code)] + [];
    ErrorPage(code, Sprintf(ErrorTemplateFormat, [Int(code)]), code)
  }

  /** The template name gives the status back: dropping `.html` leaves the
      decimal code, which `strconv.Atoi` reads as the status, so different
      statuses render different pages. */
  lemma ErrorTemplateNamesStatus(err: HandlerError)
    requires err.HttpError? ==> MinInt <= err.code <= MaxInt
    ensures var page := ErrorPageFor(err);
      && |page.template| > 5
      && Atoi(page.template[..|page.template| - 5]) == Some(page.status)
  {
    var page := ErrorPageFor(err);
    var digits := FormatInt(page.status);
    assert page.template[..|page.template| - 5] == digits;
    AtoiOfFormatInt(page.status);
  }
}
