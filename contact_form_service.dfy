/** Emailing a contact form through Amazon SES
    (services/contact_form_service.go): the body template, the request
    record handed to `SendEmail`, and the mapping of the provider's error
    codes onto four fixed errors. The SES call itself is the parameter
    `sendEmail`.
 */
module ContactFormService {
  import opened Outcomes
  import opened GoFmt
  import opened AppConfigDomain
  import opened ContactFormDomain

  /** The labels of the five lines of the email body. */
  const NameLabel := "\nName: "
  const EmailLabel := "\nEmail: "
  const CompanyLabel := "\nCompany: "
  const NumberLabel := "\nContact Number: "
  const MessageLabel := "\nMessage: "

  /** The runs of literal text in the email body's template. */
  const EmailTemplateRuns: seq<string> := [NameLabel, EmailLabel, CompanyLabel, NumberLabel, MessageLabel, "\n"]

  /** The `Sprintf` template of the email body: a line break, then five
      labelled `%s` lines, each ending in a line break. */
  const EmailTemplate := FormatOf(EmailTemplateRuns)

  const CharSet := "UTF-8"

  const AwsSesRejectedMessageError := "aws ses rejected message"
  const AwsSesMailFromDomainNotVerifiedError := "aws ses mail from domain not verified"
  const AwsSesConfigurationSetDoesNotExistError := "aws ses configuration set does not exist"
  const AwsSesUnknownError := "aws ses unknown error"

  /** The four errors a failed send can return. */
  const SendErrors: set<string> := {
    AwsSesRejectedMessageError, AwsSesMailFromDomainNotVerifiedError,
    AwsSesConfigurationSetDoesNotExistError, AwsSesUnknownError
  }

  /** The SES error codes that `Process` recognises (the values of the AWS
      SDK's `ses.ErrCode...` constants). */
  const ErrCodeMessageRejected := "MessageRejected"
  const ErrCodeMailFromDomainNotVerifiedException := "MailFromDomainNotVerifiedException"
  const ErrCodeConfigurationSetDoesNotExistException := "ConfigurationSetDoesNotExist"

  /* ---------------- The request record (ses.SendEmailInput) ---------------- */

  datatype Content = Content(charset: string, data: string)
  datatype Destination = Destination(ccAddresses: seq<string>, toAddresses: seq<string>)
  datatype Body = Body(html: Content, text: Content)
  datatype Message = Message(body: Body, subject: Content)
  datatype SendEmailInput = SendEmailInput(destination: Destination, message: Message, source: string)

  /* ---------------- What SendEmail can answer ---------------- */

  datatype SendEmailOutput = SendEmailOutput(messageId: Option<string>)

  /** An error that carries an AWS error code (`awserr.Error`), or any other error. */
  datatype SesError = AwsError(code: string, message: string) | OtherError(message: string)

  datatype SendResult = Sent(output: SendEmailOutput) | Failed(error: SesError)

  /* ---------------- The body ---------------- */

  /** Filling the template with five strings puts each after its label. */
  lemma ExpandTemplate(a: string, b: string, c: string, d: string, e: string)
    ensures Sprintf(EmailTemplate, StrArgs([a, b, c, d, e]))
         == NameLabel + a + EmailLabel + b + CompanyLabel + c + NumberLabel + d + MessageLabel + e + "\n"
  {
    assert forall i :: 0 <= i < |EmailTemplateRuns| ==> '%' !in EmailTemplateRuns[i];
    SprintfStrings(EmailTemplateRuns, [a, b, c, d, e]);
    InterleaveFive(NameLabel, EmailLabel, CompanyLabel, NumberLabel, MessageLabel, "\n", a, b, c, d, e);
  }

  /** `contactFormToEmailBody`: the five template lines with the form's
      fields inserted verbatim, the reCAPTCHA response left out. */
  function EmailBody(f: ContactForm): (body: string)
    ensures body == NameLabel + f.name + EmailLabel + f.email + CompanyLabel + f.company
                    + NumberLabel + f.number + MessageLabel + f.message + "\n"
  {
    ExpandTemplate(f.name, f.email, f.company, f.number, f.message);
    Sprintf(EmailTemplate, StrArgs([f.name, f.email, f.company, f.number, f.message]))
  }

  /** Nothing is escaped, so different forms can give the same body: text
      that reads as the next line may sit at the end of one field or at the
      start of the next. */
  lemma EmailBodyIsNotInjective(x: string, y: string, company: string, number: string, message: string,
                                token: string)
    ensures var f1 := ContactForm(x + EmailLabel + y, "", company, number, message, token);
            var f2 := ContactForm(x, y + EmailLabel, company, number, message, token);
            f1 != f2 && EmailBody(f1) == EmailBody(f2)
  {
    var f1 := ContactForm(x + EmailLabel + y, "", company, number, message, token);
    var f2 := ContactForm(x, y + EmailLabel, company, number, message, token);
    assert |f1.name| != |f2.name|;
    ShiftAcrossLabel(NameLabel, x, EmailLabel, y, CompanyLabel, company, NumberLabel, number,
                     MessageLabel, message, "\n");
  }

  /** Text moved from the end of one field, across the label that follows
      it, to the start of the next field leaves the concatenation unchanged. */
  lemma ShiftAcrossLabel<T>(l0: seq<T>, x: seq<T>, l1: seq<T>, y: seq<T>, l2: seq<T>, c: seq<T>,
                            l3: seq<T>, d: seq<T>, l4: seq<T>, e: seq<T>, l5: seq<T>)
    ensures l0 + (x + l1 + y) + l1 + [] + l2 + c + l3 + d + l4 + e + l5
         == l0 + x + l1 + (y + l1) + l2 + c + l3 + d + l4 + e + l5
  {
    assert (x + l1 + y) + l1 + [] == x + l1 + (y + l1);
  }

  /* ---------------- The request ---------------- */

  /** The `SendEmailInput` that `Process` hands to SES: the configured
      sender and subject, the configured recipient as the only "To"
      address, no "Cc" address, and the body as both the HTML and the text
      part, everything in UTF-8. */
  function BuildSendEmailInput(config: EmailConfig, f: ContactForm): (input: SendEmailInput)
    ensures input.destination.toAddresses == [config.recipient]
    ensures input.destination.ccAddresses == []
    ensures input.source == config.sender
    ensures input.message.subject == Content(CharSet, config.subject)
    ensures input.message.body.html == input.message.body.text == Content(CharSet, EmailBody(f))
  {
    var textBody := EmailBody(f);
    SendEmailInput(
      Destination([], [config.recipient]),
      Message(Body(Content(CharSet, textBody), Content(CharSet, textBody)), Content(CharSet, config.subject)),
      config.sender)
  }

  /** The request depends on the configuration only through the sender,
      the recipient and the subject: the region and the keys shape the SES
      client, not the message. */
  lemma RequestIgnoresCredentials(c: EmailConfig, d: EmailConfig, f: ContactForm)
    requires c.sender == d.sender && c.recipient == d.recipient && c.subject == d.subject
    ensures BuildSendEmailInput(c, f) == BuildSendEmailInput(d, f)
  {
  }

  /* ---------------- Errors ---------------- */

  /** The error `Process` returns for a failed send. */
  function ClassifySendError(e: SesError): (message: string)
    ensures message in SendErrors
  {
    match e
    case OtherError(_) => AwsSesUnknownError
    case AwsError(code, _) =>
      if code == ErrCodeMessageRejected then AwsSesRejectedMessageError
      else if code == ErrCodeMailFromDomainNotVerifiedException then AwsSesMailFromDomainNotVerifiedError
      else if code == ErrCodeConfigurationSetDoesNotExistException then AwsSesConfigurationSetDoesNotExistError
      else AwsSesUnknownError
  }

  /** The mapping code by code: three recognised codes, everything else
      (another code, or an error without a code) is unknown. The provider's
      own message never matters. */
  lemma SendErrorMapping(code: string, text: string)
    ensures ClassifySendError(AwsError(ErrCodeMessageRejected, text)) == AwsSesRejectedMessageError
    ensures ClassifySendError(AwsError(ErrCodeMailFromDomainNotVerifiedException, text))
         == AwsSesMailFromDomainNotVerifiedError
    ensures ClassifySendError(AwsError(ErrCodeConfigurationSetDoesNotExistException, text))
         == AwsSesConfigurationSetDoesNotExistError
    ensures code !in {ErrCodeMessageRejected, ErrCodeMailFromDomainNotVerifiedException,
                      ErrCodeConfigurationSetDoesNotExistException}
         ==> ClassifySendError(AwsError(code, text)) == AwsSesUnknownError
    ensures ClassifySendError(OtherError(text)) == AwsSesUnknownError
  {
  }

  /* ---------------- Process ---------------- */

  /** `Process`: send the request built from the form; success whatever the
      answer's message id, otherwise one of the four errors. */
  function Process(config: EmailConfig, f: ContactForm, sendEmail: SendEmailInput -> SendResult): (err: Outcome)
    ensures err == Ok <==> sendEmail(BuildSendEmailInput(config, f)).Sent?
    ensures err.Err? ==> err.message in SendErrors
    ensures sendEmail(BuildSendEmailInput(config, f)).Failed? ==>
      err == Err(ClassifySendError(sendEmail(BuildSendEmailInput(config, f)).error))
  {
    match sendEmail(BuildSendEmailInput(config, f))
    case Sent(_) => Ok
    case Failed(e) => Err(ClassifySendError(e))
  }
}
