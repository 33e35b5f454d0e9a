# Sea City Software website backend: a Dafny model of its core

The backend serves a marketing site and accepts a contact form. On a POST
to `/contact` it:

- reads the six form fields;
- checks that each one is non-empty;
- verifies the visitor's reCAPTCHA token with Google's verification
  endpoint;
- emails the form through Amazon SES.

The configuration that makes this possible comes from nine environment
variables. It is validated once at start-up, and start-up stops if it is
not valid.

This project models that core as pure functions over values:

- `AppConfigDomain` (domain/app_config.go): the configuration records, the
  email-address grammar and the two early-exit validators.
- `ContactFormDomain` (domain/contact_form.go): the form record and its
  "every field required" rule.
- `ContactFormService` (services/contact_form_service.go): the email body,
  the SES request record, and the mapping of SES error codes onto four
  error messages.
- `RecaptchaService` (services/recaptcha_service.go): the verification URL,
  the blank response record, decoding into it, and the verdict.
- `ConfigService` (services/config_service.go): loading the configuration
  from an environment map, and the comma splitter for broker lists.
- `Server` (server.go): the POST `/contact` decision pipeline, and the error
  handler's choice of status and page.

The Go library behaviour the core calls is modelled too, so that contracts
can speak about real strings rather than uninterpreted calls:

- `GoStrings`: `strings.Split`, the one `strings` call in the core (the
  broker-list splitter). `Join`, `Count` and `IndexOf` beside it are
  reference definitions: they state Split's round trip and piece count,
  and the character-level form of the address check, which the source
  writes as a regular expression.
- `GoStrconv`: `strconv.Atoi` on 64-bit integers, and decimal formatting.
- `GoFmt`: `fmt.Sprintf` for the `%s` and `%d` verbs.
- `GoUrl`: `url.QueryEscape` over UTF-8, and the reading side used to state
  what the escaping preserves.

`Outcomes` holds the shared result types. A Go `error` is `Ok` (nil) or
`Err(message)`. Callers inspect an error only by its message, comparing
`err.Error()` with the package's string constants, so an error is fully
described by its message.

The collaborators that do I/O are function-valued parameters:

- the SES `SendEmail` call;
- building the HTTP request, the HTTP round trip and the JSON decoder;
- the verifier and the processor the handler calls.

Because they are parameters, "X is called only when ..." and "X is called
with ..." can be stated. The handler's result records the calls it made.

## Model

| member | source | states |
|---|---|---|
| AppConfigDomain.IsEmailAddress | domain/app_config.go:92 | the address check at the character level: the text before the first `@` is a non-empty run of local-part characters and the text after it splits at the dots into labels; an accepted address has a non-empty local part and a non-empty domain |
| AppConfigDomain.ValidateEmailFormat | domain/app_config.go:90-99 | no error exactly when the address matches the regular expression; otherwise the error is `EmailInvalidError` |
| AppConfigDomain.EmailCheckMatchesRegex | domain/app_config.go:92-94 | the character-level check (first `@`, local part, dot-separated labels) accepts exactly the strings the regular expression matches |
| AppConfigDomain.DomainCheckMatchesRegex | domain/app_config.go:92 | checking each dot-separated piece as a label accepts exactly the domains that are one label followed by any number of `.label` |
| AppConfigDomain.EmailHasOneAt | domain/app_config.go:92 | an accepted address holds exactly one `@` |
| AppConfigDomain.EmailGrammarAcceptsBareHost | domain/app_config.go:92 | `a@b` is accepted: no top-level domain is required |
| AppConfigDomain.EmailGrammarAcceptsDots | domain/app_config.go:92 | dots are unrestricted in the local part, and hyphens are allowed inside a label |
| AppConfigDomain.EmailGrammarRejectsShape | domain/app_config.go:92 | the empty string, an empty local part and a second `@` are rejected |
| AppConfigDomain.EmailGrammarRejectsEmptyLabel | domain/app_config.go:92 | an address whose domain ends in an empty label (`a@b.`) is rejected |
| AppConfigDomain.EmailGrammarRejectsLeadingHyphen | domain/app_config.go:92 | a label starting with a hyphen (`a@-b`) is rejected |
| AppConfigDomain.EmailGrammarRejectsLongLabel | domain/app_config.go:92 | a label of 64 characters is rejected; labels hold at most 63 |
| AppConfigDomain.ValidateEmailConfig | domain/app_config.go:62-88 | no error exactly when both addresses are valid and the subject and the region are non-empty; every error is one of three constants |
| AppConfigDomain.EmailConfigFirstFailure | domain/app_config.go:62-88 | the sender is checked before the recipient, then the subject, then the region; the first failure decides the error |
| AppConfigDomain.ValidateAppConfig | domain/app_config.go:28-40 | no error exactly when the port is non-zero and the email configuration is valid; `HttpPortInvalidError` exactly when the port is zero; every error is one of the four constants |
| AppConfigDomain.PortCheckedFirst | domain/app_config.go:28-37 | a zero port is reported whatever the email configuration holds; any other port, a negative one included, leaves the verdict to the email configuration |
| AppConfigDomain.ValidateIgnoresOtherFields | domain/app_config.go:28-88 | the access key, the secret key, the frontend directory and the reCAPTCHA secret never change the verdict |
| ContactFormDomain.MissingFields | domain/contact_form.go:3-10 | a field is reported by the validator exactly when its value is empty |
| ContactFormDomain.IsValid | server.go:251-253 | `validate.Struct` passes exactly when no field is reported, that is when every one of the six fields is non-empty |
| ContactFormDomain.ValidIffAllFieldsPresent | domain/contact_form.go:3-10 | a form is valid exactly when all six fields are non-empty; only emptiness is checked, not the format of the email field |
| ContactFormService.ExpandTemplate | services/contact_form_service.go:19-25 | the body template applied to five strings puts each one verbatim after its label, line by line |
| ContactFormService.EmailBody | services/contact_form_service.go:132-140 | the body is the five labelled lines with the name, email, company, number and message inserted verbatim; the reCAPTCHA response is left out |
| ContactFormService.EmailBodyIsNotInjective | services/contact_form_service.go:132-140 | since nothing is escaped, two different forms can give the same body |
| ContactFormService.BuildSendEmailInput | services/contact_form_service.go:44-76 | the only "To" address is the configured recipient, there is no "Cc" address, the source is the sender, the subject is the configured subject, and the HTML and text parts both hold the body, all in UTF-8 |
| ContactFormService.RequestIgnoresCredentials | services/contact_form_service.go:44-76 | the request depends on the configuration only through the sender, the recipient and the subject |
| ContactFormService.ClassifySendError | services/contact_form_service.go:82-110 | every send error maps to one of the four error constants |
| ContactFormService.SendErrorMapping | services/contact_form_service.go:83-110 | the three recognised SES codes map to their own constants; any other code, or an error without a code, maps to `AwsSesUnknownError`; the provider's message never matters |
| ContactFormService.Process | services/contact_form_service.go:42-122 | no error exactly when SES accepted the request built from the form, whether or not it returned a message id; a failed send returns the error that `ClassifySendError` picks for the provider's error, always one of the four constants |
| RecaptchaService.NewBlankRecaptchaResponse | services/recaptcha_service.go:80-87 | the blank record is unsuccessful, has the zero time, no host name and an empty list of error codes |
| RecaptchaService.DecodeInto | services/recaptcha_service.go:49-51 | decoding into a record overwrites exactly the fields whose keys the answer holds and keeps the others |
| RecaptchaService.DecodeIntoIdempotent | services/recaptcha_service.go:49-51 | decoding the same answer a second time changes nothing |
| RecaptchaService.DecodeEmptyDocumentIsBlank | services/recaptcha_service.go:49-51 | decoding an empty object leaves the blank record as it was |
| RecaptchaService.DecodedErrorCodes | services/recaptcha_service_test.go:29-59 | an answer without `error-codes` keeps an empty list, and a list that is present is kept in its order |
| RecaptchaService.DecodedTestAnswers | services/recaptcha_service_test.go:10-60 | the two answers used in the repository's tests decode to the expected records (success flag, timestamp `2018-08-08T13:32:16Z`, host name `localhost`, and no error codes or the two codes in order) and give the verdicts "verified" and `NotVerifiedError` |
| RecaptchaService.RequestUrl | services/recaptcha_service.go:31-34 | the URL is the endpoint, `?secret=`, the escaped secret, `&response=` and the escaped token |
| RecaptchaService.RequestQueryHasNoQuestionMark | services/recaptcha_service.go:31-34 | the URL is the endpoint, one `?` and a query that holds no other `?` |
| RecaptchaService.RequestQueryCarriesParameters | services/recaptcha_service.go:31-34 | whatever the secret and the token hold, the query reads back as exactly the parameters `secret` and `response`, in that order, with their original values |
| RecaptchaService.Verify | services/recaptcha_service.go:30-63 | a request-building error is returned unchanged; a transport error or invalid JSON is `CannotCommunicateRecaptchaError`; a decoded answer verifies exactly when its `success` is true, and otherwise gives `NotVerifiedError` |
| RecaptchaService.VerifyNamedErrors | services/recaptcha_service.go:36-62 | when building the request fails with an error of its own, that error is returned unchanged and is neither named error; `NotVerifiedError` exactly when a decoded answer did not say `success: true`; `CannotCommunicateRecaptchaError` exactly when the round trip or the decoding failed |
| RecaptchaService.VerifyOutcomes | services/recaptcha_service.go:36-62 | once the request is built, every error is one of the two named errors; the user is verified exactly when the request was built, delivered and decoded, and said `success: true` |
| RecaptchaService.VerdictIgnoresDetails | services/recaptcha_service.go:58-62 | answers that agree on `success` give the same verdict, whatever their host name, timestamp and error codes |
| ConfigService.IntNotFoundMessage | services/config_service.go:77 | the panic message for a missing integer variable quotes its name |
| ConfigService.NotFoundMessage | services/config_service.go:94 | the panic message for a missing string variable quotes its name |
| ConfigService.NotANumberMessage | services/config_service.go:82 | the fatal message for a port that does not parse quotes the variable's name |
| ConfigService.LoadEnvVarAsInt | services/config_service.go:74-88 | a missing variable panics; a value that `strconv.Atoi` rejects is fatal; otherwise the result is the parsed 64-bit number |
| ConfigService.LoadFormattedInt | services/config_service.go:80-87 | a variable holding the decimal text of a 64-bit number loads as that number |
| ConfigService.LoadEnvVarAsString | services/config_service.go:91-100 | the value is returned whatever it is, and only an absent variable panics |
| ConfigService.EmptyValueIsFound | services/config_service.go:91-99 | a variable set to the empty string is found |
| ConfigService.LoadConfig | services/config_service.go:50-71 | loading succeeds exactly when all nine variables are set, the port parses and the configuration they describe is valid; each field then equals its variable's value; a configuration that fails validation panics with the validation error |
| ConfigService.LoadConfigReportsFirstMissing | services/config_service.go:51-63 | the first missing variable in reading order is the one reported, with the integer or the string message as its loader writes it |
| ConfigService.PortNotANumberIsFatal | services/config_service.go:80-84 | a `HTTP_PORT` that does not parse stops start-up with the fatal message before any other variable is read |
| ConfigService.LoadConfigValidationFailure | services/config_service.go:65-68 | with every variable set and the port parsed, a failed validation panics with its own message |
| ConfigService.LoadConfigReadsOnlyItsVariables | services/config_service.go:50-63 | environments that agree on the nine variables load the same way |
| ConfigService.SplitBrokerList | services/config_service.go:103-105 | there is always at least one piece, no piece holds a comma, there is one more piece than there are commas, and rejoining with commas gives the input back |
| ConfigService.SplitBrokerListOfJoin | services/config_service.go:103-105 | splitting a list joined from comma-free names gives the names back |
| Server.FormValue | server.go:243-248 | a key's first value, or the empty string when the key is absent or has no value |
| Server.ContactFormFromRequest | server.go:242-249 | the fields are read from the keys `name`, `email`, `company`, `number`, `message` and `g-recaptcha-response`, in field order |
| Server.MissingKeyMakesFormInvalid | server.go:242-256 | a request that lacks any of the six keys, or gives it an empty first value, is an invalid form |
| Server.HandleContactSubmission | server.go:240-282 | the status is one of 200, 400, 403 and 500. An invalid form gives 400 and calls nothing. A valid form calls the verifier first, with the form's token. The processor is called, with the form, exactly when the verifier returned no error. The status is 200 exactly when both succeed, and 403 exactly when the verifier says the user is not verified |
| Server.VerifierErrorStatus | server.go:258-272 | an unreachable verifier gives 500, an unverified user 403 and any other verifier error 500; in all three cases the form is not processed |
| Server.ProcessOnlyAfterVerification | server.go:274-280 | the processor runs only right after a successful verification and with the form that was read; its failure gives 500 |
| Server.VerifyCalledOnce | server.go:258-259 | the verifier is called exactly once for a valid form and never otherwise |
| Server.ErrorPageFor | server.go:141-151 | the status is the `HTTPError` code, or 500 for any other error; the page is `<status>.html` and its data is the status |
| Server.ErrorTemplateNamesStatus | server.go:151 | dropping `.html` from the page name leaves text that `strconv.Atoi` reads as the status, so different statuses render different pages |
| GoStrings.Split | services/config_service.go:104 | `strings.Split` with a one-character separator: one more piece than separators, no piece holds the separator, and joining gives the input back |
| GoStrings.SplitOfJoin | services/config_service.go:104 | splitting undoes joining when no piece holds the separator |
| GoStrconv.Atoi | services/config_service.go:80 | `strconv.Atoi` accepts only an optional sign followed by one or more digits (leading zeros and `+` allowed), reads their decimal value, negated after `-`, and accepts only values in the 64-bit range; text whose unsigned part is empty or holds a non-digit is rejected |
| GoStrconv.FormatInt | server.go:151 | `%d` of an integer: a `-` exactly for a negative number, then the decimal digits of its magnitude, without leading zeros |
| GoStrconv.AtoiOfFormatInt | services/config_service.go:80 | `strconv.Atoi` reads back the decimal text of every 64-bit integer |
| GoStrconv.FormatIntOfAtoi | services/config_service.go:80 | text that `strconv.Atoi` accepts, written without `+` or leading zeros, is the decimal text of the value read |
| GoFmt.Sprintf | services/contact_form_service.go:133 | no contract of its own; its body is `fmt.Sprintf` with `%s` and `%d`: text other than a verb is copied (stated by `SprintfLiteral`), a verb writes its operand, a string verbatim or an integer in decimal, or `%!<verb>(<type>=<value>)` for an operand of the other type (`SprintfVerb`), a missing operand gives `MISSING` (`SprintfMissingOperand`) and leftover operands `EXTRA` (`SprintfExtraOperands`) |
| GoFmt.SprintfMissingOperand | services/contact_form_service.go:133 | a verb with no operand left writes `%!<verb>(MISSING)` |
| GoFmt.SprintfExtraOperands | services/contact_form_service.go:133 | operands left over after the last verb are listed at the end in `%!(EXTRA ...)` |
| GoFmt.SprintfStrSegment | services/contact_form_service.go:133-139 | in `fmt.Sprintf`, a literal run followed by `%s` writes the run, then the next operand verbatim |
| GoFmt.SprintfStrings | services/contact_form_service.go:133-139 | a format whose only verbs are `%s`, between runs without `%`, given one string per verb, writes the runs with the strings between them in order and nothing else: no `%!` annotation |
| GoFmt.SprintfOneString | services/config_service.go:77 | a format with one `%s` and no other `%` puts the operand between the two literal runs |
| GoUrl.QueryEscape | services/recaptcha_service.go:31-32 | `url.QueryEscape` writes only unreserved characters, `+` and `%` |
| GoUrl.DecodeUtf8OfUtf8 | services/recaptcha_service.go:31-32 | decoding the UTF-8 encoding of a string gives the string back |
| GoUrl.QueryUnescapeOfEscape | services/recaptcha_service.go:31-32 | unescaping an escaped string gives the string back |
| GoUrl.ParseEscapedParameter | services/recaptcha_service.go:34 | a `key=` followed by an escaped value holds no `&` and reads back as the key and the value |
| GoUrl.ParseTwoEscapedParameters | services/recaptcha_service.go:34 | two such parameters joined by `&` read back as the two pairs, in order |

## Left out

- Logging: every call to the logger, and the logger itself (services/logger_service.go), only affects what is written to the log.
- The application wiring in server.go is framework plumbing, so it is not modelled. This covers:
  - `main` and `RunApp`'s route registration;
  - the GET page renderers and the static-file route;
  - the security middleware and template parsing;
  - `newSesClient`, `newHttpClient` (with its 15-second timeout), `getAbsolutePathOrPanic` and `e.Start`.
- The contents of the replies: the POST handler answers `""` as JSON with its status, and the model keeps only the status. The error handler's render error is only logged, so it is not modelled.
- Server.FormValue: echo's `FormValue` merges the query string with the form body. The model takes the merged key-to-values map as its input and does not model the merging or the body parsing.
- RecaptchaService.DecodeInto: the JSON decoder is the `decode` parameter, and its result lists the keys it found. The model does not capture:
  - `encoding/json`'s case-insensitive key matching;
  - `null` values, such as a `null` list of error codes leaving a nil slice;
  - type errors on individual fields;
  - unknown keys.
- RecaptchaService.Timestamp: `time.Time` and RFC 3339 parsing are opaque. A decoded timestamp is kept as its text.
- ConfigService.LoadEnvVarAsInt: `log.Fatalf` prints and exits the process, so the `panic` after it never runs. The model returns `Fatal(message)`, distinct from `Panic(message)`, and does not model the exit or the newline the logger adds.
- ConfigService.LoadConfig: the panic on a failed validation is `Failure(Panic(message))`, not a process abort.
- GoFmt.Sprintf: only the `%s` and `%d` verbs are modelled. The core uses no other verbs, flags or widths, and no format holds a literal `%`.
- GoUrl.QueryEscape: Go strings are byte strings, and one that is not valid UTF-8 has no counterpart in a Dafny `string`. The model escapes the UTF-8 encoding of Unicode text.
- The values of the SES error codes (`MessageRejected`, `MailFromDomainNotVerifiedException` and `ConfigurationSetDoesNotExist`) are constants of the AWS SDK. The SDK is not part of this model, and the constants are written out as the SDK defines them.
- `AppConfig.Validate` dereferences its email configuration pointer. A nil pointer would crash. The model's configuration always holds an email configuration.
- The port: the code rejects only a zero port, so a negative port passes; the model does the same (`PortCheckedFirst`).
- The network tests in server_test.go depend on goroutines and timing, so no properties are taken from them. One of them expects status 201, which the handler never returns.
