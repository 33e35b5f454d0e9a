/** Checking a reCAPTCHA token with Google's verification endpoint
    (services/recaptcha_service.go): the request URL, the blank response
    record that the JSON answer is decoded into, and the verdict. Building
    the HTTP request, the round trip and the JSON decoding are the
    parameters `newRequest`, `send` and `decode`.
 */
module RecaptchaService {
  import opened Outcomes
  import opened GoFmt
  import opened GoUrl

  const RecaptchaServiceUrl := "https://www.google.com/recaptcha/api/siteverify"
  const CannotCommunicateRecaptchaError := "unable to communicate with the recaptcha service"
  const NotVerifiedError := "user not verified by recaptcha"

  /** The names of the two query parameters. */
  const SecretKey := "secret"
  const ResponseKey := "response"

  /** The runs of literal text in the request URL's template. */
  const RequestUrlRuns: seq<string> := ["", "?secret=", "&response=", ""]

  /** The `Sprintf` template of the request URL: the endpoint, then the
      `secret` and `response` parameters, each a `%s`. */
  const RequestUrlFormat := FormatOf(RequestUrlRuns)

  /* ---------------- The response record ---------------- */

  /** A `time.Time`, kept opaque: the zero time, or an instant read from
      its RFC 3339 text. */
  datatype Timestamp = ZeroTime | Instant(rfc3339: string)

  /** `RecaptchaResponse`: the record the JSON answer is decoded into. */
  datatype RecaptchaResponse = RecaptchaResponse(
    success: bool,
    challengeTimestamp: Timestamp,
    hostName: string,
    errorCodes: seq<string>)

  /** The keys of the JSON object that the decoder found, each with its
      value (`success`, `challenge_ts`, `hostname`, `error-codes`). */
  datatype JsonDocument = JsonDocument(
    success: Option<bool>,
    challengeTs: Option<Timestamp>,
    hostname: Option<string>,
    errorCodes: Option<seq<string>>)

  /** What decoding the answer's body gives. */
  datatype DecodeResult = Decoded(doc: JsonDocument) | InvalidJson(message: string)

  /** What the HTTP round trip gives: the answer's body, or a transport error. */
  datatype HttpResult = Delivered(body: string) | TransportError(message: string)

  /** `NewBlankRecaptchaResponse`: not successful, the zero time, no host
      name, and an empty (non-nil) list of error codes. */
  function NewBlankRecaptchaResponse(): (r: RecaptchaResponse)
    ensures !r.success && r.hostName == "" && r.errorCodes == []
    ensures r.challengeTimestamp == ZeroTime
  {
    RecaptchaResponse(false, ZeroTime, "", [])
  }

  /** The value a key gives, or the value already in the record when the
      key is absent. */
  function Overlay<T>(o: Option<T>, current: T): T {
    match o
    case Some(v) => v
    case None => current
  }

  /** `decoder.Decode(r)`: every key present in the document overwrites its
      field, every absent key leaves its field as it was. */
  function DecodeInto(doc: JsonDocument, r: RecaptchaResponse): (d: RecaptchaResponse)
    ensures doc.success.None? ==> d.success == r.success
    ensures doc.challengeTs.None? ==> d.challengeTimestamp == r.challengeTimestamp
    ensures doc.hostname.None? ==> d.hostName == r.hostName
    ensures doc.errorCodes.None? ==> d.errorCodes == r.errorCodes
    ensures doc.success.Some? ==> d.success == doc.success.value
    ensures doc.challengeTs.Some? ==> d.challengeTimestamp == doc.challengeTs.value
    ensures doc.hostname.Some? ==> d.hostName == doc.hostname.value
    ensures doc.errorCodes.Some? ==> d.errorCodes == doc.errorCodes.value
  {
    RecaptchaResponse(
      Overlay(doc.success, r.success),
      Overlay(doc.challengeTs, r.challengeTimestamp),
      Overlay(doc.hostname, r.hostName),
      Overlay(doc.errorCodes, r.errorCodes))
  }

  /** Decoding the same document twice changes nothing the second time. */
  lemma DecodeIntoIdempotent(doc: JsonDocument, r: RecaptchaResponse)
    ensures DecodeInto(doc, DecodeInto(doc, r)) == DecodeInto(doc, r)
  {
  }

  /** Decoding an empty object leaves the blank record blank. */
  lemma DecodeEmptyDocumentIsBlank()
    ensures DecodeInto(JsonDocument(None, None, None, None), NewBlankRecaptchaResponse())
         == NewBlankRecaptchaResponse()
  {
  }

  /** An answer without `error-codes` keeps an empty list of codes, and a
      list that is present is kept as it is, in its order. */
  lemma DecodedErrorCodes(doc: JsonDocument)
    ensures doc.errorCodes.None? ==> DecodeInto(doc, NewBlankRecaptchaResponse()).errorCodes == []
    ensures doc.errorCodes == Some(["missing-input-secret", "missing-input-response"]) ==>
      var codes := DecodeInto(doc, NewBlankRecaptchaResponse()).errorCodes;
      |codes| == 2 && codes[0] == "missing-input-secret" && codes[1] == "missing-input-response"
  {
  }

  /* ---------------- The request URL ---------------- */

  /** The URL `Verify` posts to: the endpoint, then the escaped secret and
      the escaped token as the `secret` and `response` parameters. */
  function RequestUrl(secret: string, response: string): (u: string)
    ensures u == RecaptchaServiceUrl + "?secret=" + QueryEscape(secret)
                 + "&response=" + QueryEscape(response)
  {
    var es := QueryEscape(secret);
    var er := QueryEscape(response);
    FillRequestUrl(RecaptchaServiceUrl, es, er);
    Sprintf(RequestUrlFormat, StrArgs([RecaptchaServiceUrl, es, er]))
  }

  /** Filling the URL template with an endpoint and two escaped values. */
  lemma FillRequestUrl(endpoint: string, es: string, er: string)
    ensures Sprintf(RequestUrlFormat, StrArgs([endpoint, es, er]))
         == endpoint + "?secret=" + es + "&response=" + er
  {
    assert forall i :: 0 <= i < |RequestUrlRuns| ==> '%' !in RequestUrlRuns[i];
    SprintfStrings(RequestUrlRuns, [endpoint, es, er]);
    InterleaveThree("", "?secret=", "&response=", "", endpoint, es, er);
    assert "" + endpoint + "?secret=" + es + "&response=" + er + ""
        == endpoint + "?secret=" + es + "&response=" + er;
  }

  /** The query part of the request URL. */
  function RequestQuery(secret: string, response: string): string {
    SecretKey + "=" + QueryEscape(secret) + "&" + (ResponseKey + "=" + QueryEscape(response))
  }

  /** The query holds no `?`, so the URL's query starts right after the
      endpoint. */
  lemma RequestQueryHasNoQuestionMark(secret: string, response: string)
    ensures RequestUrl(secret, response) == RecaptchaServiceUrl + "?" + RequestQuery(secret, response)
    ensures '?' !in RequestQuery(secret, response)
  {
    var es := QueryEscape(secret);
    var er := QueryEscape(response);
    NoQuestionMarkInEscaped(es);
    NoQuestionMarkInEscaped(er);
    QueryAfterEndpoint(RecaptchaServiceUrl, es, er);
  }

  /** Whatever the endpoint, the URL is the endpoint, a `?` and the query,
      and the query holds no `?` when the two values hold none. */
  lemma QueryAfterEndpoint(endpoint: string, es: string, er: string)
    requires '?' !in es && '?' !in er
    ensures var query := SecretKey + "=" + es + "&" + (ResponseKey + "=" + er);
      && endpoint + "?secret=" + es + "&response=" + er == endpoint + "?" + query
      && '?' !in query
  {
    var p1, p2 := SecretKey + "=", "&" + (ResponseKey + "=");
    assert '?' !in p1 && '?' !in p2;
    assert "?secret=" == "?" + p1 && "&response=" == p2;
    var query := p1 + es + p2 + er;
    assert SecretKey + "=" + es + "&" + (ResponseKey + "=" + er) == query;
    assert endpoint + ("?" + p1) + es + p2 + er == endpoint + "?" + query;
    assert '?' !in query by {
      assert '?' !in p1 + es;
      assert '?' !in p1 + es + p2;
    }
  }

  /** An escaped component holds no `?`. */
  lemma NoQuestionMarkInEscaped(e: string)
    requires forall i :: 0 <= i < |e| ==> IsEscapedChar(e[i])
    ensures '?' !in e
  {
    forall i | 0 <= i < |e| ensures e[i] != '?' {
      EscapedCharIsNotDelimiter(e[i]);
    }
  }

  /** Whatever the secret and the token hold, the query reads back as
      exactly the two parameters `secret` and `response`, in that order,
      with their original values. */
  lemma RequestQueryCarriesParameters(secret: string, response: string)
    ensures ParseQuery(RequestQuery(secret, response)) == Some([(SecretKey, secret), (ResponseKey, response)])
  {
    ParseTwoEscapedParameters(SecretKey, secret, ResponseKey, response);
  }

  /* ---------------- The verdict ---------------- */

  /** `Verify`: an error building the request is returned as it is; a
      transport error or an answer that is not valid JSON is
      `CannotCommunicateRecaptchaError`; a decoded answer whose `success`
      is not true (including one without `success`) is `NotVerifiedError`;
      otherwise the user is verified. */
  function Verify(secret: string, response: string,
                  newRequest: string -> Outcome,
                  send: string -> HttpResult,
                  decode: string -> DecodeResult): (err: Outcome)
    ensures var url := RequestUrl(secret, response);
      && (newRequest(url).Err? ==> err == newRequest(url))
      && (newRequest(url) == Ok && send(url).TransportError? ==> err == Err(CannotCommunicateRecaptchaError))
      && (newRequest(url) == Ok && send(url).Delivered? && decode(send(url).body).InvalidJson?
          ==> err == Err(CannotCommunicateRecaptchaError))
      && (newRequest(url) == Ok && send(url).Delivered? && decode(send(url).body).Decoded?
          ==> (err == Ok <==> decode(send(url).body).doc.success == Some(true))
              && (err != Ok ==> err == Err(NotVerifiedError)))
  {
    var url := RequestUrl(secret, response);
    var request := newRequest(url);
    if request.Err? then request
    else
      match send(url)
      case TransportError(_) => Err(CannotCommunicateRecaptchaError)
      case Delivered(body) =>
        match decode(body)
        case InvalidJson(_) => Err(CannotCommunicateRecaptchaError)
        case Decoded(doc) =>
          var answer := DecodeInto(doc, NewBlankRecaptchaResponse());
          if !answer.success then Err(NotVerifiedError) else Ok
  }

  /** Only `success` decides: two answers that agree on it give the same
      verdict, whatever their host names, timestamps and error codes. */
  lemma VerdictIgnoresDetails(secret: string, response: string, newRequest: string -> Outcome,
                              send: string -> HttpResult, decode1: string -> DecodeResult,
                              decode2: string -> DecodeResult)
    requires var url := RequestUrl(secret, response);
      && send(url).Delivered? && decode1(send(url).body).Decoded? && decode2(send(url).body).Decoded?
      && decode1(send(url).body).doc.success == decode2(send(url).body).doc.success
    ensures Verify(secret, response, newRequest, send, decode1)
         == Verify(secret, response, newRequest, send, decode2)
  {
  }

  /** A failed verification is one of the two named errors unless building
      the request failed, and the user is verified only when the request
      was built, delivered, decoded and said `success: true`. */
  lemma VerifyOutcomes(secret: string, response: string, newRequest: string -> Outcome,
                       send: string -> HttpResult, decode: string -> DecodeResult)
    ensures var err := Verify(secret, response, newRequest, send, decode);
            var url := RequestUrl(secret, response);
            && (err.Err? && newRequest(url) == Ok ==>
                  err.message in {CannotCommunicateRecaptchaError, NotVerifiedError})
            && (err == Ok <==> newRequest(url) == Ok && send(url).Delivered?
                               && decode(send(url).body).Decoded?
                               && decode(send(url).body).doc.success == Some(true))
  {
  }

  /** When building the request fails with an error of its own (neither
      named message), the two named errors each mean one thing:
      `NotVerifiedError` that a decoded answer did not say `success: true`,
      `CannotCommunicateRecaptchaError` that the round trip or the decoding
      failed; a request-building error is never mistaken for either. */
  lemma VerifyNamedErrors(secret: string, response: string, newRequest: string -> Outcome,
                          send: string -> HttpResult, decode: string -> DecodeResult)
    requires var built := newRequest(RequestUrl(secret, response));
      built.Err? ==> built.message != NotVerifiedError && built.message != CannotCommunicateRecaptchaError
    ensures var err := Verify(secret, response, newRequest, send, decode);
            var url := RequestUrl(secret, response);
            && (err == Err(NotVerifiedError) <==>
                  newRequest(url) == Ok && send(url).Delivered? && decode(send(url).body).Decoded?
                  && decode(send(url).body).doc.success != Some(true))
            && (err == Err(CannotCommunicateRecaptchaError) <==>
                  newRequest(url) == Ok
                  && (send(url).TransportError? || decode(send(url).body).InvalidJson?))
            && (newRequest(url).Err? ==> err == newRequest(url))
  {
  }

  /** The two answers of the repository's decoding tests: the first is a
      success with no error codes, the second a failure that keeps both
      codes in order; their verdicts follow. */
  lemma DecodedTestAnswers(secret: string, response: string, newRequest: string -> Outcome,
                           send: string -> HttpResult, decode: string -> DecodeResult)
    requires newRequest(RequestUrl(secret, response)) == Ok
    requires send(RequestUrl(secret, response)).Delivered?
    ensures var doc := JsonDocument(Some(true), Some(Instant("2018-08-08T13:32:16Z")), Some("localhost"), None);
            var r := DecodeInto(doc, NewBlankRecaptchaResponse());
            && r.success && r.challengeTimestamp == Instant("2018-08-08T13:32:16Z")
            && r.hostName == "localhost" && r.errorCodes == []
            && (decode(send(RequestUrl(secret, response)).body) == Decoded(doc)
                ==> Verify(secret, response, newRequest, send, decode) == Ok)
    ensures var doc := JsonDocument(Some(false), Some(Instant("2018-08-08T13:32:16Z")), Some("localhost"),
                                    Some(["missing-input-secret", "missing-input-response"]));
            var r := DecodeInto(doc, NewBlankRecaptchaResponse());
            && !r.success && r.challengeTimestamp == Instant("2018-08-08T13:32:16Z")
            && r.hostName == "localhost" && r.errorCodes == ["missing-input-secret", "missing-input-response"]
            && (decode(send(RequestUrl(secret, response)).body) == Decoded(doc)
                ==> Verify(secret, response, newRequest, send, decode) == Err(NotVerifiedError))
  {
  }
}
