/** The application's configuration and its validation
    (domain/app_config.go): an early-exit chain that reports the first
    failing check as one of four error constants.
 */
module AppConfigDomain {
  import opened Outcomes
  import opened GoStrings

  const EmailInvalidError := "provided email address was not valid"
  const HttpPortInvalidError := "provided HTTP port was not valid"
  const EmailSubjectInvalidError := "provided email subject was invalid"
  const AwsSesInvalidRegionError := "provided AWS SES region is invalid"

  /** Where and how contact-form emails are sent. */
  datatype EmailConfig = EmailConfig(
    sender: string,
    recipient: string,
    subject: string,
    awsSesRegion: string,
    awsSesAccessKey: string,
    awsSesSecretKey: string)

  /** The whole configuration. The Go struct holds a pointer to the email
      configuration; it is never nil here. */
  datatype AppConfig = AppConfig(
    httpPort: int,
    frontendDir: string,
    emailConfig: EmailConfig,
    recaptchaSecret: string)

  /* ---------------- The email address grammar ---------------- */

  predicate IsAsciiAlnum(c: char) {
    'a' <= c <= 'z' || 'A' <= c <= 'Z' || '0' <= c <= '9'
  }

  /** ``[a-zA-Z0-9.!#$%&'*+/=?^_`{|}~-]``: the characters of the local part. */
  predicate IsLocalChar(c: char) {
    IsAsciiAlnum(c) || c in ".!#$%&'*+/=?^_`{|}~-"
  }

  predicate IsLabelChar(c: char) {
    IsAsciiAlnum(c) || c == '-'
  }

  /** One or more local-part characters; dots may appear anywhere. */
  predicate IsLocalPart(p: string) {
    |p| >= 1 && forall i :: 0 <= i < |p| ==> IsLocalChar(p[i])
  }

  /** `[a-zA-Z0-9](?:[a-zA-Z0-9-]{0,61}[a-zA-Z0-9])?`: 1 to 63 letters,
      digits and hyphens, beginning and ending with a letter or digit. */
  predicate IsLabel(l: string) {
    && 1 <= |l| <= 63
    && IsAsciiAlnum(l[0])
    && IsAsciiAlnum(l[|l| - 1])
    && forall i :: 0 <= i < |l| ==> IsLabelChar(l[i])
  }

  predicate AllLabels(labels: seq<string>) {
    forall j :: 0 <= j < |labels| ==> IsLabel(labels[j])
  }

  /** The domain, checked piece by piece between the dots. */
  predicate IsDomain(d: string) {
    AllLabels(Split(d, '.'))
  }

  /** The address check: the text before the first `@` is a local part and
      the text after it a domain. */
  predicate IsEmailAddress(s: string): (ok: bool)
    ensures ok ==> IndexOf(s, '@').Some? && 0 < IndexOf(s, '@').value < |s| - 1
  {
    assert Split("", '.') == [""];
    match IndexOf(s, '@')
    case None => false
    case Some(at) => IsLocalPart(s[..at]) && IsDomain(s[at + 1..])
  }

  /** The regular expression of domain/app_config.go read as a grammar:
      a label followed by any number of `.label`. */
  ghost predicate DomainMatches(d: string) {
    exists labels: seq<string> :: |labels| >= 1 && AllLabels(labels) && Join(labels, '.') == d
  }

  /** The whole regular expression: local part, `@`, domain. */
  ghost predicate MatchesEmailRegex(s: string) {
    exists at :: 0 <= at < |s| && s[at] == '@' && IsLocalPart(s[..at]) && DomainMatches(s[at + 1..])
  }

  lemma NoDotInLabels(labels: seq<string>)
    requires AllLabels(labels)
    ensures forall j :: 0 <= j < |labels| ==> '.' !in labels[j]
  {
    forall j, i | 0 <= j < |labels| && 0 <= i < |labels[j]| ensures labels[j][i] != '.' {
      assert IsLabelChar(labels[j][i]);
    }
  }

  /** Checking the pieces between the dots accepts exactly the domains of
      the regular expression. */
  lemma DomainCheckMatchesRegex(d: string)
    ensures IsDomain(d) <==> DomainMatches(d)
  {
    if IsDomain(d) {
      var labels := Split(d, '.');
      assert |labels| >= 1 && AllLabels(labels) && Join(labels, '.') == d;
    }
    if DomainMatches(d) {
      var labels :| |labels| >= 1 && AllLabels(labels) && Join(labels, '.') == d;
      NoDotInLabels(labels);
      SplitOfJoin(labels, '.');
    }
  }

  lemma NoAtInLocalPart(p: string)
    requires IsLocalPart(p)
    ensures '@' !in p
  {
    forall i | 0 <= i < |p| ensures p[i] != '@' {
      assert IsLocalChar(p[i]);
    }
  }

  lemma NoAtInDomain(d: string)
    requires IsDomain(d)
    ensures '@' !in d
  {
    var labels := Split(d, '.');
    forall j | 0 <= j < |labels| ensures '@' !in labels[j] {
      forall i | 0 <= i < |labels[j]| ensures labels[j][i] != '@' {
        assert IsLabel(labels[j]) && IsLabelChar(labels[j][i]);
      }
    }
    NotInJoin(labels, '.', '@');
  }

  /** The hand-written check accepts exactly the strings the regular
      expression matches. */
  lemma EmailCheckMatchesRegex(s: string)
    ensures IsEmailAddress(s) <==> MatchesEmailRegex(s)
  {
    if IsEmailAddress(s) {
      EmailCheckImpliesRegex(s);
    }
    if MatchesEmailRegex(s) {
      RegexImpliesEmailCheck(s);
    }
  }

  lemma EmailCheckImpliesRegex(s: string)
    requires IsEmailAddress(s)
    ensures MatchesEmailRegex(s)
  {
    var at := IndexOf(s, '@').value;
    DomainCheckMatchesRegex(s[at + 1..]);
    assert 0 <= at < |s| && s[at] == '@' && IsLocalPart(s[..at]) && DomainMatches(s[at + 1..]);
  }

  lemma RegexImpliesEmailCheck(s: string)
    requires MatchesEmailRegex(s)
    ensures IsEmailAddress(s)
  {
    var at :| 0 <= at < |s| && s[at] == '@' && IsLocalPart(s[..at]) && DomainMatches(s[at + 1..]);
    NoAtInLocalPart(s[..at]);
    IndexOfFirst(s, at, '@');
    DomainCheckMatchesRegex(s[at + 1..]);
  }

  /** A valid address holds exactly one `@`. */
  lemma EmailHasOneAt(s: string)
    requires IsEmailAddress(s)
    ensures Count(s, '@') == 1
  {
    var at := IndexOf(s, '@').value;
    NoAtInLocalPart(s[..at]);
    NoAtInDomain(s[at + 1..]);
    CountAroundOne(s, at, '@');
  }

  /** A character found at `i` and nowhere before or after it is counted once. */
  lemma CountAroundOne(s: string, i: nat, c: char)
    requires i < |s| && s[i] == c && c !in s[..i] && c !in s[i + 1..]
    ensures Count(s, c) == 1
  {
    assert s == s[..i] + [c] + s[i + 1..];
    CountConcat(s[..i], [c], c);
    CountConcat(s[..i] + [c], s[i + 1..], c);
  }

  /** No top-level domain is needed. */
  lemma EmailGrammarAcceptsBareHost()
    ensures IsEmailAddress("a@b")
  {
    SplitWithoutSeparator("b", '.');
  }

  /** Dots in the local part are unrestricted, and a hyphen may sit inside
      a label. */
  lemma EmailGrammarAcceptsDots()
    ensures IsEmailAddress("a..b.@c-d.e")
  {
    var s := "a..b.@c-d.e";
    assert s[..5] == "a..b." && s[5] == '@' && s[6..] == "c-d.e";
    assert IsLocalPart(s[..5]);
    assert Join(["c-d", "e"], '.') == "c-d.e";
    assert AllLabels(["c-d", "e"]);
    assert DomainMatches(s[6..]);
    EmailCheckMatchesRegex(s);
  }

  /** The empty string, an empty local part and a second `@` are rejected. */
  lemma EmailGrammarRejectsShape()
    ensures !IsEmailAddress("")
    ensures !IsEmailAddress("@b")
    ensures !IsEmailAddress("a@b@c")
  {
    assert "a@b@c"[2..] == "b@c";
    SplitWithoutSeparator("b@c", '.');
    assert !IsLabelChar("b@c"[1]);
  }

  /** An empty label is rejected. */
  lemma EmailGrammarRejectsEmptyLabel()
    ensures !IsEmailAddress("a@b.")
  {
    assert "a@b."[2..] == "b.";
    SplitOfJoin(["b", ""], '.');
  }

  /** A label starting with a hyphen is rejected. */
  lemma EmailGrammarRejectsLeadingHyphen()
    ensures !IsEmailAddress("a@-b")
  {
    assert "a@-b"[2..] == "-b";
    SplitWithoutSeparator("-b", '.');
  }

  /** A label of 64 characters is rejected. */
  lemma EmailGrammarRejectsLongLabel()
    ensures !IsEmailAddress("a@" + seq(64, _ => 'x'))
  {
    var long := seq(64, _ => 'x');
    var s := "a@" + long;
    assert s[..1] == "a" && s[1] == '@';
    IndexOfFirst(s, 1, '@');
    assert s[2..] == long;
    SplitWithoutSeparator(long, '.');
  }

  /* ---------------- Validation ---------------- */

  /** `validateEmailFormat`: no error exactly when the address matches the
      regular expression. */
  function ValidateEmailFormat(email: string): (err: Outcome)
    ensures err == Ok <==> MatchesEmailRegex(email)
    ensures err != Ok ==> err == Err(EmailInvalidError)
  {
    EmailCheckMatchesRegex(email);
    if IsEmailAddress(email) then Ok else Err(EmailInvalidError)
  }

  /** `EmailConfig.Validate`: sender, then recipient, then subject, then
      region; the first failure is returned. */
  function ValidateEmailConfig(c: EmailConfig): (err: Outcome)
    ensures err == Ok <==>
      && IsEmailAddress(c.sender) && IsEmailAddress(c.recipient)
      && |c.subject| > 0 && |c.awsSesRegion| > 0
    ensures err.Err? ==> err.message in {EmailInvalidError, EmailSubjectInvalidError, AwsSesInvalidRegionError}
  {
    var senderErr := ValidateEmailFormat(c.sender);
    if senderErr.Err? then senderErr
    else
      var recipientErr := ValidateEmailFormat(c.recipient);
      if recipientErr.Err? then recipientErr
      else if |c.subject| <= 0 then Err(EmailSubjectInvalidError)
      else if |c.awsSesRegion| <= 0 then Err(AwsSesInvalidRegionError)
      else Ok
  }

  /** The order of the checks decides which error is reported. */
  lemma EmailConfigFirstFailure(c: EmailConfig)
    ensures !IsEmailAddress(c.sender) ==> ValidateEmailConfig(c) == Err(EmailInvalidError)
    ensures IsEmailAddress(c.sender) && !IsEmailAddress(c.recipient) ==>
      ValidateEmailConfig(c) == Err(EmailInvalidError)
    ensures IsEmailAddress(c.sender) && IsEmailAddress(c.recipient) && c.subject == "" ==>
      ValidateEmailConfig(c) == Err(EmailSubjectInvalidError)
    ensures IsEmailAddress(c.sender) && IsEmailAddress(c.recipient) && c.subject != "" && c.awsSesRegion == "" ==>
      ValidateEmailConfig(c) == Err(AwsSesInvalidRegionError)
  {
    EmailCheckMatchesRegex(c.sender);
    EmailCheckMatchesRegex(c.recipient);
  }

  /** `AppConfig.Validate`: the port first, then the email configuration. */
  function ValidateAppConfig(c: AppConfig): (err: Outcome)
    ensures err == Ok <==>
      && c.httpPort != 0
      && IsEmailAddress(c.emailConfig.sender) && IsEmailAddress(c.emailConfig.recipient)
      && |c.emailConfig.subject| > 0 && |c.emailConfig.awsSesRegion| > 0
    ensures err == Err(HttpPortInvalidError) <==> c.httpPort == 0
    ensures err.Err? ==>
      err.message in {HttpPortInvalidError, EmailInvalidError, EmailSubjectInvalidError, AwsSesInvalidRegionError}
  {
    if c.httpPort == 0 then Err(HttpPortInvalidError)
    else ValidateEmailConfig(c.emailConfig)
  }

  /** Only the port, the two addresses, the subject and the region are
      examined: the access key, the secret key, the frontend directory and
      the reCAPTCHA secret never change the verdict. */
  lemma ValidateIgnoresOtherFields(c: AppConfig, d: AppConfig)
    requires c.httpPort == d.httpPort
    requires c.emailConfig.sender == d.emailConfig.sender
    requires c.emailConfig.recipient == d.emailConfig.recipient
    requires c.emailConfig.subject == d.emailConfig.subject
    requires c.emailConfig.awsSesRegion == d.emailConfig.awsSesRegion
    ensures ValidateAppConfig(c) == ValidateAppConfig(d)
  {
  }

  /** A zero port is reported whatever the email configuration holds, and
      any other port, a negative one included, passes the port check and
      leaves the verdict to the email configuration. */
  lemma PortCheckedFirst(c: AppConfig)
    ensures c.httpPort == 0 ==> ValidateAppConfig(c) == Err(HttpPortInvalidError)
    ensures c.httpPort != 0 ==> ValidateAppConfig(c) == ValidateEmailConfig(c.emailConfig)
  {
  }
}
