/**
  The contact-form mail relay of backend/server.js: the start-up check of
  the environment, the listening port, the mail composed from a form
  submission and the HTTP reply chosen from the outcome of sending it.

  The environment is a map from variable names to values. The mail
  transport is not modelled: its outcome is an input, `SendOutcome`.
*/
module Relay {
  import opened Wrappers
  import opened Sequences

  type Env = map<string, string>

  const UserKey: string := "EMAIL_USER"
  const PassKey: string := "EMAIL_PASS"
  const RecipientKey: string := "RECIPIENT_EMAIL"
  const PortKey: string := "PORT"

  /** The port used when `PORT` is missing or empty. */
  const DefaultPortNumber: nat := 3001

  /** The exit status of a refused start. */
  const ConfigExitCode: int := 1

  // ---------------------------------------------------------------------------
  // Start-up
  // ---------------------------------------------------------------------------

  /** A variable is usable when present and non-empty (JavaScript truthiness). */
  predicate IsSet(env: Env, key: string)
  {
    key in env && env[key] != ""
  }

  /**
    The port handed to `listen`: the `PORT` string itself when it is set,
    otherwise the number 3001.
  */
  datatype Port = EnvPort(value: string) | DefaultPort(number: nat)

  /** The values the running server closes over. */
  datatype Config = Config(user: string, pass: string, recipient: string, port: Port)

  /** What start-up does: exit with a status, or listen with a configuration. */
  datatype Startup = Exit(code: int) | Listen(config: Config)

  function ResolvePort(env: Env): (p: Port)
    ensures p.EnvPort? <==> IsSet(env, PortKey)
    ensures p.EnvPort? ==> p.value == env[PortKey] && p.value != ""
    ensures p.DefaultPort? ==> p.number == DefaultPortNumber
  {
    if IsSet(env, PortKey) then EnvPort(env[PortKey]) else DefaultPort(DefaultPortNumber)
  }

  /** The three required variables are checked before anything else happens. */
  function Start(env: Env): Startup
  {
    if !IsSet(env, UserKey) || !IsSet(env, PassKey) || !IsSet(env, RecipientKey) then
      Exit(ConfigExitCode)
    else
      Listen(Config(env[UserKey], env[PassKey], env[RecipientKey], ResolvePort(env)))
  }

  // ---------------------------------------------------------------------------
  // Composing the mail
  // ---------------------------------------------------------------------------

  /**
    The fields destructured from the JSON request body. A field the body
    does not carry is `undefined`.
  */
  datatype Submission = Submission(
    fullName: Option<string>,
    email: Option<string>,
    mobile: Option<string>,
    subject: Option<string>,
    message: Option<string>)

  /** The SMTP transport built per request: Gmail, authenticated as the configured user. */
  datatype Transport = Transport(service: string, user: string, pass: string)

  datatype MailOptions = MailOptions(from: string, to: string, subject: string, html: string)

  /** How a template literal renders a field: `undefined` when it is missing. */
  function Text(v: Option<string>): (t: string)
    ensures v.Some? ==> t == v.value
  {
    if v.Some? then v.value else "undefined"
  }

  const SubjectPrefix: string := "New Contact Form Submission: "

  /** Sixteen spaces: the indentation of each line of the HTML body. */
  const Indent: string := "                "
  /** Twelve spaces: the indentation before the closing backtick. */
  const CloseIndent: string := "            "

  const HtmlOpen: string :=
    "\n" + Indent + "<h2>New Message from Portfolio Contact Form</h2>\n"
    + Indent + "<p><strong>Name:</strong> "
  const AfterName: string := "</p>\n" + Indent + "<p><strong>Email:</strong> "
  const AfterEmail: string := "</p>\n" + Indent + "<p><strong>Mobile:</strong> "
  const AfterMobile: string :=
    "</p>\n" + Indent + "<hr>\n" + Indent + "<h3>Message:</h3>\n" + Indent + "<p>"
  const HtmlClose: string := "</p>\n" + CloseIndent

  /** The `from` header: the name in double quotes, then the address in angle brackets. */
  function FromField(name: string, email: string): (f: string)
    ensures |f| == |name| + |email| + 5
    ensures f[0] == '"' && f[|f| - 1] == '>'
  {
    "\"" + (name + ("\" <" + (email + ">")))
  }

  function SubjectLine(subject: string): (s: string)
    ensures |s| == |SubjectPrefix| + |subject|
    ensures SubjectPrefix <= s
  {
    SubjectPrefix + subject
  }

  /** The HTML body: name, email, mobile and message, in that order, unescaped. */
  function HtmlBody(name: string, email: string, mobile: string, message: string): (h: string)
    ensures HtmlOpen <= h
    ensures |h| == |HtmlOpen| + |name| + |AfterName| + |email| + |AfterEmail|
      + |mobile| + |AfterMobile| + |message| + |HtmlClose|
  {
    HtmlOpen + (name + (AfterName + (email + (AfterEmail + (mobile + (AfterMobile + (message + HtmlClose)))))))
  }

  /**
    Where each field sits in the `from` header: the name between the
    opening quote and `" <`, the address between that and the closing `>`,
    whatever characters they contain.
  */
  lemma FromLayout(name: string, email: string)
    ensures var f := FromField(name, email);
      f[1..|name| + 1] == name && f[|name| + 1..|name| + 4] == "\" <" && f[|name| + 4..|f| - 1] == email
  {
    var f := FromField(name, email);
    Embedded("\"", name, "\" <" + (email + ">"));
    Embedded("\"" + name, "\" <", email + ">");
    Embedded("\"" + name + "\" <", email, ">");
    assert f == "\"" + name + "\" <" + (email + ">");
  }

  /**
    Where each field sits in the HTML body: name, email, mobile and
    message appear verbatim, each between its two fixed template pieces,
    whatever characters they contain.
  */
  lemma HtmlLayout(name: string, email: string, mobile: string, message: string)
    ensures var h, i := HtmlBody(name, email, mobile, message), |HtmlOpen|;
      h[i..i + |name|] == name && h[i + |name|..i + |name| + |AfterName|] == AfterName
    ensures var h, i := HtmlBody(name, email, mobile, message), |HtmlOpen| + |name| + |AfterName|;
      h[i..i + |email|] == email && h[i + |email|..i + |email| + |AfterEmail|] == AfterEmail
    ensures var h, i := HtmlBody(name, email, mobile, message),
      |HtmlOpen| + |name| + |AfterName| + |email| + |AfterEmail|;
      h[i..i + |mobile|] == mobile && h[i + |mobile|..i + |mobile| + |AfterMobile|] == AfterMobile
    ensures var h, i := HtmlBody(name, email, mobile, message),
      |HtmlOpen| + |name| + |AfterName| + |email| + |AfterEmail| + |mobile| + |AfterMobile|;
      h[i..i + |message|] == message && h[i + |message|..] == HtmlClose
  {
    var r4 := message + HtmlClose;
    var r3 := mobile + (AfterMobile + r4);
    var r2 := email + (AfterEmail + r3);
    var r1 := name + (AfterName + r2);
    var h := HtmlOpen + r1;
    Embedded(HtmlOpen, name, AfterName + r2);
    Embedded(HtmlOpen + name, AfterName, r2);
    var p2 := HtmlOpen + name + AfterName;
    assert h == p2 + r2;
    Embedded(p2, email, AfterEmail + r3);
    Embedded(p2 + email, AfterEmail, r3);
    var p3 := p2 + email + AfterEmail;
    assert h == p3 + r3;
    Embedded(p3, mobile, AfterMobile + r4);
    Embedded(p3 + mobile, AfterMobile, r4);
    var p4 := p3 + mobile + AfterMobile;
    assert h == p4 + r4;
    Embedded(p4, message, HtmlClose);
    assert h[|p4| + |message|..] == HtmlClose;
  }

  /** `x` sits in `pre + x + post` right after `pre`. */
  lemma Embedded(pre: string, x: string, post: string)
    ensures (pre + (x + post))[|pre|..|pre| + |x|] == x
    ensures pre + (x + post) == pre + x + post
  {
    assert (pre + (x + post))[|pre|..] == x + post;
  }

  /** `mailOptions` for one submission, sent to the configured recipient. */
  function ComposeMail(cfg: Config, body: Submission): MailOptions
  {
    MailOptions(
      FromField(Text(body.fullName), Text(body.email)),
      cfg.recipient,
      SubjectLine(Text(body.subject)),
      HtmlBody(Text(body.fullName), Text(body.email), Text(body.mobile), Text(body.message)))
  }

  function TransportFor(cfg: Config): (t: Transport)
    ensures t.service == "gmail" && t.user == cfg.user && t.pass == cfg.pass
  {
    Transport("gmail", cfg.user, cfg.pass)
  }

  // ---------------------------------------------------------------------------
  // The reply
  // ---------------------------------------------------------------------------

  /** What the mail transport reports back: an error, or the server's response line. */
  datatype SendOutcome = Failed(error: string) | Sent(response: string)

  /** The HTTP status and JSON body sent back to the form. */
  datatype Reply = Reply(status: nat, success: bool, message: string)

  const SuccessMessage: string := "Message sent successfully!"
  const FailureMessage: string := "Failed to send message. Please check server logs."

  /**
    The `sendMail` callback: an error is answered with 500 and the
    callback returns, so the success reply is never sent as well.
  */
  function Respond(outcome: SendOutcome): (r: Reply)
    ensures r.status == 200 <==> outcome.Sent?
    ensures r.status == 500 <==> outcome.Failed?
    ensures r.success <==> r.status == 200
    ensures r.message == (if outcome.Sent? then SuccessMessage else FailureMessage)
  {
    if outcome.Failed? then Reply(500, false, FailureMessage)
    else Reply(200, true, SuccessMessage)
  }

  /** One `POST /send-email`: the transport, the mail handed to it, and the reply. */
  datatype Exchange = Exchange(transport: Transport, mail: MailOptions, reply: Reply)

  function HandleSubmission(cfg: Config, body: Submission, outcome: SendOutcome): Exchange
  {
    Exchange(TransportFor(cfg), ComposeMail(cfg, body), Respond(outcome))
  }

  // ---------------------------------------------------------------------------
  // Reading the composed fields back
  // ---------------------------------------------------------------------------

  /** The submitted subject, recovered from a subject line. */
  function ParseSubject(line: string): Option<string>
  {
    if SubjectPrefix <= line then Some(line[|SubjectPrefix|..]) else None
  }

  /** The name and address, recovered from a `from` header. */
  function ParseFrom(f: string): Option<(string, string)>
  {
    if |f| == 0 || f[0] != '"' then None
    else match IndexOf(f[1..], '"')
      case None => None
      case Some(k) =>
        var rest := f[k + 2..];
        if |rest| >= 3 && rest[..2] == " <" && rest[|rest| - 1] == '>' then
          Some((f[1..k + 1], rest[2..|rest| - 1]))
        else None
  }

  /**
    The text up to the next `<` and what follows `sep`, provided the `<`
    starts `sep`.
  */
  function TakeField(s: string, sep: string): Option<(string, string)>
  {
    match IndexOf(s, '<')
      case None => None
      case Some(k) =>
        if sep <= s[k..] then Some((s[..k], s[k + |sep|..])) else None
  }

  /** Name, email, mobile and message, recovered from an HTML body. */
  function ParseHtml(h: string): Option<(string, string, string, string)>
  {
    if !(HtmlOpen <= h) then None
    else match TakeField(h[|HtmlOpen|..], AfterName)
      case None => None
      case Some((name, r1)) =>
        match TakeField(r1, AfterEmail)
          case None => None
          case Some((email, r2)) =>
            match TakeField(r2, AfterMobile)
              case None => None
              case Some((mobile, r3)) =>
                match TakeField(r3, HtmlClose)
                  case None => None
                  case Some((message, r4)) =>
                    if r4 == [] then Some((name, email, mobile, message)) else None
  }

  // ---------------------------------------------------------------------------
  // Properties
  // ---------------------------------------------------------------------------

  /**
    The server exits with status 1 exactly when one of the three required
    variables is missing or empty.
  */
  lemma StartRefusesIncomplete(env: Env)
    ensures Start(env).Exit? <==>
      !IsSet(env, UserKey) || !IsSet(env, PassKey) || !IsSet(env, RecipientKey)
    ensures Start(env).Exit? ==> Start(env).code == 1
  {
  }

  /** A started server carries exactly the configured credentials, recipient and port. */
  lemma StartCarriesEnv(env: Env)
    requires Start(env).Listen?
    ensures Start(env).config.user == env[UserKey] != ""
    ensures Start(env).config.pass == env[PassKey] != ""
    ensures Start(env).config.recipient == env[RecipientKey] != ""
    ensures Start(env).config.port == ResolvePort(env)
  {
  }

  /** Start-up looks at nothing but the four variables it names. */
  lemma StartDependsOnlyOnKeys(env1: Env, env2: Env)
    requires forall key :: key in {UserKey, PassKey, RecipientKey, PortKey} ==>
      (key in env1 <==> key in env2) && (key in env1 ==> env1[key] == env2[key])
    ensures Start(env1) == Start(env2)
  {
    assert UserKey in {UserKey, PassKey, RecipientKey, PortKey};
    assert PassKey in {UserKey, PassKey, RecipientKey, PortKey};
    assert RecipientKey in {UserKey, PassKey, RecipientKey, PortKey};
    assert PortKey in {UserKey, PassKey, RecipientKey, PortKey};
  }

  /** An empty `PORT` counts as missing. */
  lemma EmptyPortDefaults(env: Env)
    requires PortKey in env && env[PortKey] == ""
    ensures ResolvePort(env) == DefaultPort(3001)
  {
  }

  /** The subject line gives back the submitted subject. */
  lemma SubjectRoundTrip(subject: string)
    ensures ParseSubject(SubjectLine(subject)) == Some(subject)
  {
    assert (SubjectPrefix + subject)[|SubjectPrefix|..] == subject;
  }

  /** Different subjects give different subject lines. */
  lemma SubjectInjective(s1: string, s2: string)
    requires SubjectLine(s1) == SubjectLine(s2)
    ensures s1 == s2
  {
    SubjectRoundTrip(s1);
    SubjectRoundTrip(s2);
  }

  /**
    A name without a double quote and any address are read back from the
    `from` header unchanged.
  */
  lemma FromRoundTrip(name: string, email: string)
    requires '"' !in name
    ensures ParseFrom(FromField(name, email)) == Some((name, email))
  {
    var f := FromField(name, email);
    var tail := "\" <" + email + ">";
    assert f[1..] == name + tail;
    assert (name + tail)[|name|] == '"';
    var k := IndexOf(f[1..], '"');
    forall j | 0 <= j < |name|
      ensures (name + tail)[j] != '"'
    {
      assert (name + tail)[j] == name[j];
    }
    assert k == Some(|name|);
    var rest := f[|name| + 2..];
    assert rest == " <" + email + ">";
    assert rest[2..|rest| - 1] == email;
    assert f[1..|name| + 1] == name;
  }

  /** Every separator of the HTML body starts with the `<` of a closing tag. */
  lemma SeparatorsOpenTags()
    ensures AfterName[0] == AfterEmail[0] == AfterMobile[0] == HtmlClose[0] == '<'
  {
  }

  /**
    Without escaping, a quote in the name makes the header ambiguous: two
    different submissions produce the same `from` header.
  */
  lemma FromUnescapedCollision()
    ensures FromField("a\" <b>", "c") == FromField("a", "b>\" <c")
  {
  }

  /** The field before a `<`-led separator is split off exactly when it has no `<`. */
  lemma TakeFieldConcat(x: string, sep: string, rest: string)
    requires '<' !in x && |sep| > 0 && sep[0] == '<'
    ensures TakeField(x + sep + rest, sep) == Some((x, rest))
  {
    var s := x + sep + rest;
    assert s[|x|] == '<';
    var k := IndexOf(s, '<');
    forall j | 0 <= j < |x|
      ensures s[j] != '<'
    {
      assert s[j] == x[j];
    }
    assert k == Some(|x|);
    assert s[..|x|] == x;
    assert s[|x|..] == sep + rest;
    assert s[|x| + |sep|..] == rest;
  }

  /**
    Fields free of `<` are read back from the HTML body unchanged and in
    order: name, email, mobile, message.
  */
  lemma HtmlRoundTrip(name: string, email: string, mobile: string, message: string)
    requires '<' !in name && '<' !in email && '<' !in mobile && '<' !in message
    ensures ParseHtml(HtmlBody(name, email, mobile, message)) == Some((name, email, mobile, message))
  {
    var h := HtmlBody(name, email, mobile, message);
    var r4: string := [];
    var r3 := message + HtmlClose;
    assert r3 == message + HtmlClose + r4;
    var r2 := mobile + (AfterMobile + r3);
    var r1 := email + (AfterEmail + r2);
    var r0 := name + (AfterName + r1);
    assert h == HtmlOpen + r0;
    assert h[|HtmlOpen|..] == r0;
    SeparatorsOpenTags();
    assert r0 == name + AfterName + r1;
    assert r1 == email + AfterEmail + r2;
    assert r2 == mobile + AfterMobile + r3;
    TakeFieldConcat(name, AfterName, r1);
    TakeFieldConcat(email, AfterEmail, r2);
    TakeFieldConcat(mobile, AfterMobile, r3);
    TakeFieldConcat(message, HtmlClose, r4);
  }

  /** The recipient is the configured one, whatever the form says. */
  lemma RecipientIgnoresBody(cfg: Config, body1: Submission, body2: Submission)
    ensures ComposeMail(cfg, body1).to == ComposeMail(cfg, body2).to == cfg.recipient
  {
  }

  /** Missing fields are rendered as the text `undefined`. */
  lemma MissingFieldsExample(cfg: Config)
    ensures ComposeMail(cfg, Submission(None, None, None, None, None)).from == "\"undefined\" <undefined>"
    ensures ComposeMail(cfg, Submission(None, None, None, None, None)).subject
      == "New Contact Form Submission: undefined"
  {
  }

  /**
    Each submission gets exactly one reply: 200 with the success message
    when the mail went out, 500 with the failure message otherwise; the
    reply never depends on the form's content or the transport's text.
  */
  lemma OneReplyPerOutcome(cfg: Config, body: Submission, outcome: SendOutcome)
    ensures HandleSubmission(cfg, body, outcome).reply ==
      if outcome.Sent? then Reply(200, true, "Message sent successfully!")
      else Reply(500, false, "Failed to send message. Please check server logs.")
  {
  }

  /** The mail is the same whether or not it is then delivered. */
  lemma MailIgnoresOutcome(cfg: Config, body: Submission, o1: SendOutcome, o2: SendOutcome)
    ensures HandleSubmission(cfg, body, o1).mail == HandleSubmission(cfg, body, o2).mail
    ensures HandleSubmission(cfg, body, o1).transport == TransportFor(cfg)
  {
  }
}
