/** The quote-request endpoint: environment check, recipient list, the
    message handed to the mail service, and the response. */
module QuoteApi {
  import opened Wrappers
  import opened Text
  import opened Records

  /** The three environment variables the endpoint needs. */
  datatype QuoteEnv = QuoteEnv(
    sendgridApiKey: Option<string>,
    salesTeamEmail: Option<string>,
    fromEmail: Option<string>)

  predicate EnvComplete(env: QuoteEnv) {
    Truthy(env.sendgridApiKey) && Truthy(env.salesTeamEmail) && Truthy(env.fromEmail)
  }

  const MissingEnvError := "Missing required environment variables"
  const FailureError := "Failed to send quote request"
  const UnknownError := "Unknown error"
  const AcceptedStatus := 202

  // ---------------------------------------------------------------------------
  // Recipients

  function TrimAll(ss: seq<string>): (r: seq<string>)
    ensures |r| == |ss| && forall i | 0 <= i < |ss| :: r[i] == Trim(ss[i])
  {
    seq(|ss|, i requires 0 <= i < |ss| => Trim(ss[i]))
  }

  /** The primary recipient and, when there are more addresses, the copies. */
  datatype Recipients = Recipients(to: string, cc: Option<seq<string>>)

  /** `SALES_TEAM_EMAIL` split on commas and trimmed: the first address is the
      primary recipient, the rest (empty ones included) are copied, and the
      copy list is left out when it would be empty. */
  function SplitRecipients(sales: string): (r: Recipients)
    ensures r.cc.Some? ==> |r.cc.value| >= 1
  {
    var addresses := TrimAll(Split(sales, ','));
    Recipients(addresses[0], if |addresses| > 1 then Some(addresses[1..]) else None)
  }

  /** The recipients are read off the trimmed comma-separated pieces. */
  lemma RecipientsOfPieces(sales: string)
    ensures var pieces := Split(sales, ',');
      && SplitRecipients(sales).to == Trim(pieces[0])
      && (|pieces| == 1 ==> SplitRecipients(sales).cc == None)
      && (|pieces| > 1 ==> SplitRecipients(sales).cc == Some(TrimAll(pieces[1..])))
  {
    var pieces := Split(sales, ',');
    var all := TrimAll(pieces);
    if |pieces| > 1 {
      var tail := TrimAll(pieces[1..]);
      assert all[1..] == tail by {
        forall i | 0 <= i < |tail| ensures all[1..][i] == tail[i] {
          assert pieces[1..][i] == pieces[i + 1];
        }
      }
    }
  }

  /** For a comma-joined list of addresses the primary recipient is the first
      address, trimmed, and the copies are the others, trimmed, in order. */
  lemma RecipientsOfList(addresses: seq<string>)
    requires |addresses| >= 1
    requires forall i | 0 <= i < |addresses| :: ',' !in addresses[i]
    ensures SplitRecipients(Join(addresses, ',')).to == Trim(addresses[0])
    ensures |addresses| == 1 ==> SplitRecipients(Join(addresses, ',')).cc == None
    ensures |addresses| > 1 ==> SplitRecipients(Join(addresses, ',')).cc == Some(TrimAll(addresses[1..]))
  {
    var sales := Join(addresses, ',');
    SplitJoin(addresses, ',');
    RecipientsOfPieces(sales);
  }

  /** A value without a comma is one recipient and no copies. */
  lemma SingleRecipient(sales: string)
    requires ',' !in sales
    ensures SplitRecipients(sales) == Recipients(Trim(sales), None)
  {
    RecipientsOfList([sales]);
  }

  /** Every comma starts a copy, so two commas in a row copy an empty address. */
  lemma EmptyCopyKept(a: string, b: string)
    requires ',' !in a && ',' !in b
    ensures SplitRecipients(a + ",," + b) == Recipients(Trim(a), Some(["", Trim(b)]))
  {
    var addresses := [a, "", b];
    RecipientsOfList(addresses);
    assert addresses[1..] == ["", b];
    assert Join(addresses[1..], ',') == "," + b;
    assert Join(addresses, ',') == a + ",," + b;
    var copies := TrimAll(["", b]);
    assert copies[0] == Trim("") == "";
    assert copies == ["", Trim(b)];
  }

  // ---------------------------------------------------------------------------
  // The message

  /** A body field as a template literal prints it: absent is `undefined`. */
  function Interpolate(v: Option<string>): (s: string)
    ensures v.Some? ==> s == v.value
    ensures v.None? ==> s == "undefined"
  {
    match v
    case None => "undefined"
    case Some(s) => s
  }

  /** The request body's fields; any of them may be absent. */
  datatype QuoteBody = QuoteBody(
    name: Option<string>,
    email: Option<string>,
    phone: Option<string>,
    service: Option<string>,
    projectDetails: Option<string>)

  /** What the request gave: a body, or the error reading it threw. */
  datatype QuoteRequest = Unreadable(thrown: Thrown) | Readable(body: QuoteBody)

  /** A thrown value: an `Error` with its message, or anything else. */
  datatype Thrown = ErrorValue(message: string) | OtherValue

  /** `error instanceof Error ? error.message : 'Unknown error'` */
  function Details(t: Thrown): (d: string)
    ensures t.ErrorValue? ==> d == t.message
    ensures t.OtherValue? ==> d == UnknownError
  {
    match t
    case ErrorValue(m) => m
    case OtherValue => UnknownError
  }

  const SubjectPrefix := "New Quote Request from "
  const SubjectSeparator := " - "

  /** The subject line: the prefix, then the requester's name, the
      separator and the service, each read back at its place. */
  function Subject(name: string, service: string): (r: string)
    ensures |r| == |SubjectPrefix| + |name| + |SubjectSeparator| + |service|
    ensures r[..|SubjectPrefix|] == SubjectPrefix
    ensures r[|SubjectPrefix|..|SubjectPrefix| + |name|] == name
    ensures r[|SubjectPrefix| + |name|..|r| - |service|] == SubjectSeparator
    ensures r[|r| - |service|..] == service
  {
    SubjectPrefix + name + SubjectSeparator + service
  }

  /** For a given service the subject names the requester unambiguously, and
      for a given requester it names the service unambiguously. */
  lemma SubjectInjective(n1: string, n2: string, s1: string, s2: string)
    requires Subject(n1, s1) == Subject(n2, s2)
    ensures s1 == s2 ==> n1 == n2
    ensures n1 == n2 ==> s1 == s2
  {
    var k := |SubjectPrefix|;
    if s1 == s2 {
      assert |n1| == |n2|;
      assert n1 == Subject(n1, s1)[k..k + |n1|];
      assert n2 == Subject(n2, s2)[k..k + |n2|];
    }
    if n1 == n2 {
      var j := k + |n1| + |SubjectSeparator|;
      assert s1 == Subject(n1, s1)[j..];
      assert s2 == Subject(n2, s2)[j..];
    }
  }

  const Indent := "\n        "
  const BodyEnd := "\n      "

  /** One line of a template-literal body: the indentation, then the text. */
  function Line(text: string): (r: string)
    ensures Contains(r, text)
  {
    ContainsInfix(Indent, text, "");
    assert Indent + text + "" == Indent + text;
    Indent + text
  }

  /** The plain-text body, one labelled line per field. */
  function TextBody(b: QuoteBody): string {
    Line("Name: " + Interpolate(b.name))
    + Line("Email: " + Interpolate(b.email))
    + Line("Phone: " + Interpolate(b.phone))
    + Line("Service Requested: " + Interpolate(b.service))
    + Line("Project Details: " + Interpolate(b.projectDetails))
    + BodyEnd
  }

  /** A labelled paragraph of the HTML body. */
  function Labelled(heading: string, value: string): string {
    "<p><strong>" + heading + ":</strong> " + value + "</p>"
  }

  /** The HTML body; field values are inserted without escaping. */
  function HtmlBody(b: QuoteBody): string {
    Line("<h2>New Quote Request</h2>")
    + Line(Labelled("Name", Interpolate(b.name)))
    + Line(Labelled("Email", Interpolate(b.email)))
    + Line(Labelled("Phone", Interpolate(b.phone)))
    + Line(Labelled("Service Requested", Interpolate(b.service)))
    + Line("<p><strong>Project Details:</strong></p>")
    + Line("<p>" + Interpolate(b.projectDetails) + "</p>")
    + BodyEnd
  }

  /** A text one of five lines includes is included in the body they make. */
  lemma LinesCarry(l1: string, l2: string, l3: string, l4: string, l5: string, text: string)
    requires Contains(l1, text) || Contains(l2, text) || Contains(l3, text)
      || Contains(l4, text) || Contains(l5, text)
    ensures Contains(l1 + l2 + l3 + l4 + l5 + BodyEnd, text)
  {
    ContainsExtend(l1, l2, text);
    ContainsExtend(l1 + l2, l3, text);
    ContainsExtend(l1 + l2 + l3, l4, text);
    ContainsExtend(l1 + l2 + l3 + l4, l5, text);
    ContainsExtend(l1 + l2 + l3 + l4 + l5, BodyEnd, text);
  }

  /** Every field reaches the plain-text body verbatim, after its label. */
  lemma TextBodyCarriesFields(b: QuoteBody)
    ensures Contains(TextBody(b), "Name: " + Interpolate(b.name))
    ensures Contains(TextBody(b), "Email: " + Interpolate(b.email))
    ensures Contains(TextBody(b), "Phone: " + Interpolate(b.phone))
    ensures Contains(TextBody(b), "Service Requested: " + Interpolate(b.service))
    ensures Contains(TextBody(b), "Project Details: " + Interpolate(b.projectDetails))
  {
    var t1, t2 := "Name: " + Interpolate(b.name), "Email: " + Interpolate(b.email);
    var t3, t4 := "Phone: " + Interpolate(b.phone), "Service Requested: " + Interpolate(b.service);
    var t5 := "Project Details: " + Interpolate(b.projectDetails);
    var l1, l2, l3, l4, l5 := Line(t1), Line(t2), Line(t3), Line(t4), Line(t5);
    LinesCarry(l1, l2, l3, l4, l5, t1);
    LinesCarry(l1, l2, l3, l4, l5, t2);
    LinesCarry(l1, l2, l3, l4, l5, t3);
    LinesCarry(l1, l2, l3, l4, l5, t4);
    LinesCarry(l1, l2, l3, l4, l5, t5);
  }

  /** The requester's name reaches the HTML body verbatim, inside its
      paragraph. */
  lemma HtmlBodyCarriesName(b: QuoteBody)
    ensures Contains(HtmlBody(b), Labelled("Name", Interpolate(b.name)))
  {
    var name := Labelled("Name", Interpolate(b.name));
    var h1 := Line("<h2>New Quote Request</h2>");
    var h2 := Line(name);
    var rest := HtmlBody(b)[|h1 + h2|..];
    ContainsExtend(h1, h2, name);
    ContainsExtend(h1 + h2, rest, name);
    assert HtmlBody(b) == h1 + h2 + rest;
  }

  /** Nothing is escaped: markup typed into the name field, a `<script>`
      element say, arrives in the HTML body as markup. */
  lemma NameMarkupNotEscaped(b: QuoteBody, markup: string)
    requires b.name.Some? && Contains(b.name.value, markup)
    ensures Contains(HtmlBody(b), markup)
  {
    var line := Labelled("Name", b.name.value);
    HtmlBodyCarriesName(b);
    ContainsInfix("<p><strong>" + "Name" + ":</strong> ", b.name.value, "</p>");
    ContainsWithin(line, b.name.value, markup);
    ContainsWithin(HtmlBody(b), line, markup);
  }

  datatype Message = Message(
    to: string,
    cc: Option<seq<string>>,
    from: string,
    subject: string,
    text: string,
    html: string)

  function BuildMessage(salesTeamEmail: string, fromEmail: string, b: QuoteBody): (m: Message)
    ensures Recipients(m.to, m.cc) == SplitRecipients(salesTeamEmail)
    ensures m.from == fromEmail
    ensures m.subject == Subject(Interpolate(b.name), Interpolate(b.service))
  {
    var r := SplitRecipients(salesTeamEmail);
    Message(r.to, r.cc, fromEmail, Subject(Interpolate(b.name), Interpolate(b.service)),
            TextBody(b), HtmlBody(b))
  }

  // ---------------------------------------------------------------------------
  // The handler

  /** What the mail service did with the message. */
  datatype SendResult = SendThrew(thrown: Thrown) | Sent(statusCode: nat)

  datatype QuoteReply = Success | Failure(error: string, details: string)
  datatype QuoteResponse = QuoteResponse(status: int, reply: QuoteReply)

  /** The message handed to the mail service, if one was, and the response. */
  datatype QuoteOutcome = QuoteOutcome(sent: Option<Message>, response: QuoteResponse)

  function StatusCodeError(code: nat): string {
    "SendGrid returned status code " + NatToString(code)
  }

  function Fail(details: string): QuoteResponse {
    QuoteResponse(500, Failure(FailureError, details))
  }

  /** `POST /api/quote` */
  function Post(env: QuoteEnv, request: QuoteRequest, send: SendResult): (out: QuoteOutcome)
    ensures out.response.status in {200, 500}
    ensures out.response.status == 200 <==> out.response.reply.Success?
    ensures out.response.status == 200 <==>
      EnvComplete(env) && request.Readable? && send == Sent(AcceptedStatus)
    ensures out.response.status == 500 ==> out.response.reply.error == FailureError
    ensures out.sent.Some? <==> EnvComplete(env) && request.Readable?
    ensures out.sent.Some? ==>
      out.sent.value == BuildMessage(env.salesTeamEmail.value, env.fromEmail.value, request.body)
    ensures !EnvComplete(env) ==> out.response == Fail(MissingEnvError)
    ensures EnvComplete(env) && request.Unreadable? ==> out.response == Fail(Details(request.thrown))
    ensures out.sent.Some? && send.SendThrew? ==> out.response == Fail(Details(send.thrown))
    ensures out.sent.Some? && send.Sent? && send.statusCode != AcceptedStatus ==>
      out.response == Fail(StatusCodeError(send.statusCode))
  {
    if !EnvComplete(env) then QuoteOutcome(None, Fail(MissingEnvError))
    else match request
      case Unreadable(t) => QuoteOutcome(None, Fail(Details(t)))
      case Readable(body) =>
        var msg := BuildMessage(env.salesTeamEmail.value, env.fromEmail.value, body);
        match send
        case SendThrew(t) => QuoteOutcome(Some(msg), Fail(Details(t)))
        case Sent(code) =>
          if code != AcceptedStatus then QuoteOutcome(Some(msg), Fail(StatusCodeError(code)))
          else QuoteOutcome(Some(msg), QuoteResponse(200, Success))
  }

  /** The environment is checked before the body is read: with a variable
      missing, the response is the same whatever was sent. */
  lemma MissingEnvIgnoresRequest(env: QuoteEnv, r1: QuoteRequest, r2: QuoteRequest, s1: SendResult, s2: SendResult)
    requires !EnvComplete(env)
    ensures Post(env, r1, s1) == Post(env, r2, s2)
    ensures Post(env, r1, s1).sent == None
  {
  }

  /** A failure reply for an unexpected status names the status: two
      different codes give two different details. */
  lemma StatusCodeErrorInjective(m: nat, n: nat)
    requires StatusCodeError(m) == StatusCodeError(n)
    ensures m == n
  {
    var k := |"SendGrid returned status code "|;
    assert NatToString(m) == StatusCodeError(m)[k..];
    assert NatToString(n) == StatusCodeError(n)[k..];
    NatToStringInjective(m, n);
  }

  /** Any success from the mail service other than 202, such as 200, is
      reported as a failure. */
  lemma OnlyAcceptedSucceeds(env: QuoteEnv, body: QuoteBody, code: nat)
    requires EnvComplete(env) && code != AcceptedStatus
    ensures Post(env, Readable(body), Sent(code)).response.status == 500
    ensures Post(env, Readable(body), Sent(code)).response.reply.details == StatusCodeError(code)
  {
  }
}
