/** The control flow of the lead endpoint's `handler`: method guard, rate
    limit, body parsing, validation, insertion, best-effort e-mail. The
    database insert and the e-mail provider are external; their answers are
    parameters, and the handler's observable effects (the response, the new
    limiter state, the row it asked to insert, the e-mail it asked to send)
    are returned as one value. */
module NotifyLead {
  import opened Wrappers
  import opened RateLimit
  import opened LeadValidation
  import opened LeadRecord

  /** The parts of the HTTP request the handler reads. `body` is `None`
      when the raw body is not valid JSON. */
  datatype Request = Request(
    verb: string,
    forwardedFor: Option<string>,
    realIp: Option<string>,
    remoteAddress: Option<string>,
    body: Option<Submission>)

  /** The environment variables the e-mail step reads. */
  datatype MailConfig = MailConfig(
    apiKey: Option<string>,
    toEmail: Option<string>,
    fromEmail: Option<string>)

  /** Sender used when `LEADS_FROM_EMAIL` is unset or empty. */
  const DefaultFrom: string := "Leads <onboarding@resend.dev>"

  /** The e-mail the handler asks the provider to send. */
  datatype Mail = Mail(from: string, to: string, subject: string, values: seq<string>)

  datatype Response =
    | MethodNotAllowed
    | TooManyRequests
    | InvalidData(details: seq<string>)
    | DbInsertFailed(message: string)
    | Created(id: string, emailSent: bool)
    | InternalError
  {
    function Status(): int {
      match this
      case MethodNotAllowed => 405
      case TooManyRequests => 429
      case InvalidData(_) => 400
      case DbInsertFailed(_) => 500
      case Created(_, _) => 200
      case InternalError => 500
    }
  }

  /** Everything one call of the handler does. */
  datatype Outcome = Outcome(
    response: Response,
    hits: Hits,
    inserted: Option<Lead>,
    mail: Option<Mail>)

  /** The client address the limiter keys on and the lead records. */
  function RequestIp(req: Request): string {
    ClientIp(req.forwardedFor, req.realIp, req.remoteAddress)
  }

  /** The e-mail is attempted only with an API key and a recipient. */
  predicate MailConfigured(cfg: MailConfig) {
    OrEmpty(cfg.apiKey) != "" && OrEmpty(cfg.toEmail) != ""
  }

  /** The e-mail for a stored lead. */
  function LeadMail(cfg: MailConfig, l: Lead): (m: Mail)
    requires MailConfigured(cfg)
    ensures m.to == cfg.toEmail.value && m.subject == Subject(l) && m.values == MailValues(l)
    ensures m.from == (if OrEmpty(cfg.fromEmail) != "" then cfg.fromEmail.value else DefaultFrom)
  {
    Mail(
      from := if OrEmpty(cfg.fromEmail) != "" then cfg.fromEmail.value else DefaultFrom,
      to := cfg.toEmail.value,
      subject := Subject(l),
      values := MailValues(l))
  }

  /** What the handler does with a request the limiter let through:
      parse, validate, insert, then the best-effort e-mail. `hits` is the
      limiter state after counting the request and is passed on unchanged. */
  function Admitted(
    hits: Hits, ip: string, body: Option<Submission>, cfg: MailConfig,
    insertResult: Result<string, string>, providerOk: bool): (o: Outcome)
    ensures o.hits == hits && o.response != TooManyRequests
    ensures body.None? ==> o.response == InternalError && o.inserted.None?
    ensures o.inserted.Some? ==>
      body.Some? && Validate(body.value) == [] && o.inserted.value == Normalise(body.value, ip)
    ensures body.Some? && Validate(body.value) != [] ==>
      o == Outcome(InvalidData(Details(Validate(body.value))), hits, None, None)
    ensures body.Some? && Validate(body.value) == [] ==> o.inserted.Some?
    ensures o.response.InvalidData? ==>
      body.Some? && o.response.details == Details(Validate(body.value)) && o.response.details != []
    ensures o.inserted.Some? && insertResult.Failure? ==>
      o.response == DbInsertFailed(insertResult.error) && o.mail.None?
    ensures o.mail.Some? ==>
      && o.inserted.Some? && insertResult.Success? && MailConfigured(cfg)
      && o.mail.value == LeadMail(cfg, o.inserted.value)
    ensures o.response.Created? ==>
      && o.inserted.Some? && insertResult.Success?
      && o.response.id == insertResult.value
      && (o.response.emailSent <==> o.mail.Some? && providerOk)
    ensures o.inserted.Some? && insertResult.Success? ==>
      o.response.Created? && (o.mail.Some? <==> MailConfigured(cfg))
  {
    match body
    case None => Outcome(InternalError, hits, None, None)
    case Some(b) =>
      var errs := Validate(b);
      if errs != [] then Outcome(InvalidData(Details(errs)), hits, None, None)
      else
        var lead := Normalise(b, ip);
        match insertResult
        case Failure(e) => Outcome(DbInsertFailed(e), hits, Some(lead), None)
        case Success(id) =>
          if !MailConfigured(cfg) then Outcome(Created(id, false), hits, Some(lead), None)
          else Outcome(Created(id, providerOk), hits, Some(lead), Some(LeadMail(cfg, lead)))
  }

  /** One request. `now` is the clock reading, `insertResult` what the
      database answers to the insert (the new row's id, or an error
      message), and `providerOk` whether the e-mail provider accepts the
      send. The limiter runs with its default window and maximum. */
  function Handle(
    hits: Hits, now: int, req: Request, cfg: MailConfig,
    insertResult: Result<string, string>, providerOk: bool): (o: Outcome)
    // A method other than POST is refused before the limiter counts it.
    ensures req.verb != "POST" ==>
      o == Outcome(MethodNotAllowed, hits, None, None)
    // A POST is throttled exactly when the limiter says no, and the
    // limiter's new state is kept either way.
    ensures req.verb == "POST" ==>
      var d := Allow(hits, RequestIp(req), now, DefaultWindowMs, DefaultMax);
      && o.hits == d.hits
      && (o.response == TooManyRequests <==> !d.allowed)
    // A throttled request inserts nothing and sends nothing.
    ensures o.response == TooManyRequests ==> o.inserted.None? && o.mail.None?
    // A row is inserted only for a parsed body without validation errors,
    // and it is that body's normalised record.
    ensures o.inserted.Some? ==>
      && req.body.Some? && Validate(req.body.value) == []
      && o.inserted.value == Normalise(req.body.value, RequestIp(req))
    // Past the method check and the limiter, the request is handled as
    // `Admitted` describes, with the limiter's new state.
    ensures req.verb == "POST" && o.response != TooManyRequests ==>
      o == Admitted(o.hits, RequestIp(req), req.body, cfg, insertResult, providerOk)
  {
    if req.verb != "POST" then Outcome(MethodNotAllowed, hits, None, None)
    else
      var ip := RequestIp(req);
      var d := Allow(hits, ip, now, DefaultWindowMs, DefaultMax);
      if !d.allowed then Outcome(TooManyRequests, d.hits, None, None)
      else Admitted(d.hits, ip, req.body, cfg, insertResult, providerOk)
  }

  /** Whatever the request, the handler keeps the limiter's guarantee: no
      client has more than the default maximum of timestamps inside the
      window, at the call's clock reading and at every later one. */
  lemma HandleKeepsLimit(
    hits: Hits, now: int, later: int, req: Request, cfg: MailConfig,
    insertResult: Result<string, string>, providerOk: bool)
    requires now <= later
    requires WithinLimit(hits, now, DefaultWindowMs, DefaultMax)
    ensures WithinLimit(Handle(hits, now, req, cfg, insertResult, providerOk).hits,
                        later, DefaultWindowMs, DefaultMax)
  {
    if req.verb == "POST" {
      AllowKeepsLimit(hits, RequestIp(req), now, later, DefaultWindowMs, DefaultMax);
    } else {
      forall k | k in hits
        ensures |Recent(hits[k], later, DefaultWindowMs)| <= DefaultMax
      {
        RecentShrinks(hits[k], now, later, DefaultWindowMs);
      }
    }
  }
}
