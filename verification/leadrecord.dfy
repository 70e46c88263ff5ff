/** The record the endpoint stores for an accepted submission (`toInsert`
    in api/notify-lead.js), the subject line of the notification e-mail, the
    client address the rate limiter is keyed on, and the escaped values the
    e-mail body interpolates. */
module LeadRecord {
  import opened Wrappers
  import opened JsStrings
  import opened EmailPattern
  import opened HtmlEscape
  import opened LeadValidation

  /** The stored length bound for the page URL and the user agent. */
  const MaxMetaLength: nat := 500

  /** Status every new lead is stored with. */
  const InitialStatus: string := "nuevo"

  /** Fixed start of the notification subject. */
  const SubjectPrefix: string := "Nuevo lead: "

  /** The row inserted into the `leads` table. */
  datatype Lead = Lead(
    nombre: string,
    email: string,
    telefono: Option<string>,
    mensaje: string,
    cocheInteres: Option<string>,
    carId: Option<string>,
    pageUrl: string,
    userAgent: string,
    ip: string,
    estado: string)

  /** `(field || null) || null`: an absent or empty field is stored as
      null, anything else unchanged. */
  function OrNull(f: Option<string>): (r: Option<string>)
    ensures r.Some? <==> f.Some? && f.value != ""
    ensures r.Some? ==> r == f
  {
    if f.Some? && f.value != "" then f else None
  }

  /** Builds `toInsert` from the body and the client address. */
  function Normalise(b: Submission, ip: string): (l: Lead)
    ensures l.nombre == CheckedName(b) && l.mensaje == CheckedMessage(b)
    ensures l.email == CheckedEmail(b)
    ensures l.telefono.Some? <==> CheckedPhone(b) != ""
    ensures l.telefono.Some? ==> l.telefono.value == CheckedPhone(b)
    ensures l.cocheInteres.Some? <==> OrEmpty(b.cocheInteres) != ""
    ensures l.cocheInteres == OrNull(b.cocheInteres) && l.carId == OrNull(b.carId)
    ensures |l.pageUrl| <= MaxMetaLength && l.pageUrl <= OrEmpty(b.pageUrl)
    ensures |l.userAgent| <= MaxMetaLength && l.userAgent <= OrEmpty(b.userAgent)
    ensures |OrEmpty(b.pageUrl)| <= MaxMetaLength ==> l.pageUrl == OrEmpty(b.pageUrl)
    ensures |OrEmpty(b.userAgent)| <= MaxMetaLength ==> l.userAgent == OrEmpty(b.userAgent)
    ensures |OrEmpty(b.pageUrl)| > MaxMetaLength ==> |l.pageUrl| == MaxMetaLength
    ensures |OrEmpty(b.userAgent)| > MaxMetaLength ==> |l.userAgent| == MaxMetaLength
    ensures l.ip == ip && l.estado == InitialStatus
  {
    Lead(
      nombre := CheckedName(b),
      email := CheckedEmail(b),
      telefono := OrNull(b.telefono),
      mensaje := CheckedMessage(b),
      cocheInteres := OrNull(b.cocheInteres),
      carId := OrNull(b.carId),
      pageUrl := Slice(OrEmpty(b.pageUrl), MaxMetaLength),
      userAgent := Slice(OrEmpty(b.userAgent), MaxMetaLength),
      ip := ip,
      estado := InitialStatus)
  }

  /** The stored address is trimmed and lowercased: trimming or
      lowercasing it again changes nothing. */
  lemma StoredEmailIsNormal(b: Submission, ip: string)
    ensures var e := Normalise(b, ip).email; Trim(e) == e && ToLower(e) == e
  {
    var t := Trim(OrEmpty(b.email));
    var e := ToLower(t);
    if e != [] {
      LowerCharKeepsSpace(t[0]);
      LowerCharKeepsSpace(t[|t| - 1]);
    }
    TrimOfTrimmed(e);
    ToLowerIdempotent(t);
  }

  /** A submission that passes validation yields a record whose name,
      e-mail, message and phone meet the rules validation checked. */
  lemma ValidLeadIsWellFormed(b: Submission, ip: string)
    requires Validate(b) == []
    ensures var l := Normalise(b, ip);
      && |l.nombre| >= MinNameLength
      && MatchesEmailRegex(l.email)
      && |l.mensaje| >= MinMessageLength
      && (l.telefono.Some? ==> MinPhoneDigits <= |Digits(l.telefono.value)| <= MaxPhoneDigits)
  {
    NoErrorsMeansAllChecksPass(b);
  }

  /** The notification subject: the prefix, the stored name, and
      `" - <car>"` when a car of interest was stored. */
  function Subject(l: Lead): (r: string)
    ensures SubjectPrefix + l.nombre <= r
    ensures l.cocheInteres.None? ==> r == SubjectPrefix + l.nombre
    ensures l.cocheInteres.Some? ==> r == SubjectPrefix + l.nombre + " - " + l.cocheInteres.value
  {
    SubjectPrefix + l.nombre + (if l.cocheInteres.Some? then " - " + l.cocheInteres.value else "")
  }

  /** In terms of what was submitted: the subject names the trimmed name,
      and carries the car of interest exactly when a non-empty one was
      sent, untrimmed. */
  lemma SubjectOfSubmission(b: Submission, ip: string)
    ensures var s := Subject(Normalise(b, ip));
      && SubjectPrefix + Trim(OrEmpty(b.nombre)) <= s
      && (OrEmpty(b.cocheInteres) == "" ==> s == SubjectPrefix + Trim(OrEmpty(b.nombre)))
      && (OrEmpty(b.cocheInteres) != "" ==>
            s == SubjectPrefix + Trim(OrEmpty(b.nombre)) + " - " + OrEmpty(b.cocheInteres))
  {
  }

  /** `x-forwarded-for` split at its first comma, else `x-real-ip`, else
      the socket's remote address, else `"unknown"`; an empty candidate is
      skipped like an absent one. */
  function ClientIp(forwardedFor: Option<string>, realIp: Option<string>, remote: Option<string>): (r: string)
    ensures r != ""
    ensures forwardedFor.Some? && FirstSegment(forwardedFor.value) != "" ==>
      r == FirstSegment(forwardedFor.value) && ',' !in r && r <= forwardedFor.value
    ensures ((forwardedFor.None? || FirstSegment(forwardedFor.value) == "")
             && OrEmpty(realIp) != "") ==> r == realIp.value
    ensures ((forwardedFor.None? || FirstSegment(forwardedFor.value) == "")
             && OrEmpty(realIp) == "" && OrEmpty(remote) != "") ==> r == remote.value
    ensures ((forwardedFor.None? || FirstSegment(forwardedFor.value) == "")
             && OrEmpty(realIp) == "" && OrEmpty(remote) == "") ==> r == "unknown"
  {
    var first := if forwardedFor.Some? then FirstSegment(forwardedFor.value) else "";
    if first != "" then first
    else if OrEmpty(realIp) != "" then realIp.value
    else if OrEmpty(remote) != "" then remote.value
    else "unknown"
  }

  /** Only the first hop of `x-forwarded-for` matters: the proxies a
      request passed through afterwards never change the address the
      limiter counts it under or the lead records. */
  lemma ClientIpIgnoresLaterHops(
    first: string, later: string, realIp: Option<string>, remote: Option<string>)
    requires ',' !in first
    ensures ClientIp(Some(first + "," + later), realIp, remote) == ClientIp(Some(first), realIp, remote)
  {
    var s := first + "," + later;
    assert forall k :: 0 <= k < |first| ==> s[k] == first[k];
    assert s[|first|] == ',';
  }

  /** The user-supplied values the e-mail body interpolates, in template
      order: name, e-mail, phone and car when stored, message, page URL. */
  function MailFields(l: Lead): (r: seq<string>)
    ensures |r| == 4 + (if l.telefono.Some? then 1 else 0) + (if l.cocheInteres.Some? then 1 else 0)
    ensures r[0] == l.nombre && r[1] == l.email && r[|r| - 1] == l.pageUrl && r[|r| - 2] == l.mensaje
    ensures l.telefono.Some? ==> r[2] == l.telefono.value
    ensures l.cocheInteres.Some? ==> r[|r| - 3] == l.cocheInteres.value
  {
    [l.nombre, l.email]
    + (if l.telefono.Some? then [l.telefono.value] else [])
    + (if l.cocheInteres.Some? then [l.cocheInteres.value] else [])
    + [l.mensaje, l.pageUrl]
  }

  /** Every interpolated value, passed through the escaper: each is safe
      HTML text and decodes back to the stored value. */
  function MailValues(l: Lead): (r: seq<string>)
    ensures |r| == |MailFields(l)|
    ensures forall i :: 0 <= i < |r| ==> SafeHtmlText(r[i]) && Unescape(r[i]) == MailFields(l)[i]
  {
    var raw := MailFields(l);
    EscapeAllSafe(raw);
    seq(|raw|, i requires 0 <= i < |raw| => EscapeHtml(raw[i]))
  }

  lemma EscapeAllSafe(xs: seq<string>)
    ensures forall i :: 0 <= i < |xs| ==>
      SafeHtmlText(EscapeHtml(xs[i])) && Unescape(EscapeHtml(xs[i])) == xs[i]
  {
    forall i | 0 <= i < |xs|
      ensures SafeHtmlText(EscapeHtml(xs[i])) && Unescape(EscapeHtml(xs[i])) == xs[i]
    {
      EscapeHtmlSafe(xs[i]);
      UnescapeEscapeHtml(xs[i]);
    }
  }
}
