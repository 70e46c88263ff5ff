/** Server-side validation of a lead submission (`validate` in
    api/notify-lead.js). Every check runs and every failure is reported,
    in the fixed order name, e-mail, message, phone. */
module LeadValidation {
  import opened Wrappers
  import opened JsStrings
  import opened EmailPattern

  /** The parsed JSON body. A field is `None` when it was not sent; the
      model assumes every field that was sent is a string. */
  datatype Submission = Submission(
    nombre: Option<string>,
    email: Option<string>,
    telefono: Option<string>,
    mensaje: Option<string>,
    cocheInteres: Option<string>,
    carId: Option<string>,
    pageUrl: Option<string>,
    userAgent: Option<string>)

  /** `field || ""` for a string field: an absent field reads as empty. */
  function OrEmpty(f: Option<string>): string {
    f.GetOr("")
  }

  /** Minimum trimmed lengths of the name and the message. */
  const MinNameLength: nat := 2
  const MinMessageLength: nat := 10

  /** The accepted range for the number of digits in a phone number. */
  const MinPhoneDigits: nat := 9
  const MaxPhoneDigits: nat := 15

  datatype ValidationError = NameTooShort | InvalidEmail | MessageTooShort | BadPhone {
    /** The text the endpoint reports for this error. */
    function Message(): string {
      match this
      case NameTooShort => "Nombre debe tener al menos 2 caracteres"
      case InvalidEmail => "Email inválido"
      case MessageTooShort => "Mensaje mínimo 10 caracteres"
      case BadPhone => "Teléfono 9-15 dígitos"
    }

    /** Position of the check in the order `validate` runs them. */
    function Rank(): nat {
      match this
      case NameTooShort => 0
      case InvalidEmail => 1
      case MessageTooShort => 2
      case BadPhone => 3
    }
  }

  /** The name, e-mail and message as `validate` tests them. */
  function CheckedName(b: Submission): string { Trim(OrEmpty(b.nombre)) }
  function CheckedEmail(b: Submission): string { ToLower(Trim(OrEmpty(b.email))) }
  function CheckedMessage(b: Submission): string { Trim(OrEmpty(b.mensaje)) }

  /** The phone as `validate` tests it: neither trimmed nor lowercased. */
  function CheckedPhone(b: Submission): string { OrEmpty(b.telefono) }

  /** A phone number is acceptable when it is empty or has between 9 and 15
      ASCII digits, whatever else it contains. */
  predicate PhoneOk(p: string) {
    p == [] || MinPhoneDigits <= |Digits(p)| <= MaxPhoneDigits
  }

  /** The errors for the four outcomes of the checks, in check order. */
  function Collect(badName: bool, badEmail: bool, badMessage: bool, badPhone: bool): (errs: seq<ValidationError>)
    ensures |errs| <= 4
    ensures forall i, j :: 0 <= i < j < |errs| ==> errs[i].Rank() < errs[j].Rank()
    ensures NameTooShort in errs <==> badName
    ensures InvalidEmail in errs <==> badEmail
    ensures MessageTooShort in errs <==> badMessage
    ensures BadPhone in errs <==> badPhone
  {
    (if badName then [NameTooShort] else [])
    + (if badEmail then [InvalidEmail] else [])
    + (if badMessage then [MessageTooShort] else [])
    + (if badPhone then [BadPhone] else [])
  }

  /** All errors of a submission, in check order. */
  function Validate(b: Submission): (errs: seq<ValidationError>)
    ensures |errs| <= 4
    ensures forall i, j :: 0 <= i < j < |errs| ==> errs[i].Rank() < errs[j].Rank()
    ensures NameTooShort in errs <==> |CheckedName(b)| < MinNameLength
    ensures InvalidEmail in errs <==> !MatchesEmailRegex(CheckedEmail(b))
    ensures MessageTooShort in errs <==> |CheckedMessage(b)| < MinMessageLength
    ensures BadPhone in errs <==> !PhoneOk(CheckedPhone(b))
  {
    var email := CheckedEmail(b);
    EmailShapeCorrect(email);
    var badName := |CheckedName(b)| < MinNameLength;
    var badEmail := !EmailShape(email);
    var badMessage := |CheckedMessage(b)| < MinMessageLength;
    var badPhone := !PhoneOk(CheckedPhone(b));
    var errs := Collect(badName, badEmail, badMessage, badPhone);
    assert InvalidEmail in errs <==> !MatchesEmailRegex(email);
    errs
  }

  /** An empty error list means every rule holds. */
  lemma NoErrorsMeansAllChecksPass(b: Submission)
    requires Validate(b) == []
    ensures |CheckedName(b)| >= MinNameLength
    ensures MatchesEmailRegex(CheckedEmail(b))
    ensures |CheckedMessage(b)| >= MinMessageLength
    ensures PhoneOk(CheckedPhone(b))
  {
    var errs := Validate(b);
    assert NameTooShort !in errs && InvalidEmail !in errs;
    assert MessageTooShort !in errs && BadPhone !in errs;
  }

  /** The `details` list of a 400 response. */
  function Details(errs: seq<ValidationError>): seq<string> {
    seq(|errs|, i requires 0 <= i < |errs| => errs[i].Message())
  }

  /** Different errors have different messages. */
  lemma MessageInjective(e: ValidationError, e': ValidationError)
    requires e.Message() == e'.Message()
    ensures e == e'
  {
    assert e.Message()[0] == e'.Message()[0];
  }

  /** The `details` array of a 400 response determines exactly which rules
      failed, and in which order they were reported. */
  lemma DetailsInjective(errs: seq<ValidationError>, errs': seq<ValidationError>)
    requires Details(errs) == Details(errs')
    ensures errs == errs'
  {
    forall i | 0 <= i < |errs|
      ensures errs[i] == errs'[i]
    {
      assert Details(errs)[i] == Details(errs')[i];
      MessageInjective(errs[i], errs'[i]);
    }
  }

  /** A submission with no phone, or an empty one, never gets a phone
      error; a phone made only of separators (no digits at all) does. */
  lemma PhoneErrorCases(b: Submission)
    ensures b.telefono.None? || b.telefono == Some("") ==> BadPhone !in Validate(b)
    ensures b.telefono.Some? && b.telefono.value != [] && Digits(b.telefono.value) == []
      ==> BadPhone in Validate(b)
  {
  }

  /** Validation does not stop at the first failure: a submission whose
      name, e-mail and message are all bad, and whose phone is fine, gets
      exactly those three errors, in that order. */
  lemma ValidationCollectsAllErrors(b: Submission)
    requires |CheckedName(b)| < MinNameLength
    requires !MatchesEmailRegex(CheckedEmail(b))
    requires |CheckedMessage(b)| < MinMessageLength
    requires PhoneOk(CheckedPhone(b))
    ensures Validate(b) == [NameTooShort, InvalidEmail, MessageTooShort]
  {
    EmailShapeCorrect(CheckedEmail(b));
  }

  /** The submission `{nombre: "A", email: "bad", mensaje: "short"}` is
      such a submission. */
  lemma ThreeErrorExample()
    ensures Validate(Submission(Some("A"), Some("bad"), None, Some("short"), None, None, None, None))
      == [NameTooShort, InvalidEmail, MessageTooShort]
  {
    var b := Submission(Some("A"), Some("bad"), None, Some("short"), None, None, None, None);
    var name, email, msg := OrEmpty(b.nombre), OrEmpty(b.email), OrEmpty(b.mensaje);
    assert |Trim(name)| < MinNameLength;
    assert Trim(email) == email by {
      TrimOfTrimmed(email);
    }
    assert '@' !in ToLower(email);
    EmailShapeCorrect(ToLower(email));
    assert |Trim(msg)| < MinMessageLength;
    ValidationCollectsAllErrors(b);
  }
}
