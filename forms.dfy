/**
 * The booking form's submit handler, `initForms` in
 * staticfiles/js/modules/forms.js (static/js/script.js:196-274 has the same
 * handler): check the trimmed phone, attach the CSRF token, disable the
 * button while the request is outstanding, then pick the toast from the
 * response and restore the button in every branch.
 *
 * The handler suspends at `await fetch(...)`/`await response.json()`; the
 * model splits it there. `BeginSubmit` is everything before the request and
 * returns the request with the label the handler captured; `Settle` is
 * everything after, given the outcome of the request: a parsed JSON reply or
 * a thrown error. `HandleSubmit` runs the two back to back.
 */
module Forms {
  import opened Wrappers
  import opened Text
  import Cookies
  import Toasts

  const INVALID_CLASS := "is-invalid"
  const MODAL_OPEN_CLASS := "modal-open"
  const EMPTY_PHONE_MESSAGE := "Пожалуйста, введите номер телефона"
  const BAD_PHONE_MESSAGE := "Введите номер в формате +79XXXXXXXXX"
  const LOADING_LABEL := "<span class=\"spinner-border spinner-border-sm\"></span> Отправка..."
  const SUCCESS_MESSAGE := "✅ Ваша заявка успешно отправлена!"
  const FAILURE_FALLBACK := "❌ Ошибка при отправке формы"
  const RETRY_MESSAGE := "❌ Произошла ошибка. Пожалуйста, попробуйте еще раз."
  const CSRF_COOKIE := "csrftoken"
  const CSRF_FIELD := "csrfmiddlewaretoken"

  // ---------------------------------------------------------------
  // The phone pattern /^(\+7|7|8)?9\d{9}$/
  // ---------------------------------------------------------------

  /** `9\d{9}`: a ten-digit mobile number starting with 9. */
  predicate MobileTail(t: string) {
    |t| == 10 && t[0] == '9' && AllDigits(t)
  }

  /** The phone pattern, one disjunct per choice of the optional prefix. */
  predicate MobilePattern(s: string) {
    MobileTail(s) ||
    ("+7" <= s && MobileTail(s[2..])) ||
    ("7" <= s && MobileTail(s[1..])) ||
    ("8" <= s && MobileTail(s[1..]))
  }

  /** The same set described by length: 10, 11 or 12 characters, each with its own shape. */
  predicate MobileByLength(s: string) {
    (|s| == 10 && s[0] == '9' && AllDigits(s)) ||
    (|s| == 11 && (s[0] == '7' || s[0] == '8') && s[1] == '9' && AllDigits(s)) ||
    (|s| == 12 && s[0] == '+' && s[1] == '7' && s[2] == '9' && AllDigits(s[1..]))
  }

  lemma MobilePatternByLength(s: string)
    ensures MobilePattern(s) <==> MobileByLength(s)
  {
    if |s| == 11 && (s[0] == '7' || s[0] == '8') && s[1] == '9' && AllDigits(s) {
      assert s[1..][0] == s[1];
      assert MobileTail(s[1..]);
    }
    if |s| == 12 && s[0] == '+' && s[1] == '7' && s[2] == '9' && AllDigits(s[1..]) {
      assert s[..2] == "+7";
      assert s[2..] == s[1..][1..];
      assert MobileTail(s[2..]);
    }
    if "+7" <= s && MobileTail(s[2..]) {
      assert s[1..] == [s[1]] + s[2..];
    }
    if ("7" <= s || "8" <= s) && MobileTail(s[1..]) {
      assert s == [s[0]] + s[1..];
    }
  }

  /** The phone examples the form is meant to accept and reject. */
  lemma PhoneExamples()
    ensures MobilePattern("9991234567") && MobilePattern("79991234567")
    ensures MobilePattern("89991234567") && MobilePattern("+79991234567")
    ensures !MobilePattern("+78991234567") && !MobilePattern("+7912345678") && !MobilePattern("123")
  {
    AcceptedExamples();
    RejectedExamples();
  }

  lemma AcceptedExamples()
    ensures MobilePattern("9991234567") && MobilePattern("79991234567")
    ensures MobilePattern("89991234567") && MobilePattern("+79991234567")
  {
    assert "79991234567"[1..] == "9991234567";
    assert "89991234567"[1..] == "9991234567";
    assert "+79991234567"[2..] == "9991234567";
  }

  lemma RejectedExamples()
    ensures !MobilePattern("+78991234567") && !MobilePattern("+7912345678") && !MobilePattern("123")
  {
    MobilePatternByLength("+78991234567");
    MobilePatternByLength("+7912345678");
    MobilePatternByLength("123");
  }

  // ---------------------------------------------------------------
  // Validation verdict
  // ---------------------------------------------------------------

  datatype PhoneVerdict = Missing | Malformed | Accepted

  /** The two checks, in order, on the trimmed phone value. */
  function Verdict(phone: string): (v: PhoneVerdict)
    ensures v == Missing <==> phone == ""
    ensures v == Accepted <==> MobilePattern(phone)
  {
    if phone == "" then Missing
    else if !MobilePattern(phone) then Malformed
    else Accepted
  }

  /** The text put into `#phoneError` for a rejected phone. */
  function ErrorMessage(v: PhoneVerdict): string
    requires v != Accepted
  {
    if v == Missing then EMPTY_PHONE_MESSAGE else BAD_PHONE_MESSAGE
  }

  // ---------------------------------------------------------------
  // Request and outcome
  // ---------------------------------------------------------------

  /** The multipart body (entries in order) and the `X-CSRFToken` header of the POST to the form's action. */
  datatype Request = Request(action: string, body: seq<(string, string)>, csrfHeader: string)

  /**
   * What the request settled to: a parsed reply, read through `data.success`
   * (its truthiness) and `data.error` (a string, when it is one); a reply that
   * parsed to `null`, which passes the modal clean-up and then throws at
   * `data.success`; or an error thrown by `fetch` or `response.json()`.
   */
  datatype Outcome = Replied(success: bool, error: Option<string>) | NullReply | Thrown

  /** The body was parsed, so the modal clean-up ran before anything could throw. */
  predicate Parsed(outcome: Outcome) {
    outcome.Replied? || outcome.NullReply?
  }

  /** A request in flight, with the button label the handler captured before changing it. */
  datatype Pending = Pending(originalLabel: string, request: Request)

  /** The toast kind and message a settled request shows. */
  datatype Notice = Notice(kind: string, message: string)

  /** `String(token)`: both `FormData.append` and the header turn a `null` token into the text "null". */
  function TokenText(token: Option<string>): string {
    match token
    case Some(t) => t
    case None => "null"
  }

  /** `formData.append('csrfmiddlewaretoken', csrfToken)` and the header carrying the same token. */
  function SubmitRequest(action: string, fields: seq<(string, string)>, token: Option<string>): (r: Request)
    ensures r.action == action && |r.body| == |fields| + 1 && r.body[..|fields|] == fields
    ensures r.body[|fields|] == (CSRF_FIELD, r.csrfHeader)
    ensures r.csrfHeader == TokenText(token)
  {
    var t := TokenText(token);
    Request(action, fields + [(CSRF_FIELD, t)], t)
  }

  /** `data.error || fallback`: the server's error text when it is a non-empty string. */
  function FailureText(error: Option<string>): string {
    match error
    case Some(e) => if e != "" then e else FAILURE_FALLBACK
    case None => FAILURE_FALLBACK
  }

  /** The toast a settled request shows. */
  function NoticeFor(outcome: Outcome): Notice {
    match outcome
    case Replied(success, error) =>
      if success then Notice("success", SUCCESS_MESSAGE) else Notice("error", FailureText(error))
    case NullReply => Notice("error", RETRY_MESSAGE)
    case Thrown => Notice("error", RETRY_MESSAGE)
  }

  /** The toast turns green exactly for a reply with `success: true`; every other outcome turns it red. */
  lemma NoticeColour(outcome: Outcome, classes: set<string>)
    ensures var after := Toasts.KindClasses(classes, NoticeFor(outcome).kind);
      (Toasts.SUCCESS_CLASS in after <==> outcome.Replied? && outcome.success) &&
      (Toasts.DANGER_CLASS in after <==> !(outcome.Replied? && outcome.success))
  {
  }

  /** The failure toast shows the server's error verbatim when there is one, and the fallback otherwise. */
  lemma FailureMessage(error: Option<string>)
    ensures NoticeFor(Replied(false, error)).kind == "error"
    ensures error.Some? && error.value != "" ==> NoticeFor(Replied(false, error)).message == error.value
    ensures error.None? || error == Some("") ==> NoticeFor(Replied(false, error)).message == FAILURE_FALLBACK
  {
  }

  /** The value of the first form control named `name` (the phone input is looked up by its name). */
  function FieldValue(fields: seq<(string, string)>, name: string): (r: Option<string>)
    ensures r.Some? ==> exists i :: 0 <= i < |fields| && fields[i] == (name, r.value) &&
                                    forall j :: 0 <= j < i ==> fields[j].0 != name
    ensures r.None? ==> forall i :: 0 <= i < |fields| ==> fields[i].0 != name
  {
    if |fields| == 0 then None
    else if fields[0].0 == name then Some(fields[0].1)
    else
      var r := FieldValue(fields[1..], name);
      assert forall i :: 1 <= i < |fields| ==> fields[i] == fields[1..][i - 1];
      if r.Some? then
        var k :| 0 <= k < |fields[1..]| && fields[1..][k] == (name, r.value) &&
                 forall j :: 0 <= j < k ==> fields[1..][j].0 != name;
        assert fields[k + 1] == (name, r.value) && forall j :: 0 <= j < k + 1 ==> fields[j].0 != name;
        r
      else r
  }

  /** `phoneInput?.value.trim() || ''`. */
  function PhoneValue(fields: seq<(string, string)>): string {
    Trim(FieldValue(fields, "phone").GetOr(""), JsSpace)
  }

  // ---------------------------------------------------------------
  // The form and its handler
  // ---------------------------------------------------------------

  /** The booking form, its phone error element, its submit button and the page-level state the handler touches. */
  class AppointmentFormUi {
    const action: string                     // appointmentForm.action
    const defaults: seq<(string, string)>    // the control values `reset()` restores
    var fields: seq<(string, string)>        // the named controls and their values, in document order
    var phoneClasses: set<string>            // phoneInput.classList
    var errorText: string                    // phoneError.textContent
    var errorShown: bool                     // phoneError.style.display == 'block'
    var phoneFocused: bool                   // phoneInput.focus() was called
    var buttonLabel: string                  // submitBtn.innerHTML
    var buttonDisabled: bool                 // submitBtn.disabled
    var bodyClasses: set<string>             // document.body.classList
    var backdrops: nat                       // number of `.modal-backdrop` elements
    const toast: Toasts.ToastRegion

    constructor (action: string, fields: seq<(string, string)>, buttonLabel: string, toast: Toasts.ToastRegion)
      ensures this.action == action && this.defaults == fields && this.fields == fields
      ensures this.buttonLabel == buttonLabel && !buttonDisabled && this.toast == toast
      ensures phoneClasses == {} && errorText == "" && !errorShown && !phoneFocused
      ensures bodyClasses == {} && backdrops == 0
    {
      this.action := action;
      this.defaults := fields;
      this.fields := fields;
      this.buttonLabel := buttonLabel;
      this.buttonDisabled := false;
      this.toast := toast;
      phoneClasses := {};
      errorText := "";
      errorShown := false;
      phoneFocused := false;
      bodyClasses := {};
      backdrops := 0;
    }

    /** The handler up to the request: validation, the CSRF token, the loading button. */
    method BeginSubmit(cookie: string, decode: string -> string) returns (pending: Option<Pending>)
      modifies this
      ensures var v := Verdict(PhoneValue(old(fields)));
        && (pending.Some? <==> v == Accepted)
        && phoneClasses == (if v == Accepted then old(phoneClasses) - {INVALID_CLASS} else old(phoneClasses) + {INVALID_CLASS})
        && errorShown == (v != Accepted)
        && errorText == (if v == Accepted then old(errorText) else ErrorMessage(v))
        && phoneFocused == (old(phoneFocused) || v != Accepted)
        && buttonLabel == (if v == Accepted then LOADING_LABEL else old(buttonLabel))
        && buttonDisabled == (v == Accepted || old(buttonDisabled))
      ensures pending.Some? ==>
                pending.value == Pending(old(buttonLabel), SubmitRequest(action, old(fields), Cookies.CookieValue(cookie, CSRF_COOKIE, decode)))
      ensures fields == old(fields) && bodyClasses == old(bodyClasses) && backdrops == old(backdrops)
    {
      var phoneValue := PhoneValue(fields);
      phoneClasses := phoneClasses - {INVALID_CLASS};
      errorShown := false;

      if phoneValue == "" {
        phoneClasses := phoneClasses + {INVALID_CLASS};
        errorText := EMPTY_PHONE_MESSAGE;
        errorShown := true;
        phoneFocused := true;
        return None;
      }

      if !MobilePattern(phoneValue) {
        phoneClasses := phoneClasses + {INVALID_CLASS};
        errorText := BAD_PHONE_MESSAGE;
        errorShown := true;
        phoneFocused := true;
        return None;
      }

      var originalText := buttonLabel;
      var csrfToken := Cookies.GetCookie(cookie, CSRF_COOKIE, decode);
      var request := SubmitRequest(action, fields, csrfToken);
      buttonLabel := LOADING_LABEL;
      buttonDisabled := true;
      pending := Some(Pending(originalText, request));
    }

    /** The handler after the request: modal clean-up on a parsed reply, the toast, the reset, and the `finally` block. */
    method Settle(p: Pending, outcome: Outcome)
      modifies this, toast
      ensures buttonLabel == p.originalLabel && !buttonDisabled
      ensures fields == (if outcome.Replied? && outcome.success then defaults else old(fields))
      ensures bodyClasses == (if Parsed(outcome) then old(bodyClasses) - {MODAL_OPEN_CLASS} else old(bodyClasses))
      ensures backdrops == (if Parsed(outcome) then 0 else old(backdrops))
      ensures toast.Ready() ==>
                toast.bodyText == NoticeFor(outcome).message &&
                toast.classes == Toasts.KindClasses(old(toast.classes), NoticeFor(outcome).kind)
      ensures !toast.Ready() ==> toast.bodyText == old(toast.bodyText) && toast.classes == old(toast.classes)
      ensures phoneClasses == old(phoneClasses) && errorText == old(errorText)
      ensures errorShown == old(errorShown) && phoneFocused == old(phoneFocused)
    {
      match outcome {
        case Replied(success, error) =>
          bodyClasses := bodyClasses - {MODAL_OPEN_CLASS};
          backdrops := 0;
          if success {
            toast.ShowToast("success", SUCCESS_MESSAGE);
            fields := defaults;
          } else {
            toast.ShowToast("error", FailureText(error));
          }
        case NullReply =>
          bodyClasses := bodyClasses - {MODAL_OPEN_CLASS};
          backdrops := 0;
          toast.ShowToast("error", RETRY_MESSAGE);
        case Thrown =>
          toast.ShowToast("error", RETRY_MESSAGE);
      }
      buttonLabel := p.originalLabel;
      buttonDisabled := false;
    }

    /** One submit event run to completion: the request, when one is made, settles to `outcome`. */
    method HandleSubmit(cookie: string, decode: string -> string, outcome: Outcome) returns (sent: Option<Request>)
      modifies this, toast
      ensures var v := Verdict(PhoneValue(old(fields)));
        && (sent.Some? <==> v == Accepted)
        && buttonLabel == old(buttonLabel)
        && buttonDisabled == (v != Accepted && old(buttonDisabled))
        && fields == (if v == Accepted && outcome.Replied? && outcome.success then defaults else old(fields))
      ensures sent.Some? ==> sent.value == SubmitRequest(action, old(fields), Cookies.CookieValue(cookie, CSRF_COOKIE, decode))
      // a rejected phone: the error is shown and nothing else on the page changes
      ensures sent.None? ==>
                && phoneClasses == old(phoneClasses) + {INVALID_CLASS}
                && errorText == ErrorMessage(Verdict(PhoneValue(old(fields)))) && errorShown && phoneFocused
                && bodyClasses == old(bodyClasses) && backdrops == old(backdrops)
                && toast.bodyText == old(toast.bodyText) && toast.classes == old(toast.classes)
      // an accepted phone: the error is cleared, the request settles and its toast is shown
      ensures sent.Some? ==>
                && phoneClasses == old(phoneClasses) - {INVALID_CLASS}
                && errorText == old(errorText) && !errorShown && phoneFocused == old(phoneFocused)
                && bodyClasses == (if Parsed(outcome) then old(bodyClasses) - {MODAL_OPEN_CLASS} else old(bodyClasses))
                && backdrops == (if Parsed(outcome) then 0 else old(backdrops))
                && (toast.Ready() ==>
                      toast.bodyText == NoticeFor(outcome).message &&
                      toast.classes == Toasts.KindClasses(old(toast.classes), NoticeFor(outcome).kind))
                && (!toast.Ready() ==> toast.bodyText == old(toast.bodyText) && toast.classes == old(toast.classes))
    {
      var pending := BeginSubmit(cookie, decode);
      match pending {
        case None =>
          sent := None;
        case Some(p) =>
          Settle(p, outcome);
          sent := Some(p.request);
      }
    }
  }
}
