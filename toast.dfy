/**
 * `showToast(type, message)` of staticfiles/js/utils/toast.js (its copy in
 * static/js/script.js has the same body): write the message into the
 * `.toast-body` of `#toast` and give the toast exactly one of the two colour
 * classes. Bootstrap's `Toast.show()` and the `console.error` lines are not
 * part of this model.
 */
module Toasts {

  const SUCCESS_CLASS := "bg-success"
  const DANGER_CLASS := "bg-danger"

  /** The class list of the toast after `remove('bg-success', 'bg-danger')` then `add(...)`. */
  function KindClasses(classes: set<string>, kind: string): (after: set<string>)
    ensures SUCCESS_CLASS in after <==> kind == "success"
    ensures DANGER_CLASS in after <==> kind != "success"
    ensures after - {SUCCESS_CLASS, DANGER_CLASS} == classes - {SUCCESS_CLASS, DANGER_CLASS}
  {
    (classes - {SUCCESS_CLASS, DANGER_CLASS}) + {if kind == "success" then SUCCESS_CLASS else DANGER_CLASS}
  }

  /** Showing a toast of the same kind again leaves the classes as they are. */
  lemma KindClassesIdempotent(classes: set<string>, kind: string)
    ensures KindClasses(KindClasses(classes, kind), kind) == KindClasses(classes, kind)
  {
  }

  /** The part of the page `showToast` looks up: `#toast` and its `.toast-body`. */
  class ToastRegion {
    const hasToast: bool      // document.getElementById('toast') is not null
    const hasBody: bool       // toastEl.querySelector('.toast-body') is not null
    var bodyText: string      // toastBody.innerText
    var classes: set<string>  // toastEl.classList

    constructor (hasToast: bool, hasBody: bool, bodyText: string, classes: set<string>)
      ensures this.hasToast == hasToast && this.hasBody == hasBody
      ensures this.bodyText == bodyText && this.classes == classes
    {
      this.hasToast := hasToast;
      this.hasBody := hasBody;
      this.bodyText := bodyText;
      this.classes := classes;
    }

    /** Both elements are present, so `showToast` gets past its two early returns. */
    predicate Ready()
      reads this
    {
      hasToast && hasBody
    }

    method ShowToast(kind: string, message: string)
      modifies this
      ensures Ready() ==> bodyText == message && classes == KindClasses(old(classes), kind)
      ensures !Ready() ==> bodyText == old(bodyText) && classes == old(classes)
    {
      if !hasToast {
        return;
      }
      if !hasBody {
        return;
      }
      bodyText := message;
      classes := classes - {SUCCESS_CLASS, DANGER_CLASS};
      classes := classes + {if kind == "success" then SUCCESS_CLASS else DANGER_CLASS};
    }
  }
}
