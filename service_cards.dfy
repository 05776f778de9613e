/**
 * The click handler of every `.service-card`, `initServiceCards` in
 * staticfiles/js/modules/serviceCards.js (static/js/script.js:280-301 has the
 * same body): clicks on a link or button inside the card are ignored;
 * otherwise the booking modal's comment is prefilled from the card's title,
 * the modal is shown and its first-name input focused.
 */
module ServiceCards {
  import opened Wrappers
  import opened Text

  const BOOKING_PREFIX := "Хочу записаться на: "

  /** `card.querySelector('.card-title')?.textContent?.trim() || ''`: `None` is a card without a title. */
  function ServiceName(title: Option<string>): (name: string)
    ensures title.None? ==> name == ""
    ensures title.Some? ==>
              exists i, j :: 0 <= i <= j <= |title.value| && name == title.value[i..j] &&
                             (forall k :: 0 <= k < i ==> JsSpace(title.value[k])) &&
                             (forall k :: j <= k < |title.value| ==> JsSpace(title.value[k]))
    ensures name == "" || (!JsSpace(name[0]) && !JsSpace(name[|name| - 1]))
  {
    match title
    case None => ""
    case Some(t) =>
      TrimSlice(t, JsSpace);
      Trim(t, JsSpace)
  }

  /** The comment written for a service name: the booking sentence, or empty when there is no name. */
  function CommentFor(serviceName: string): (comment: string)
    ensures comment == "" <==> serviceName == ""
    ensures serviceName != "" ==> BOOKING_PREFIX <= comment && comment[|BOOKING_PREFIX|..] == serviceName
  {
    if serviceName != "" then BOOKING_PREFIX + serviceName else ""
  }

  /** Reads the service name back out of a prefilled comment. */
  function ServiceOf(comment: string): Option<string> {
    if BOOKING_PREFIX <= comment && |comment| > |BOOKING_PREFIX| then Some(comment[|BOOKING_PREFIX|..]) else None
  }

  /** The comment names the service exactly: a non-empty name is read back, an empty one gives an empty comment. */
  lemma CommentRoundTrip(serviceName: string)
    ensures ServiceOf(CommentFor(serviceName)) == if serviceName == "" then None else Some(serviceName)
    ensures CommentFor(serviceName) == "" <==> serviceName == ""
  {
    if serviceName != "" {
      assert (BOOKING_PREFIX + serviceName)[|BOOKING_PREFIX|..] == serviceName;
    }
  }

  /** Every comment that reads back as a service name is the comment written for it. */
  lemma ServiceOfInverse(comment: string)
    requires ServiceOf(comment).Some?
    ensures CommentFor(ServiceOf(comment).value) == comment
  {
    var name := comment[|BOOKING_PREFIX|..];
    assert comment == comment[..|BOOKING_PREFIX|] + name;
  }

  /** A title padded with whitespace names the same service as the bare title. */
  lemma PaddingIgnored(lead: string, title: string)
    requires forall i :: 0 <= i < |lead| ==> JsSpace(lead[i])
    ensures CommentFor(ServiceName(Some(lead + title))) == CommentFor(ServiceName(Some(title)))
  {
    TrimAfterSpaces(lead, title, JsSpace);
  }

  /** The parts of the page a card click touches. */
  class BookingModal {
    const hasComment: bool      // `#appointmentModal textarea[name="comment"]` exists
    var comment: string         // its value
    var shown: bool             // the Bootstrap modal was shown
    const hasFirstName: bool    // `#appointmentModal input[name="first_name"]` exists
    var firstNameFocused: bool  // it received focus

    constructor (hasComment: bool, comment: string, hasFirstName: bool)
      ensures this.hasComment == hasComment && this.comment == comment && this.hasFirstName == hasFirstName
      ensures !shown && !firstNameFocused
    {
      this.hasComment := hasComment;
      this.comment := comment;
      this.hasFirstName := hasFirstName;
      shown := false;
      firstNameFocused := false;
    }

    /**
     * A click on a card whose title is `title`; `insideLinkOrButton` is
     * `e.target.closest('a, button')` being non-null.
     */
    method OnCardClick(insideLinkOrButton: bool, title: Option<string>)
      modifies this
      ensures insideLinkOrButton ==>
        comment == old(comment) && shown == old(shown) && firstNameFocused == old(firstNameFocused)
      ensures !insideLinkOrButton ==>
        comment == (if hasComment then CommentFor(ServiceName(title)) else old(comment)) &&
        shown && firstNameFocused == (old(firstNameFocused) || hasFirstName)
    {
      if insideLinkOrButton {
        return;
      }
      var serviceName := ServiceName(title);
      if hasComment {
        comment := if serviceName != "" then BOOKING_PREFIX + serviceName else "";
      }
      shown := true;
      if hasFirstName {
        firstNameFocused := true;
      }
    }
  }
}
