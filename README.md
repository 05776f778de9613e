# Dentell clinic site — a Dafny model of its core

The site of a dental clinic: a one-page front end (navigation, service cards,
a booking form with a toast for the answer) and a Django back end that
receives the booking, filters spam, stores the appointment and formats the
phone for a Telegram notice. This project models the logic of that core.

Front end:
- `getCookie`, the reader of `document.cookie`.
- `showToast`.
- The navigation helpers: the navbar's `scrolled` class, `scrollToSection` and `setActiveNavLink`.
- The delayed check that marks the nav link of the section in view.
- The start-up order of main.js and of script.js.
- The service-card click.
- The booking form's submit handler, with its phone check, CSRF token, button state and toast.

Back end:
- The `chat_id` validators, in both of their copies.
- The `Appointment.phone` pattern.
- The `__str__` labels.
- The contact admin's short working hours and its permission hooks.
- `has_cyrillic` and `is_spam`.
- The reply of `create_appointment`.
- The phone rewrite to `+7XXXXXXXXXX`.

How the model is built:
- Modules follow the source files:
  - `Cookies`, `Toasts`, `Navigation`, `Boot` (main.js), `ServiceCards` and `Forms` for the front end;
  - `Models`, `Validators`, `Admin` and `Views` for the back end;
  - `Wrappers` (an `Option`) and `Text` (digits, the JavaScript and Python whitespace sets, trimming, splitting) are shared.
- DOM objects the scripts change in place are classes whose methods state their whole new state: nav links, the navbar, the toast, the booking modal and the booking form.
- Where a script uses the page as a lookup table, the model takes it as a value: `getElementById` is a map from id to box, and the cookie string is a string.
- Regular expressions are written out as predicates over the characters. Each predicate is checked against examples, among them the ones the source or its messages name.
- Several pieces of state and behaviour are parameters of the model rather than part of it:
  - `decodeURIComponent`;
  - the `SPAM_PATTERNS` search;
  - the Django form's validity;
  - `Contact.objects.exists()`;
  - the outcome of `fetch`.

## Model

| member | source | states |
|---|---|---|
| Cookies.GetCookie | static/js/script.js:9-22 | The loop returns the decoded rest of the first trimmed segment that starts with `name=`, with nothing for an empty cookie string, and agrees with `CookieValue`. |
| Cookies.FirstNamed | static/js/script.js:13-19 | Gives the index of the first segment named `name`; every earlier segment is named otherwise. |
| Cookies.FirstSegmentWins | static/js/script.js:15-17 | Once a segment matches, later segments do not change the value, even ones with the same name (the `break`). |
| Cookies.NoSegmentAbsent | static/js/script.js:10-21 | If no segment starts with `name=`, the result is `null`. |
| Cookies.OtherNameIgnored | static/js/script.js:15 | A cookie whose name merely begins with `name` (`csrftokenX` for `csrftoken`) is never taken for it, because the test includes the `=`. |
| Cookies.CookieAmidOthers | static/js/script.js:11-18 | In `a; b;  name=v; c` the value is `decode(v)`, whatever the padding before the segment. |
| Text.TrimSlice | static/js/script.js:14 | `trim()` keeps one contiguous slice: everything before and after it is whitespace, and it has no whitespace at either end. |
| Text.TrimIdempotent | static/js/script.js:14 | Trimming twice is trimming once. |
| Text.SubstringPrefix | static/js/script.js:15 | `substring(0, n+1) === name + '='` holds exactly when `name=` is a prefix. |
| Text.JoinSplit | static/js/script.js:12 | Joining the parts of `split(';')` with `;` gives the cookie string back. |
| Text.SplitJoin | static/js/script.js:12 | Splitting a `;`-joined list of parts free of `;` gives the parts back. |
| Toasts.ToastRegion.ShowToast | staticfiles/js/utils/toast.js:1-17 | With `#toast` and `.toast-body` present, the body text becomes the message and the toast carries exactly the colour class of the type. Otherwise nothing changes. |
| Toasts.KindClasses | staticfiles/js/utils/toast.js:16-17 | After remove-then-add, `bg-success` is present iff the type is `success`, `bg-danger` iff it is not, and no other class changes. |
| Toasts.KindClassesIdempotent | staticfiles/js/utils/toast.js:16-17 | Showing a toast of the same type again leaves the classes as they are. |
| Navigation.FirstLinkFor | static/js/modules/navigation.js:24 | `querySelector` picks the first link whose `data-section` is the id. |
| Navigation.Activate | static/js/modules/navigation.js:19-28 | After `setActiveNavLink(id)`, a link is active iff it is the first link for `id`. Apart from `active`, every link keeps its classes. |
| Navigation.SetActiveNavLink | static/js/modules/navigation.js:19-28 | The `forEach` that clears `active`, then the add, leave exactly the class lists `Activate` gives. |
| Navigation.AtMostOneActive | static/js/modules/navigation.js:19-28 | At most one link is active afterwards, and it carries the id. |
| Navigation.UnknownIdClearsAll | static/js/modules/navigation.js:24-27 | An id no link carries leaves every link inactive. |
| Navigation.ActivateIdempotent | static/js/modules/navigation.js:19-28 | Calling `setActiveNavLink(id)` twice is calling it once. |
| Navigation.ActivateLastWins | static/js/modules/navigation.js:19-28 | Of two calls in a row, only the last one matters. |
| Navigation.Navbar.OnScroll | static/js/modules/navigation.js:37-43 | `scrolled` is added past 10 pixels and removed otherwise. |
| Navigation.ScrolledFollowsLastEvent | static/js/modules/navigation.js:37-43 | After any series of scroll events, the navbar is `scrolled` iff the last event was past 10 pixels. No other class changes. |
| Navigation.ScrollToSection | static/js/modules/navigation.js:1-17 | An unknown id changes nothing and scrolls nowhere. Otherwise the target is the section's top less the navbar height, and the id's link is activated. |
| Boot.FirstInView | static/js/main.js:22-34 | Gives the first section in the order that exists and holds the probe; none before it does. |
| Boot.DetectedSectionSpec | static/js/main.js:18-35 | The detected section exists, holds `scrollY + 100`, and comes first among those that do. None is detected iff no section of `about`, `services`, `contact` holds the probe. |
| Boot.MissingSectionSkipped | static/js/main.js:24 | A missing section is skipped (`continue`) and the search goes on. |
| Boot.BoundaryBelongsToNextSection | static/js/main.js:29 | Boxes are half open, so a probe on a boundary belongs to the lower section. |
| Boot.UpdateActiveNavLink | static/js/script.js:319-340 | The loop activates the link of the detected section, or leaves every link as it was when none is detected. |
| Boot.MainJsStart | static/js/main.js:7-35 | The handler calls the five initialisers first, schedules the ScrollTrigger refresh only when ScrollTrigger is loaded, and schedules the section check last. |
| Boot.ScriptJsStart | static/js/script.js:307-340 | The section check is scheduled first, when the script runs; the handler's five initialisers follow, then the refresh when ScrollTrigger is loaded. |
| Boot.StartUpOrder | static/js/main.js:7-16 | main.js and script.js (307-317) both call navigation, animations, gallery, forms and service cards once each, in that order. The filter it reads them through keeps every initialiser call as often as it is made (Boot.InitialisersKeepCalls) and in the order made (Boot.InitialisersInOrder). |
| Boot.StartUpSteps | static/js/main.js:14-35 | main.js schedules the section check last; script.js (318-340) schedules it before everything else. The ScrollTrigger refresh is scheduled iff ScrollTrigger is loaded. |
| ServiceCards.ServiceName | staticfiles/js/modules/serviceCards.js:6 | The service name is empty without a title. With one, it is a slice of the title with only whitespace before and after it, and no whitespace at either end of its own. |
| ServiceCards.CommentFor | staticfiles/js/modules/serviceCards.js:10 | The comment is empty iff the service name is; otherwise it is the booking sentence followed by the name. |
| ServiceCards.CommentRoundTrip | staticfiles/js/modules/serviceCards.js:10 | The prefilled comment reads back as exactly the service name. An empty name gives an empty comment. |
| ServiceCards.ServiceOfInverse | staticfiles/js/modules/serviceCards.js:10 | Every comment that reads back as a name is the comment written for it. |
| ServiceCards.PaddingIgnored | staticfiles/js/modules/serviceCards.js:6-10 | A title padded with whitespace gives the same comment as the bare title. |
| ServiceCards.BookingModal.OnCardClick | staticfiles/js/modules/serviceCards.js:3-16 | A click inside a link or button changes nothing. Any other click writes the comment (when the textarea exists), shows the modal, and focuses the first-name input when it exists. |
| Forms.MobilePatternByLength | staticfiles/js/modules/forms.js:14 | `/^(\+7\|7\|8)?9\d{9}$/` accepts exactly 10 digits led by 9, 11 digits led by 7 or 8 then 9, or `+7` followed by 10 digits led by 9. |
| Forms.PhoneExamples | staticfiles/js/modules/forms.js:14 | Accepts `9991234567`, `79991234567`, `89991234567` and `+79991234567`. Rejects `+78991234567`, `+7912345678` and `123`. |
| Forms.Verdict | staticfiles/js/modules/forms.js:19-33 | The verdict is Missing iff the trimmed phone is empty, and Accepted iff it matches the pattern. |
| Forms.SubmitRequest | staticfiles/js/modules/forms.js:35-50 | The body is the form's entries followed by `csrfmiddlewaretoken`. The same token text, `"null"` when there is no cookie, goes into the `X-CSRFToken` header. |
| Forms.FieldValue | staticfiles/js/modules/forms.js:11-13 | The value of a control with the name, with no control of that name before it; none when no control has it. |
| Forms.NoticeColour | staticfiles/js/modules/forms.js:60-68 | The toast turns green exactly for a reply with `success: true`. A failed reply and a thrown error both turn it red. |
| Forms.FailureMessage | staticfiles/js/modules/forms.js:64 | A failed reply shows the server's error when it is a non-empty string, and the fallback text otherwise. |
| Forms.AppointmentFormUi.BeginSubmit | staticfiles/js/modules/forms.js:11-43 | An empty or malformed phone marks the input invalid, shows the matching message, focuses it and sends nothing. A valid phone clears the mark, captures the label, builds the request with the CSRF cookie, and disables the button with the loading label. |
| Forms.AppointmentFormUi.Settle | staticfiles/js/modules/forms.js:52-72 | A parsed reply clears `modal-open` and the backdrops, and so does a `null` reply before it throws. Success resets the fields. The toast follows `NoticeFor`, and the `finally` block restores the label and re-enables the button. |
| Forms.AppointmentFormUi.HandleSubmit | static/js/script.js:200-273 | A request is sent iff the phone is accepted, and it is the CSRF-bearing request of the old fields. A rejected phone marks the input invalid, shows and focuses the matching message, and leaves the button, the fields, the body classes, the backdrops and the toast as they were. An accepted phone clears the mark and the message; a parsed reply clears `modal-open` and the backdrops; the toast shows `NoticeFor(outcome)` when it exists; the fields are reset only after a successful reply; the label ends as it began and the button is enabled. |
| Models.ValidateTelegramChatId | clinic/models.py:8-11 | Passes iff the value matches `^-?\d+$`; otherwise it raises the model's message. |
| Models.ChatIdAccepts | clinic/models.py:10 | Every optional `-` followed by one or more digits, with or without the newline `$` tolerates, is accepted. |
| Models.ChatIdDecomposes | clinic/models.py:10 | Every accepted value is an optional `-`, then digits, then perhaps that newline. |
| Models.ChatIdCharacters | clinic/models.py:10 | Every character of an accepted value is a digit, except a leading `-` and a final newline. |
| Models.ChatIdRejects | clinic/models.py:10 | Rejects the empty value, a lone `-`, an inner `-`, letters, a space and `+`. Accepts a user id and a `-100…` group id. |
| Validators.ValidateTelegramChatId | clinic/validators.py:18-24 | Passes iff the value matches `^-?\d+$`; otherwise it raises this file's message. |
| Validators.SameVerdictAsModels | clinic/validators.py:18-24 | The two copies accept the same values and raise different messages. |
| Models.ClientPhoneAccepted | clinic/models.py:109 | Every phone the booking form lets through also matches the `Appointment.phone` pattern. |
| Models.TenDigitsGrouped | clinic/models.py:109 | Ten bare digits match the grouped part of the pattern. |
| Models.SuggestedFormatAccepted | clinic/models.py:109-110 | The format the error message suggests, `+7(912)345-67-89`, is accepted. |
| Models.BracketedCityNumberAccepted | clinic/models.py:109 | `(812) 123-45-67` is accepted without a prefix. |
| Models.SpaceAfterPrefixRejected | clinic/models.py:109 | `8 912 345 67 89` is rejected, because no separator may follow the prefix. |
| Models.MalformedGroupsRejected | clinic/models.py:109 | A short last group (`912-345-678`) and a doubled separator (`912  345 67 89`) are rejected. |
| Models.TelegramSettingsStr | clinic/models.py:26-27 | The label is the name, ` (`, the chat id and `)`, each in its place. |
| Models.SettingsLabelRoundTrip | clinic/models.py:26-27 | For a valid chat id, `name (chat_id)` splits back at its last ` (` into exactly the name and the chat id, whatever the name holds. |
| Models.AppointmentStr | clinic/models.py:118-119 | The label is the first name and a space, then the last name in its place, then ` - ` and the phone. |
| Models.AppointmentLabelRoundTrip | clinic/models.py:118-119 | A label reads back as exactly its first name, last name and phone (first space, last ` - `), whatever the last name holds, when the first name has no space and no ` - ` appears in the phone or where it meets the separator. |
| Models.LicenseStr | clinic/models.py:164-165 | A titled licence shows its title; an untitled one shows `Лицензия #` and then `None` exactly when it is unsaved. |
| Models.DecimalRoundTrip | clinic/models.py:165 | The digits `str(id)` writes read back as the id. |
| Models.UntitledLicenseLabels | clinic/models.py:164-165 | Untitled licences show `Лицензия #` and their id. Different ids give different labels. An unsaved licence shows `None`, unlike every saved one. |
| Admin.WorkingHoursShort | clinic/admin.py:71-75 | At most 30 characters are kept, and `...` is added exactly when the text was longer. The kept prefix is the text's own. |
| Admin.ShortIdempotent | clinic/admin.py:71-75 | Shortening a shortened text changes nothing. |
| Admin.ShortHidesTail | clinic/admin.py:73-74 | Long texts that agree on their first 30 characters look the same. |
| Admin.HasAddPermission | clinic/admin.py:46-48 | Adding is allowed iff no contact exists. |
| Admin.AtMostOneContact | clinic/admin.py:46-52 | "Only one record": from no contact or one, any series of add and delete requests, each carried out only when its hook allows it, ends with at most one contact and never fewer than at the start. |
| Admin.FirstAddCreates | clinic/admin.py:46-48 | From no contact, the record exists at the end exactly when an add was requested. |
| Admin.HasDeletePermission | clinic/admin.py:50-52 | Deleting is never allowed. |
| Views.StripNonDigits | clinic/views.py:124 | `re.sub(r'\D', '', phone)` keeps only digits and never lengthens the text. |
| Views.StripKeepsDigits | clinic/views.py:124 | Each digit occurs in the result exactly as often as in the phone, and no other character occurs at all. |
| Views.FormattedAsWritten | clinic/views.py:127-134 | Whenever the formatted text has 12 characters, it is `+7` and the last ten of at least ten digits. |
| Views.NormalizePhoneAsWritten | clinic/views.py:123-138 | The phone comes back unchanged, or as `+7` and ten digits: the last ten of its at least ten digits. |
| Views.AsWrittenExactly | clinic/views.py:123-138 | For every phone: the rewrite as written gives `+7` and the last ten digits exactly when the digits are eleven after a leading 8 or 7, or at least ten otherwise; in every other case the phone comes back unchanged. |
| Views.RewritesDiffer | clinic/views.py:127-134 | The rewrite as written and the corrected one differ exactly on phones with ten digits whose first digit is 8 or 7. |
| Views.GroupedDigitsAreTen | clinic/models.py:109 | A number matching the grouped part of the `Appointment.phone` pattern has exactly ten digits, led by the first digit of its first group. |
| Views.AppointmentPhoneDigits | clinic/models.py:109 | A phone the `Appointment` pattern accepts has ten digits, or eleven led by the 7 or 8 of its prefix. |
| Views.NormalizePhone | clinic/views.py:126-138 | (corrected) The phone comes back unchanged, or as `+7` and ten digits. |
| Views.CorrectedExactly | clinic/views.py:126-138 | (corrected) For every phone: the rewrite applies exactly when the digits are ten, or when the rewrite as written applies; otherwise the phone comes back unchanged. |
| Views.AppointmentPhoneNormalized | clinic/views.py:123-138 | (corrected) Every phone the `Appointment.phone` pattern accepts is rewritten to `+7` and its last ten digits. |
| Views.ClientPhoneNormalized | clinic/views.py:123-138 | Every phone the booking form lets through is rewritten the same way by both versions, to `+7` and its last ten digits. |
| Views.TenLedByEightRewrites | clinic/views.py:127-138 | Ten digits led by 8 come back unchanged from the rewrite as written, and as `+7` and the ten digits from the corrected one. |
| Views.CityNumberFallsBack | clinic/views.py:127-138 | `(812) 123-45-67` passes the `Appointment.phone` pattern, yet the rewrite as written returns it unchanged. The corrected rewrite gives `+7` and its ten digits. |
| Views.IsSpam | clinic/views.py:58-76 | Each rule alone makes a submission spam: fewer than four Russian letters in the stripped names, a non-blank comment without one, or a pattern hit. That nothing else does is Views.NotSpamWhen. |
| Views.CyrillicExamples | clinic/views.py:53-55 | `[а-яё]` with `re.IGNORECASE` takes both cases of ordinary letters and of `ё`. It rejects Latin `a`/`A`, digits, and Cyrillic letters outside Russian (`і`, `Ѣ`). |
| Views.HasCyrillicCount | clinic/views.py:53-55 | `re.search` finds a Russian letter exactly when `findall` counts at least one. |
| Views.CountStrip | clinic/views.py:60-62 | `strip()` removes no Russian letter. |
| Views.ShortCyrillicNameIsSpam | clinic/views.py:65-67 | Fewer than four Russian letters in first and last name together is spam, whatever the padding and the other fields. |
| Views.ForeignCommentIsSpam | clinic/views.py:69-70 | A non-blank comment with no Russian letter is spam. |
| Views.NotSpamWhen | clinic/views.py:58-76 | A submission passes exactly when there are at least four letters in the names, the comment is blank or has a letter, and the pattern search fails. |
| Views.CreateAppointment | clinic/views.py:81-105 | Success holds iff the submission is spam or the form is valid, and the appointment is saved iff it is not spam and the form is valid. Success answers 200 with no error. Failure answers 400 with the form error message. |
| Views.ClientSeesReply | clinic/views.py:82-86 | The booking form shows the same success toast for spam as for a booking, though only the booking was saved. A rejected form shows the server's text. |

## Left out

- The following are outside the model: GSAP, the OwlCarousel gallery, the animations and Bootstrap's `Modal`/`Toast` objects.
  - Showing, hiding and `getOrCreateInstance` are not modelled.
  - Only the state the scripts set by hand is modelled: classes, text, focus, backdrops.
- Timers, `DOMContentLoaded`, ScrollTrigger and the `async`/`await` scheduling are reduced to the order in which steps are called or scheduled (`Boot.Step`).
  - The form handler is split at its `await` into `BeginSubmit` and `Settle`.
- `window.scrollTo` is reduced to the target it is given. The smooth scrolling itself is not modelled.
- Scroll offsets and element boxes are integers; browsers may report fractional pixels.
- `decodeURIComponent` is an uninterpreted parameter, so its `URIError` on malformed input is not modelled.
  - staticfiles/js/utils/cookies.js is not part of this model. The copy of `getCookie` in static/js/script.js is modelled.
- The copies in static/js/script.js are modelled once, in the module of their first text:
  - `showToast` in `Toasts`;
  - the navigation helpers in `Navigation`;
  - the submit handler in `Forms`;
  - the service cards in `ServiceCards`.
- The form handler assumes that the phone input, `#phoneError` and the submit button exist, as the script does.
  - A page without them, which would throw there, is not modelled.
  - Neither is a page without `#appointmentModal`, or a reply whose body is not JSON at all (that is the `Thrown` outcome).
- `fetch`, the HTTP exchange and the JSON parse become the `Outcome` parameter.
  - A JSON `error` that is not a string is not modelled.
  - A JSON `null` body is the `NullReply` outcome: the modal clean-up runs, then `data.success` throws. A body that is a number, string or boolean reads `success` and `error` as undefined, so it is `Replied(false, None)`.
- These back-end operations are not part of the model:
  - the `home` view;
  - saving through Django's ORM; the model has the `saved` flag instead;
  - the Telegram HTTP requests in `send_telegram_notification`;
  - the Moscow time zone conversion and the message text.
  - Only the phone rewrite of that function is modelled.
- The `SPAM_PATTERNS` search (clinic/views.py:16-34) is the parameter `spamPattern`, applied to the lowercased text. The regular expressions it lists are not modelled.
- The form's validity is a parameter, so clinic/forms.py and the field constraints (`max_length`, `blank`) are not modelled. Neither is Django's stripping of `CharField` input.
- `validate_phone` in clinic/validators.py depends on the `phonenumbers` library and is not modelled.
- `photo_tag`, `image_tag` and the other admin display helpers produce HTML only and are not modelled.
- `ServiceCategoryAdmin.services_count` (clinic/admin.py:18-19) is a database count and is not modelled.
- The `console.error` and `console.warn` calls in toast.js, navigation.js, forms.js and static/js/script.js only log and are not modelled.
- Navigation.Activate matches any section id. `querySelector` builds a selector from the id, so an id containing `"` or `\` would throw a `SyntaxError` there; that case is not modelled. The page's own ids (`about`, `services`, `contact`) contain neither.
- `\d` and `\s` are read as ASCII digits and the Python whitespace set. Python's Unicode digits are not modelled.
- Views.Lower maps only ASCII and Cyrillic letters: `str.lower()` on other scripts is not modelled.
- Views.IsCyrillic follows `[а-яё]` under `re.IGNORECASE` for the Russian letters. The extra case folds Python's engine also applies (the Cyrillic letters U+1C80–U+1C88) are not modelled.
- Models.AppointmentLabelRoundTrip reads a label back only when the first name has no space and the phone holds no ` - `; other labels are ambiguous and are not read back.

## Findings

| source | as written | input that shows it | evidently intended | confidence | as-written member | corrected member |
|---|---|---|---|---|---|---|
| clinic/views.py:127-134 | The leading `8` and `7` tests run before the ten-digit test. For a number of exactly ten digits whose area code begins with 8 or 7, the 8 case drops the leading digit and the 7 case gets no country code. Either way the result has 11 characters, fails the length check, and the phone is sent unformatted. | `(812) 123-45-67`, which the `Appointment.phone` pattern accepts. Also `(727) 123-45-67`. | Every number the `Appointment` model accepts is turned into `+7` and its ten digits (`+78121234567`), as the comment on line 126 says. | medium, not executed | Views.NormalizePhoneAsWritten (counterexample Views.CityNumberFallsBack, characterised by Views.RewritesDiffer) | Views.NormalizePhone (Views.AppointmentPhoneNormalized) |
