/**
 * clinic/views.py: the phone rewrite inside `send_telegram_notification`,
 * `has_cyrillic`, `is_spam`, and the reply `create_appointment` sends.
 * The `SPAM_PATTERNS` search is the parameter `spamPattern`, applied to the
 * lowercased text; whether the Django form is valid is the parameter
 * `formValid`. Saving, the Telegram posts and the time conversion are not
 * part of this model.
 */
module Views {
  import opened Wrappers
  import opened Text
  import Models
  import Forms

  // ---------------------------------------------------------------
  // Phone rewrite to +7XXXXXXXXXX
  // ---------------------------------------------------------------

  /** `re.sub(r'\D', '', phone)`: the digits of `s`, in order. */
  function StripNonDigits(s: string): (d: string)
    ensures AllDigits(d) && |d| <= |s|
  {
    if s == "" then ""
    else (if IsDigit(s[0]) then [s[0]] else []) + StripNonDigits(s[1..])
  }

  lemma {:induction false} StripConcat(a: string, b: string)
    ensures StripNonDigits(a + b) == StripNonDigits(a) + StripNonDigits(b)
    decreases |a|
  {
    if a != "" {
      assert (a + b)[0] == a[0];
      assert (a + b)[1..] == a[1..] + b;
      StripConcat(a[1..], b);
    } else {
      assert a + b == b;
    }
  }

  /** Every digit of `s` is kept, as often as it occurs, and nothing else. */
  lemma {:induction false} StripKeepsDigits(s: string)
    ensures forall c :: multiset(StripNonDigits(s))[c] == (if IsDigit(c) then multiset(s)[c] else 0)
    decreases |s|
  {
    if s != "" {
      StripKeepsDigits(s[1..]);
      assert s == [s[0]] + s[1..];
    }
  }

  lemma {:induction false} StripDigitsOnly(s: string)
    requires AllDigits(s)
    ensures StripNonDigits(s) == s
    decreases |s|
  {
    if s != "" {
      StripDigitsOnly(s[1..]);
      assert s == [s[0]] + s[1..];
    }
  }

  /** `cleaned_phone[-10:]`: the last ten characters, or all of them when there are fewer. */
  function LastTen(s: string): (r: string)
    ensures |r| == (if |s| < 10 then |s| else 10) && r == s[|s| - |r|..]
  {
    if |s| <= 10 then s else s[|s| - 10..]
  }

  /** `+7` followed by ten digits. */
  predicate International(r: string) {
    |r| == 12 && r[..2] == "+7" && AllDigits(r[2..])
  }

  /** `+7` and ten digits is international. */
  lemma PlusSevenTen(t: string)
    requires |t| == 10 && AllDigits(t)
    ensures International("+7" + t)
  {
    var r := "+7" + t;
    assert r[..2] == "+7" && r[2..] == t;
  }

  /**
   * `formatted`, as the view computes it from the digits: a leading `8` or `7`
   * is handled before the ten-digit case. Whenever it has the twelve
   * characters the view keeps, it is `+7` and the last ten of at least ten digits.
   */
  function FormattedAsWritten(cleaned: string): (f: string)
    ensures |f| == 12 ==> |cleaned| >= 10 && f == "+7" + LastTen(cleaned)
  {
    if "8" <= cleaned then "+7" + cleaned[1..]
    else if "7" <= cleaned then
      assert cleaned == "7" + cleaned[1..];
      "+" + cleaned
    else if |cleaned| == 10 then "+7" + cleaned
    else "+7" + LastTen(cleaned)
  }

  /**
   * `formatted` with the ten-digit case first, so that a ten-digit number
   * whose area code begins with 8 or 7 is not read as a trunk or country prefix.
   */
  function Formatted(cleaned: string): (f: string)
    ensures |f| == 12 ==> |cleaned| >= 10 && f == "+7" + LastTen(cleaned)
  {
    if |cleaned| == 10 then "+7" + cleaned
    else if "8" <= cleaned then "+7" + cleaned[1..]
    else if "7" <= cleaned then
      assert cleaned == "7" + cleaned[1..];
      "+" + cleaned
    else "+7" + LastTen(cleaned)
  }

  /** The two differ only on ten digits led by 8 or 7. */
  lemma FormattedAgree(cleaned: string)
    requires |cleaned| != 10 || !("8" <= cleaned || "7" <= cleaned)
    ensures FormattedAsWritten(cleaned) == Formatted(cleaned)
  {
  }

  /**
   * The rewrite as the view writes it. Either the phone comes back unchanged,
   * or it comes back as `+7` and the last ten of its (at least ten) digits.
   */
  function NormalizePhoneAsWritten(phone: string): (r: string)
    ensures r == phone || (|StripNonDigits(phone)| >= 10 && r == "+7" + LastTen(StripNonDigits(phone)))
    ensures r == phone || International(r)
  {
    var cleaned := StripNonDigits(phone);
    var formatted := FormattedAsWritten(cleaned);
    if |formatted| != 12 then phone
    else
      PlusSevenTen(LastTen(cleaned));
      formatted
  }

  /** The corrected rewrite, with the same two outcomes. */
  function NormalizePhone(phone: string): (r: string)
    ensures r == phone || (|StripNonDigits(phone)| >= 10 && r == "+7" + LastTen(StripNonDigits(phone)))
    ensures r == phone || International(r)
  {
    var cleaned := StripNonDigits(phone);
    var formatted := Formatted(cleaned);
    if |formatted| != 12 then phone
    else
      PlusSevenTen(LastTen(cleaned));
      formatted
  }

  /** The two rewrites differ exactly on phones with ten digits, the first of them 8 or 7. */
  lemma RewritesDiffer(phone: string)
    ensures var d := StripNonDigits(phone);
      NormalizePhoneAsWritten(phone) != NormalizePhone(phone) <==> |d| == 10 && (d[0] == '8' || d[0] == '7')
  {
    var d := StripNonDigits(phone);
    if |d| == 10 && (d[0] == '8' || d[0] == '7') {
      assert d[..1] == [d[0]];
      assert "8" <= d || "7" <= d;
      assert |FormattedAsWritten(d)| == 11;
      if phone == "+7" + d {
        StripConcat("+7", d);
        StripDigitsOnly(d);
      }
    } else {
      FormattedAgree(d);
    }
  }

  /** The digits start with a trunk `8` or a country `7`. */
  predicate LedBy78(d: string) {
    |d| > 0 && (d[0] == '8' || d[0] == '7')
  }

  /** When the view's rewrite applies: eleven digits after an `8` or `7`, at least ten digits otherwise. */
  predicate RewrittenAsWritten(d: string) {
    if LedBy78(d) then |d| == 11 else |d| >= 10
  }

  /** The view's rewrite, for every phone: when it applies, and what it gives then. */
  lemma AsWrittenExactly(phone: string)
    ensures var d := StripNonDigits(phone);
      NormalizePhoneAsWritten(phone) == (if RewrittenAsWritten(d) then "+7" + LastTen(d) else phone)
  {
    var d := StripNonDigits(phone);
    if LedBy78(d) {
      assert d[..1] == [d[0]];
    } else if d != "" {
      assert d[..1] == [d[0]];
      assert !("8" <= d) && !("7" <= d);
    }
  }

  /** The corrected rewrite also applies to every ten-digit number. */
  lemma CorrectedExactly(phone: string)
    ensures var d := StripNonDigits(phone);
      NormalizePhone(phone) == (if |d| == 10 || RewrittenAsWritten(d) then "+7" + LastTen(d) else phone)
  {
    var d := StripNonDigits(phone);
    if LedBy78(d) {
      assert d[..1] == [d[0]];
    } else if d != "" {
      assert d[..1] == [d[0]];
      assert !("8" <= d) && !("7" <= d);
    }
  }

  /** `\(?\d{3}\)?[\s\-]?\d{3}[\s\-]?\d{2}[\s\-]?\d{2}$` around its digits: the characters it allows besides them are not digits. */
  lemma SepIsNotDigit(c: char)
    requires Models.IsSep(c) || c == '(' || c == ')' || c == '\n'
    ensures !IsDigit(c)
  {
  }

  /** No digit between `i` and `j`. */
  predicate NoDigitsIn(s: string, i: nat, j: nat) {
    forall k :: i <= k < j && k < |s| ==> !IsDigit(s[k])
  }

  /** Skipping non-digits from `i` to `j` drops no digit. */
  lemma {:induction false} SkipNonDigits(s: string, i: nat, j: nat)
    requires i <= j <= |s|
    requires NoDigitsIn(s, i, j)
    ensures StripNonDigits(s[i..]) == StripNonDigits(s[j..])
    decreases j - i
  {
    if i < j {
      assert s[i..][1..] == s[i + 1..];
      SkipNonDigits(s, i + 1, j);
    }
  }

  /** A run of `n` digits at `i` is kept whole. */
  lemma {:induction false} KeepDigits(s: string, i: nat, n: nat)
    requires Models.DigitRun(s, i, n)
    ensures StripNonDigits(s[i..]) == s[i..i + n] + StripNonDigits(s[i + n..])
    decreases n
  {
    if n > 0 {
      var t := s[i..];
      assert t[0] == s[i] && IsDigit(t[0]) && t[1..] == s[i + 1..];
      assert StripNonDigits(t) == [s[i]] + StripNonDigits(s[i + 1..]);
      KeepDigits(s, i + 1, n - 1);
      assert s[i..i + n] == [s[i]] + s[i + 1..i + n];
    }
  }

  /** A group of `n` digits at `i` followed by non-digits up to `j`. */
  lemma GroupStep(s: string, i: nat, n: nat, j: nat)
    requires Models.DigitRun(s, i, n) && i + n <= j <= |s|
    requires NoDigitsIn(s, i + n, j)
    ensures StripNonDigits(s[i..]) == s[i..i + n] + StripNonDigits(s[j..])
  {
    KeepDigits(s, i, n);
    SkipNonDigits(s, i + n, j);
  }

  /** The separators between groups hold no digit. */
  lemma SepGap(s: string, i: nat)
    ensures NoDigitsIn(s, i, Models.SkipSep(s, i))
  {
    if i < |s| && Models.IsSep(s[i]) {
      SepIsNotDigit(s[i]);
    }
  }

  /** The closing bracket and separator after the first group hold no digit. */
  lemma BracketGap(s: string, i: nat)
    ensures NoDigitsIn(s, i, Models.SkipSep(s, Models.SkipChar(s, i, ')')))
  {
    var m := Models.SkipChar(s, i, ')');
    SepGap(s, m);
  }

  /** The optional opening bracket is not a digit. */
  lemma OpeningGap(s: string)
    ensures NoDigitsIn(s, 0, Models.SkipChar(s, 0, '('))
  {
  }

  /** What `$` allows after the last group is not a digit. */
  lemma EndGap(s: string, i: nat)
    requires Models.AtEnd(s, i)
    ensures NoDigitsIn(s, i, |s|)
  {
  }

  /** The last two groups, of two digits each, with only non-digits between and after them. */
  lemma LastTwoGroups(s: string, c: nat, d: nat)
    requires Models.DigitRun(s, c, 2) && c + 2 <= d && NoDigitsIn(s, c + 2, d) && Models.DigitRun(s, d, 2)
    requires NoDigitsIn(s, d + 2, |s|)
    ensures |StripNonDigits(s[c..])| == 4
  {
    assert s[|s|..] == "";
    GroupStep(s, d, 2, |s|);
    GroupStep(s, c, 2, d);
  }

  /** The last three groups. */
  lemma LastThreeGroups(s: string, b: nat, c: nat, d: nat)
    requires Models.DigitRun(s, b, 3) && b + 3 <= c && NoDigitsIn(s, b + 3, c)
    requires Models.DigitRun(s, c, 2) && c + 2 <= d && NoDigitsIn(s, c + 2, d) && Models.DigitRun(s, d, 2)
    requires NoDigitsIn(s, d + 2, |s|)
    ensures |StripNonDigits(s[b..])| == 7
  {
    LastTwoGroups(s, c, d);
    GroupStep(s, b, 3, c);
  }

  /** Four groups of 3, 3, 2 and 2 digits with only non-digits around them make ten digits. */
  lemma FourGroups(s: string, a: nat, b: nat, c: nat, d: nat)
    requires a <= 1 && NoDigitsIn(s, 0, a) && Models.DigitRun(s, a, 3)
    requires a + 3 <= b && NoDigitsIn(s, a + 3, b) && Models.DigitRun(s, b, 3)
    requires b + 3 <= c && NoDigitsIn(s, b + 3, c) && Models.DigitRun(s, c, 2)
    requires c + 2 <= d && NoDigitsIn(s, c + 2, d) && Models.DigitRun(s, d, 2)
    requires NoDigitsIn(s, d + 2, |s|)
    ensures |StripNonDigits(s)| == 10 && StripNonDigits(s)[0] == s[a]
  {
    LastThreeGroups(s, b, c, d);
    GroupStep(s, a, 3, b);
    SkipNonDigits(s, 0, a);
    assert s[0..] == s;
  }

  /** A number in groups has exactly ten digits, the first of them the first of its first group. */
  lemma GroupedDigitsAreTen(s: string)
    requires Models.GroupedDigits(s)
    ensures |StripNonDigits(s)| == 10 && StripNonDigits(s)[0] == s[Models.SkipChar(s, 0, '(')]
  {
    var a := Models.SkipChar(s, 0, '(');
    var b := Models.SkipSep(s, Models.SkipChar(s, a + 3, ')'));
    var c := Models.SkipSep(s, b + 3);
    var d := Models.SkipSep(s, c + 2);
    OpeningGap(s);
    BracketGap(s, a + 3);
    SepGap(s, b + 3);
    SepGap(s, c + 2);
    EndGap(s, d + 2);
    FourGroups(s, a, b, c, d);
  }

  /** The digits of a phone the `Appointment` pattern accepts: ten, or eleven led by the `7` or `8` of its prefix. */
  lemma AppointmentPhoneDigits(phone: string)
    requires Models.AppointmentPhoneOk(phone)
    ensures TenOrPrefixed(StripNonDigits(phone))
  {
    if Models.GroupedDigits(phone) {
      GroupedDigitsAreTen(phone);
    } else if "+7" <= phone && Models.GroupedDigits(phone[2..]) {
      GroupedDigitsAreTen(phone[2..]);
      assert phone[0..] == phone;
      SkipNonDigits(phone, 0, 1);
      KeepDigits(phone, 1, 1);
    } else {
      GroupedDigitsAreTen(phone[1..]);
      assert phone[0..] == phone;
      KeepDigits(phone, 0, 1);
    }
  }

  /** Ten digits, or eleven led by a `7` or an `8`. */
  predicate TenOrPrefixed(d: string) {
    |d| == 10 || (|d| == 11 && (d[0] == '7' || d[0] == '8'))
  }

  /** Eleven digits led by `8` or `7` are formatted as `+7` and the ten after the prefix. */
  lemma ElevenFormatted(d: string)
    requires |d| == 11 && (d[0] == '8' || d[0] == '7')
    ensures Formatted(d) == "+7" + LastTen(d)
  {
    assert d[..1] == [d[0]];
  }

  /** A phone with ten digits, or eleven led by a trunk or country prefix, is rewritten to `+7` and the last ten. */
  lemma PrefixedTenRewritten(phone: string)
    requires TenOrPrefixed(StripNonDigits(phone))
    ensures NormalizePhone(phone) == "+7" + LastTen(StripNonDigits(phone))
    ensures International(NormalizePhone(phone))
  {
    var d := StripNonDigits(phone);
    if |d| == 11 {
      ElevenFormatted(d);
    }
  }

  /** Every phone the `Appointment` pattern accepts is rewritten to `+7` and its last ten digits. */
  lemma AppointmentPhoneNormalized(phone: string)
    requires Models.AppointmentPhoneOk(phone)
    ensures NormalizePhone(phone) == "+7" + LastTen(StripNonDigits(phone))
    ensures International(NormalizePhone(phone))
  {
    AppointmentPhoneDigits(phone);
    PrefixedTenRewritten(phone);
  }

  /** The digits of a phone the booking form lets through: the mobile number, led by its `7` or `8` if it has one. */
  lemma MobileDigits(phone: string)
    requires Forms.MobilePattern(phone)
    ensures var d := StripNonDigits(phone);
      (|d| == 10 && d[0] == '9') || (|d| == 11 && (d[0] == '7' || d[0] == '8'))
  {
    if Forms.MobileTail(phone) {
      StripDigitsOnly(phone);
    } else {
      var n := if "+7" <= phone then 2 else 1;
      var p, t := phone[..n], phone[n..];
      assert phone == p + t;
      StripConcat(p, t);
      StripDigitsOnly(t);
      if n == 2 {
        assert p == "+" + "7";
        StripConcat("+", "7");
      }
    }
  }

  /** Every phone the booking form lets through is rewritten correctly by the view as written too. */
  lemma ClientPhoneNormalized(phone: string)
    requires Forms.MobilePattern(phone)
    ensures NormalizePhoneAsWritten(phone) == NormalizePhone(phone) == "+7" + LastTen(StripNonDigits(phone))
  {
    MobileDigits(phone);
    RewritesDiffer(phone);
    PrefixedTenRewritten(phone);
  }

  /** Ten digits led by 8 lose their first digit in the rewrite as written, and are kept whole by the corrected one. */
  lemma TenLedByEight(d: string)
    requires |d| == 10 && d[0] == '8'
    ensures |FormattedAsWritten(d)| == 11
    ensures Formatted(d) == "+7" + d
  {
    assert d[..1] == "8";
  }

  /**
   * A phone with ten digits led by 8 comes back unchanged from the rewrite
   * as written, and as `+7` and its ten digits from the corrected one.
   */
  lemma TenLedByEightRewrites(phone: string)
    requires |StripNonDigits(phone)| == 10 && StripNonDigits(phone)[0] == '8'
    ensures NormalizePhoneAsWritten(phone) == phone
    ensures NormalizePhone(phone) == "+7" + StripNonDigits(phone)
  {
    TenLedByEight(StripNonDigits(phone));
  }

  /**
   * A St Petersburg number written as the `Appointment` pattern allows it,
   * "(812) 123-45-67", comes back unchanged from the rewrite as written,
   * while the corrected rewrite gives `+7` and its ten digits.
   */
  lemma CityNumberFallsBack(phone: string)
    requires phone == "(812) 123-45-67"
    ensures Models.AppointmentPhoneOk(phone)
    ensures NormalizePhoneAsWritten(phone) == phone
    ensures NormalizePhone(phone) == "+7" + StripNonDigits(phone) && International(NormalizePhone(phone))
  {
    Models.BracketedCityNumberAccepted();
    GroupedDigitsAreTen(phone);
    assert Models.SkipChar(phone, 0, '(') == 1 && phone[1] == '8';
    TenLedByEightRewrites(phone);
    PlusSevenTen(StripNonDigits(phone));
  }

  // ---------------------------------------------------------------
  // Cyrillic letters and the spam check
  // ---------------------------------------------------------------

  /** `[а-яё]` under `re.IGNORECASE`: the 33 lower-case Russian letters and their capitals. */
  predicate IsCyrillic(c: char) {
    ('а' <= c <= 'я') || c == 'ё' || ('А' <= c <= 'Я') || c == 'Ё'
  }

  /** The range `а-я` leaves out `ё`, which the class adds; Latin letters, digits and other Cyrillic letters are not in it. */
  lemma CyrillicExamples()
    ensures IsCyrillic('ж') && IsCyrillic('Ж') && IsCyrillic('ё') && IsCyrillic('Ё')
    ensures !IsCyrillic('a') && !IsCyrillic('A') && !IsCyrillic('7') && !IsCyrillic('і') && !IsCyrillic('Ѣ')
  {
  }

  /** `has_cyrillic(text)`: `re.search` finds a letter. */
  predicate HasCyrillic(text: string) {
    exists i :: 0 <= i < |text| && IsCyrillic(text[i])
  }

  /** `len(re.findall(r'[а-яё]', text, re.IGNORECASE))`. */
  function CountCyrillic(text: string): (n: nat)
    ensures n <= |text|
  {
    if text == "" then 0 else (if IsCyrillic(text[0]) then 1 else 0) + CountCyrillic(text[1..])
  }

  /** Searching finds a letter exactly when counting counts one. */
  lemma {:induction false} HasCyrillicCount(text: string)
    ensures HasCyrillic(text) <==> CountCyrillic(text) > 0
    decreases |text|
  {
    if text != "" {
      HasCyrillicCount(text[1..]);
      if HasCyrillic(text[1..]) {
        var i :| 0 <= i < |text[1..]| && IsCyrillic(text[1..][i]);
        assert IsCyrillic(text[i + 1]);
      }
      if HasCyrillic(text) && !IsCyrillic(text[0]) {
        var i :| 0 <= i < |text| && IsCyrillic(text[i]);
        assert text[1..][i - 1] == text[i];
      }
    }
  }

  lemma {:induction false} CountConcat(a: string, b: string)
    ensures CountCyrillic(a + b) == CountCyrillic(a) + CountCyrillic(b)
    decreases |a|
  {
    if a != "" {
      assert (a + b)[0] == a[0];
      assert (a + b)[1..] == a[1..] + b;
      CountConcat(a[1..], b);
    } else {
      assert a + b == b;
    }
  }

  lemma {:induction false} CountNone(s: string)
    requires forall i :: 0 <= i < |s| ==> !IsCyrillic(s[i])
    ensures CountCyrillic(s) == 0
    decreases |s|
  {
    if s != "" {
      CountNone(s[1..]);
    }
  }

  /** Whitespace next to a text adds no letter to it. */
  lemma CountBesideSpaces(spaces: string, t: string)
    requires forall k :: 0 <= k < |spaces| ==> PySpace(spaces[k])
    ensures CountCyrillic(spaces + t) == CountCyrillic(t)
    ensures CountCyrillic(t + spaces) == CountCyrillic(t)
  {
    CountConcat(spaces, t);
    CountConcat(t, spaces);
    CountNone(spaces);
  }

  lemma CountTrimStart(s: string)
    ensures CountCyrillic(TrimStart(s, PySpace)) == CountCyrillic(s)
  {
    var t := TrimStart(s, PySpace);
    TrimStartSpec(s, PySpace);
    var lead := s[..|s| - |t|];
    assert s == lead + t;
    CountBesideSpaces(lead, t);
  }

  lemma CountTrimEnd(s: string)
    ensures CountCyrillic(TrimEnd(s, PySpace)) == CountCyrillic(s)
  {
    var t := TrimEnd(s, PySpace);
    TrimEndSpec(s, PySpace);
    var trail := s[|t|..];
    assert s == t + trail;
    CountBesideSpaces(trail, t);
  }

  /** Stripping whitespace removes no letter. */
  lemma CountStrip(s: string)
    ensures CountCyrillic(Trim(s, PySpace)) == CountCyrillic(s)
  {
    CountTrimStart(s);
    CountTrimEnd(TrimStart(s, PySpace));
  }

  /** The form fields `is_spam` reads; `None` is a field that is missing or `None`. */
  datatype Submission = Submission(firstName: Option<string>, lastName: Option<string>,
                                   comment: Option<string>, phone: Option<string>)

  /** `(data.get(key) or '').strip()`. */
  function Field(value: Option<string>): string {
    Trim(value.GetOr(""), PySpace)
  }

  /** `str.lower()` on ASCII and Cyrillic capitals; other characters are left as they are. */
  function LowerChar(c: char): char {
    if 'A' <= c <= 'Z' || 'А' <= c <= 'Я' then ((c as int) + 32) as char
    else if '\U{0400}' <= c <= '\U{040F}' then ((c as int) + 80) as char
    else c
  }

  function Lower(s: string): (r: string)
    ensures |r| == |s| && forall i :: 0 <= i < |s| ==> r[i] == LowerChar(s[i])
  {
    seq(|s|, i requires 0 <= i < |s| => LowerChar(s[i]))
  }

  /** `f"{first_name} {last_name} {comment} {phone}".lower()`. */
  function FullText(d: Submission): string {
    Lower(Field(d.firstName) + " " + Field(d.lastName) + " " + Field(d.comment) + " " + Field(d.phone))
  }

  /** `is_spam(data)`: three tests in order, each of which marks the submission as spam. */
  function IsSpam(d: Submission, spamPattern: string -> bool): (spam: bool)
    ensures CountCyrillic(Field(d.firstName) + Field(d.lastName)) < 4 ==> spam
    ensures Field(d.comment) != "" && !HasCyrillic(Field(d.comment)) ==> spam
    ensures spamPattern(FullText(d)) ==> spam
  {
    if CountCyrillic(Field(d.firstName) + Field(d.lastName)) < 4 then true
    else if Field(d.comment) != "" && !HasCyrillic(Field(d.comment)) then true
    else if spamPattern(FullText(d)) then true
    else false
  }

  /** Fewer than four Cyrillic letters in the first and last name together is spam, whatever the padding and the rest. */
  lemma ShortCyrillicNameIsSpam(d: Submission, spamPattern: string -> bool)
    requires CountCyrillic(d.firstName.GetOr("")) + CountCyrillic(d.lastName.GetOr("")) < 4
    ensures IsSpam(d, spamPattern)
  {
    CountConcat(Field(d.firstName), Field(d.lastName));
    CountStrip(d.firstName.GetOr(""));
    CountStrip(d.lastName.GetOr(""));
  }

  /** A comment that is not blank but has no Cyrillic letter is spam. */
  lemma ForeignCommentIsSpam(d: Submission, spamPattern: string -> bool)
    requires Field(d.comment) != "" && CountCyrillic(d.comment.GetOr("")) == 0
    ensures IsSpam(d, spamPattern)
  {
    CountStrip(d.comment.GetOr(""));
    HasCyrillicCount(Field(d.comment));
  }

  /** A submission passes exactly when all three tests pass. */
  lemma NotSpamWhen(d: Submission, spamPattern: string -> bool)
    ensures !IsSpam(d, spamPattern) <==>
      CountCyrillic(d.firstName.GetOr("")) + CountCyrillic(d.lastName.GetOr("")) >= 4 &&
      (Field(d.comment) == "" || CountCyrillic(d.comment.GetOr("")) > 0) &&
      !spamPattern(FullText(d))
  {
    CountConcat(Field(d.firstName), Field(d.lastName));
    CountStrip(d.firstName.GetOr(""));
    CountStrip(d.lastName.GetOr(""));
    CountStrip(d.comment.GetOr(""));
    HasCyrillicCount(Field(d.comment));
  }

  // ---------------------------------------------------------------
  // create_appointment's reply
  // ---------------------------------------------------------------

  const FORM_ERROR_MESSAGE := "Пожалуйста, исправьте ошибки в форме"

  /** The JSON reply and its status, and whether the appointment was saved. */
  datatype Reply = Reply(status: int, success: bool, error: Option<string>, saved: bool)

  /** `create_appointment`: spam is answered as a success and not saved; an invalid form gets a 400 with the error text. */
  function CreateAppointment(d: Submission, spamPattern: string -> bool, formValid: bool): (r: Reply)
    ensures r.success <==> IsSpam(d, spamPattern) || formValid
    ensures r.saved <==> !IsSpam(d, spamPattern) && formValid
    ensures r.status == (if r.success then 200 else 400)
    ensures r.error == (if r.success then None else Some(FORM_ERROR_MESSAGE))
  {
    if IsSpam(d, spamPattern) then Reply(200, true, None, false)
    else if formValid then Reply(200, true, None, true)
    else Reply(400, false, Some(FORM_ERROR_MESSAGE), false)
  }

  /**
   * The booking form cannot tell spam from a booking: both show the success
   * toast and reset the form, though only the booking was saved. A rejected
   * form shows the server's error text.
   */
  lemma ClientSeesReply(d: Submission, spamPattern: string -> bool, formValid: bool)
    ensures var r := CreateAppointment(d, spamPattern, formValid);
      Forms.NoticeFor(Forms.Replied(r.success, r.error)) ==
        (if r.success then Forms.Notice("success", Forms.SUCCESS_MESSAGE) else Forms.Notice("error", FORM_ERROR_MESSAGE))
    ensures IsSpam(d, spamPattern) ==>
      var r := CreateAppointment(d, spamPattern, formValid);
      Forms.NoticeFor(Forms.Replied(r.success, r.error)).kind == "success" && !r.saved
  {
  }
}
