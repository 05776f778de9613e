/**
 * clinic/models.py: the `chat_id` validator, the `Appointment.phone`
 * pattern, and the `__str__` of `TelegramSettings`, `Appointment` and
 * `License`. Patterns are written out as predicates over the characters;
 * `\d` is an ASCII digit and `\s` a Python whitespace character.
 */
module Models {
  import opened Wrappers
  import opened Text
  import Forms

  /** A Django validator's two outcomes: it returns, or it raises `ValidationError(message)`. */
  datatype Check = Pass | Raise(message: string)

  // ---------------------------------------------------------------
  // ^-?\d+$
  // ---------------------------------------------------------------

  /** `$` matches at the end or just before a final newline: the text the pattern body must cover. */
  function BeforeEnd(s: string): (r: string)
    ensures |r| <= |s|
  {
    if |s| > 0 && s[|s| - 1] == '\n' then s[..|s| - 1] else s
  }

  /** The text after the optional leading `-`. */
  function Unsigned(s: string): (r: string)
    ensures |r| <= |s|
  {
    if |s| > 0 && s[0] == '-' then s[1..] else s
  }

  /** `re.match(r'^-?\d+$', value)` succeeds. */
  predicate ChatIdOk(value: string) {
    var d := Unsigned(BeforeEnd(value));
    d != "" && AllDigits(d)
  }

  /** A string of the pattern's language: sign, digits and the newline `$` tolerates. */
  function ChatIdText(negative: bool, digits: string, newline: bool): string {
    (if negative then "-" else "") + digits + (if newline then "\n" else "")
  }

  /** Every optional sign followed by one or more digits is accepted. */
  lemma ChatIdAccepts(negative: bool, digits: string, newline: bool)
    requires digits != "" && AllDigits(digits)
    ensures ChatIdOk(ChatIdText(negative, digits, newline))
  {
    var s := ChatIdText(negative, digits, newline);
    var body := (if negative then "-" else "") + digits;
    assert BeforeEnd(s) == body;
    assert Unsigned(body) == digits;
  }

  /** Every accepted value is an optional sign followed by one or more digits (and perhaps the final newline). */
  lemma ChatIdDecomposes(value: string)
    requires ChatIdOk(value)
    ensures var nl := |value| > 0 && value[|value| - 1] == '\n';
      var neg := |BeforeEnd(value)| > 0 && BeforeEnd(value)[0] == '-';
      value == ChatIdText(neg, Unsigned(BeforeEnd(value)), nl)
  {
    var b := BeforeEnd(value);
    if |b| > 0 && b[0] == '-' {
      assert b == "-" + b[1..];
    }
    if |value| > 0 && value[|value| - 1] == '\n' {
      assert value == b + "\n";
    }
  }

  /** In an accepted value every character is a digit, except a leading `-` and the final newline. */
  lemma ChatIdCharacters(value: string, i: nat)
    requires ChatIdOk(value) && i < |value|
    ensures IsDigit(value[i]) || (i == 0 && value[i] == '-') || (i == |value| - 1 && value[i] == '\n')
  {
    var b := BeforeEnd(value);
    var d := Unsigned(b);
    if i < |b| {
      assert b[i] == value[i];
      if |b| > 0 && b[0] == '-' && i > 0 {
        assert d[i - 1] == b[i];
      }
    }
  }

  /** Values the validator rejects: empty, a lone sign, an inner sign, a letter, a space, a plus. */
  lemma ChatIdRejects()
    ensures !ChatIdOk("") && !ChatIdOk("-") && !ChatIdOk("1-2") && !ChatIdOk("12a")
    ensures !ChatIdOk(" 12") && !ChatIdOk("+12") && !ChatIdOk("--12")
    ensures ChatIdOk("123456") && ChatIdOk("-1001234567890")
  {
    assert Unsigned(BeforeEnd("1-2"))[1] == '-';
    assert Unsigned(BeforeEnd("12a"))[2] == 'a';
    assert Unsigned(BeforeEnd(" 12"))[0] == ' ';
    assert Unsigned(BeforeEnd("+12"))[0] == '+';
    assert Unsigned(BeforeEnd("--12"))[0] == '-';
  }

  const CHAT_ID_MESSAGE := "Некорректный формат chat_id. Должен содержать только цифры и знак минуса."

  /** `validate_telegram_chat_id` of clinic/models.py. */
  function ValidateTelegramChatId(value: string): (r: Check)
    ensures r == Pass <==> ChatIdOk(value)
    ensures r.Raise? ==> r.message == CHAT_ID_MESSAGE
  {
    if !ChatIdOk(value) then Raise(CHAT_ID_MESSAGE) else Pass
  }

  // ---------------------------------------------------------------
  // ^(\+7|7|8)?\(?\d{3}\)?[\s\-]?\d{3}[\s\-]?\d{2}[\s\-]?\d{2}$
  // ---------------------------------------------------------------

  /** `[\s\-]`. */
  predicate IsSep(c: char) {
    PySpace(c) || c == '-'
  }

  /** Position after an optional `c` at `i`. */
  function SkipChar(s: string, i: nat, c: char): (j: nat)
    ensures j == i || (j == i + 1 && i < |s| && s[i] == c)
  {
    if i < |s| && s[i] == c then i + 1 else i
  }

  /** Position after an optional separator at `i`. */
  function SkipSep(s: string, i: nat): (j: nat)
    ensures j == i || (j == i + 1 && i < |s| && IsSep(s[i]))
  {
    if i < |s| && IsSep(s[i]) then i + 1 else i
  }

  /** `\d{n}` at position `i`. */
  predicate DigitRun(s: string, i: nat, n: nat) {
    i + n <= |s| && forall k :: i <= k < i + n ==> IsDigit(s[k])
  }

  /** `$` at position `i`. */
  predicate AtEnd(s: string, i: nat) {
    i == |s| || (i + 1 == |s| && s[i] == '\n')
  }

  /**
   * `\(?\d{3}\)?[\s\-]?\d{3}[\s\-]?\d{2}[\s\-]?\d{2}$` from the start of `s`.
   * Each optional character is a non-digit that must be followed by a digit
   * or by an optional character of another class, so taking it whenever it
   * is present is the only way the pattern can match.
   */
  predicate GroupedDigits(s: string) {
    var a := SkipChar(s, 0, '(');
    DigitRun(s, a, 3) &&
    var b := SkipSep(s, SkipChar(s, a + 3, ')'));
    DigitRun(s, b, 3) &&
    var c := SkipSep(s, b + 3);
    DigitRun(s, c, 2) &&
    var d := SkipSep(s, c + 2);
    DigitRun(s, d, 2) && AtEnd(s, d + 2)
  }

  /** The `Appointment.phone` pattern, one disjunct per choice of the optional prefix. */
  predicate AppointmentPhoneOk(s: string) {
    GroupedDigits(s) ||
    ("+7" <= s && GroupedDigits(s[2..])) ||
    ("7" <= s && GroupedDigits(s[1..])) ||
    ("8" <= s && GroupedDigits(s[1..]))
  }

  /** Ten bare digits are a grouped number with no brackets and no separators. */
  lemma TenDigitsGrouped(t: string)
    requires |t| == 10 && AllDigits(t)
    ensures GroupedDigits(t)
  {
    assert SkipChar(t, 0, '(') == 0;
    assert SkipChar(t, 3, ')') == 3 && SkipSep(t, 3) == 3;
    assert SkipSep(t, 6) == 6 && SkipSep(t, 8) == 8;
  }

  /** Every phone the booking form lets through is accepted by the model's validator. */
  lemma ClientPhoneAccepted(s: string)
    requires Forms.MobilePattern(s)
    ensures AppointmentPhoneOk(s)
  {
    if Forms.MobileTail(s) {
      TenDigitsGrouped(s);
    } else if "+7" <= s && Forms.MobileTail(s[2..]) {
      TenDigitsGrouped(s[2..]);
    } else {
      TenDigitsGrouped(s[1..]);
    }
  }

  /** The format the validator's message suggests. */
  lemma SuggestedFormatAccepted()
    ensures AppointmentPhoneOk("+7(912)345-67-89")
  {
    var s := "+7(912)345-67-89";
    var t := s[2..];
    assert s[..2] == "+7" && t == "(912)345-67-89";
    assert SkipChar(t, 0, '(') == 1 && DigitRun(t, 1, 3);
    assert SkipChar(t, 4, ')') == 5 && SkipSep(t, 5) == 5 && DigitRun(t, 5, 3);
    assert SkipSep(t, 8) == 9 && DigitRun(t, 9, 2);
    assert SkipSep(t, 11) == 12 && DigitRun(t, 12, 2);
  }

  /** A city number in brackets with mixed separators and no prefix. */
  lemma BracketedCityNumberAccepted()
    ensures GroupedDigits("(812) 123-45-67") && AppointmentPhoneOk("(812) 123-45-67")
  {
    var t := "(812) 123-45-67";
    assert SkipChar(t, 0, '(') == 1 && DigitRun(t, 1, 3);
    assert SkipChar(t, 4, ')') == 5 && SkipSep(t, 5) == 6 && DigitRun(t, 6, 3);
    assert SkipSep(t, 9) == 10 && DigitRun(t, 10, 2);
    assert SkipSep(t, 12) == 13 && DigitRun(t, 13, 2);
  }

  /** No separator may follow the prefix. */
  lemma SpaceAfterPrefixRejected()
    ensures !AppointmentPhoneOk("8 912 345 67 89")
  {
    var b := "8 912 345 67 89";
    assert !IsDigit(b[1]);
    assert !IsDigit(b[1..][0]);
    assert b[0] == '8' && "7"[0] == '7' && "+7"[0] == '+';
  }

  /** A short last group, and a doubled separator, are rejected. */
  lemma MalformedGroupsRejected()
    ensures !AppointmentPhoneOk("912-345-678") && !AppointmentPhoneOk("912  345 67 89")
  {
    var c := "912-345-678";
    assert SkipSep(c, 7) == 8 && SkipSep(c, 10) == 10;
    assert c[0] == '9' && "7"[0] == '7' && "8"[0] == '8' && "+7"[0] == '+';
    var e := "912  345 67 89";
    assert SkipChar(e, 0, '(') == 0 && SkipChar(e, 3, ')') == 3 && SkipSep(e, 3) == 4;
    assert !IsDigit(e[4]);
    assert e[0] == '9';
  }

  // ---------------------------------------------------------------
  // __str__
  // ---------------------------------------------------------------

  /** `TelegramSettings.__str__`: `name (chat_id)`. */
  function TelegramSettingsStr(name: string, chatId: string): (r: string)
    ensures |r| == |name| + |chatId| + 3 && r[..|name|] == name
    ensures r[|name|..|name| + 2] == " (" && r[|name| + 2..|r| - 1] == chatId && r[|r| - 1] == ')'
  {
    name + " (" + chatId + ")"
  }

  /** Position of the last `c` in `s`. */
  function LastIndexOf(s: string, c: char): (k: Option<nat>)
    ensures k.Some? ==> k.value < |s| && s[k.value] == c && c !in s[k.value + 1..]
    ensures k.None? ==> c !in s
  {
    if |s| == 0 then None
    else if s[|s| - 1] == c then Some(|s| - 1)
    else
      var k := LastIndexOf(s[..|s| - 1], c);
      assert s == s[..|s| - 1] + [s[|s| - 1]];
      k
  }

  /** A `c` followed only by other characters is the last one. */
  lemma {:induction false} LastIndexOfTail(a: string, c: char, b: string)
    requires c !in b
    ensures LastIndexOf(a + [c] + b, c) == Some(|a|)
    decreases |b|
  {
    var s := a + [c] + b;
    if |b| > 0 {
      assert s[..|s| - 1] == a + [c] + b[..|b| - 1];
      assert s[|s| - 1] == b[|b| - 1];
      LastIndexOfTail(a, c, b[..|b| - 1]);
    }
  }

  /** The two parts of a settings label. */
  datatype SettingsParts = SettingsParts(name: string, chatId: string)

  /** Splits a settings label back into name and chat id at its last ` (`. */
  function SplitSettingsLabel(shown: string): Option<SettingsParts> {
    if |shown| > 0 && shown[|shown| - 1] == ')' then
      var inner := shown[..|shown| - 1];
      match LastIndexOf(inner, '(')
      case Some(k) => if k >= 1 && inner[k - 1] == ' ' then Some(SettingsParts(inner[..k - 1], inner[k + 1..])) else None
      case None => None
    else None
  }

  /** A settings label names its chat: a valid chat id and the name are read back exactly, whatever the name holds. */
  lemma SettingsLabelRoundTrip(name: string, chatId: string)
    requires ChatIdOk(chatId)
    ensures SplitSettingsLabel(TelegramSettingsStr(name, chatId)) == Some(SettingsParts(name, chatId))
  {
    var shown := TelegramSettingsStr(name, chatId);
    var inner := shown[..|shown| - 1];
    assert inner == (name + " ") + ['('] + chatId;
    if '(' in chatId {
      var i :| 0 <= i < |chatId| && chatId[i] == '(';
      ChatIdCharacters(chatId, i);
    }
    LastIndexOfTail(name + " ", '(', chatId);
    assert inner[..|name|] == name;
    assert inner[|name| + 2..] == chatId;
  }

  /** `Appointment.__str__`: `first_name last_name - phone`. */
  function AppointmentStr(firstName: string, lastName: string, phone: string): (r: string)
    ensures |r| == |firstName| + |lastName| + |phone| + 4
    ensures r[..|firstName| + 1] == firstName + " "
    ensures r[|firstName| + 1..|firstName| + 1 + |lastName|] == lastName
    ensures r[|r| - |phone| - 3..] == SEPARATOR + phone
  {
    firstName + " " + lastName + SEPARATOR + phone
  }

  const SEPARATOR := " - "

  /** The ` - ` between the last name and the phone starts at `j`. */
  predicate SeparatorAt(s: string, j: int) {
    0 <= j && j + 3 <= |s| && s[j] == ' ' && s[j + 1] == '-' && s[j + 2] == ' '
  }

  /** `s` holds no ` - `. */
  predicate NoSeparatorIn(s: string) {
    forall j :: 0 <= j < |s| ==> !SeparatorAt(s, j)
  }

  /** Where the last ` - ` of `s` starts. */
  function LastSeparator(s: string): (k: Option<nat>)
    ensures k.Some? ==> SeparatorAt(s, k.value) && forall j :: k.value < j ==> !SeparatorAt(s, j)
    ensures k.None? ==> NoSeparatorIn(s)
  {
    if |s| < 3 then None
    else if SeparatorAt(s, |s| - 3) then Some(|s| - 3)
    else
      var t := s[..|s| - 1];
      assert forall j :: SeparatorAt(s, j) ==> SeparatorAt(t, j);
      LastSeparator(t)
  }

  datatype AppointmentParts = AppointmentParts(firstName: string, lastName: string, phone: string)

  /** Reads an appointment label back: the first name ends at the first space, the phone starts after the last ` - `. */
  function SplitAppointmentLabel(s: string): Option<AppointmentParts> {
    if ' ' !in s then None
    else
      var i := FirstIndex(s, ' ');
      match LastSeparator(s)
      case Some(k) => if i < k then Some(AppointmentParts(s[..i], s[i + 1..k], s[k + 3..])) else None
      case None => None
  }

  /**
   * An appointment label names its three parts, whatever the last name holds,
   * as long as the first name has no space and no ` - ` appears in the phone
   * or where it meets the separator.
   */
  lemma AppointmentLabelRoundTrip(firstName: string, lastName: string, phone: string)
    requires ' ' !in firstName && NoSeparatorIn(" " + phone)
    ensures SplitAppointmentLabel(AppointmentStr(firstName, lastName, phone)) == Some(AppointmentParts(firstName, lastName, phone))
  {
    var s := AppointmentStr(firstName, lastName, phone);
    var front := firstName + " " + lastName;
    assert s == front + SEPARATOR + phone;
    assert s[..|firstName|] == firstName;
    FirstIndexAt(s, ' ', |firstName|);
    LastSeparatorBefore(front, phone);
    assert s[|firstName| + 1..|front|] == lastName;
    assert s[|front| + 3..] == phone;
  }

  /** The separator the label puts before the phone is its last one. */
  lemma LastSeparatorBefore(front: string, phone: string)
    requires NoSeparatorIn(" " + phone)
    ensures LastSeparator(front + SEPARATOR + phone) == Some(|front|)
  {
    var s := front + SEPARATOR + phone;
    var k := |front|;
    var head := front + " -";
    var tail := " " + phone;
    assert s == head + tail;
    assert |head| == k + 2 && head[k] == ' ' && head[k + 1] == '-';
    assert s[k + 2..] == tail;
    NoSeparatorAfter(s, k, tail);
    LastSeparatorIs(s, k);
  }

  /** After a `-` at `k + 1` comes text with no separator in it, so no separator starts after `k`. */
  lemma NoSeparatorAfter(s: string, k: nat, tail: string)
    requires k + 2 <= |s| && s[k + 1] == '-' && s[k + 2..] == tail && NoSeparatorIn(tail)
    ensures forall j :: k < j ==> !SeparatorAt(s, j)
  {
    forall j | k + 1 < j && j + 3 <= |s|
      ensures !SeparatorAt(s, j)
    {
      var m := j - k - 2;
      assert s[j] == tail[m] && s[j + 1] == tail[m + 1] && s[j + 2] == tail[m + 2];
      assert !SeparatorAt(tail, m);
    }
  }

  /** A separator with none after it is the last one. */
  lemma LastSeparatorIs(s: string, k: nat)
    requires SeparatorAt(s, k) && forall j :: k < j ==> !SeparatorAt(s, j)
    ensures LastSeparator(s) == Some(k)
  {
  }

  /** The decimal digits of `n`, as `str(n)` writes them. */
  function Decimal(n: nat): (r: string)
    ensures r != "" && AllDigits(r)
  {
    if n < 10 then [DigitChar(n)] else Decimal(n / 10) + [DigitChar(n % 10)]
  }

  function DigitChar(d: nat): char
    requires d < 10
  {
    (('0' as int) + d) as char
  }

  /** The number a string of decimal digits denotes. */
  function ParseDecimal(s: string): nat
    requires AllDigits(s)
  {
    if s == "" then 0 else 10 * ParseDecimal(s[..|s| - 1]) + ((s[|s| - 1] as int) - ('0' as int))
  }

  lemma {:induction false} DecimalRoundTrip(n: nat)
    ensures ParseDecimal(Decimal(n)) == n
  {
    if n >= 10 {
      var s := Decimal(n);
      assert s[..|s| - 1] == Decimal(n / 10);
      DecimalRoundTrip(n / 10);
    }
  }

  const LICENSE_PREFIX := "Лицензия #"

  /** `License.__str__`: the title, or `Лицензия #<id>` when the title is empty; `None` is an unsaved licence. */
  function LicenseStr(title: string, id: Option<nat>): (r: string)
    ensures title != "" ==> r == title
    ensures title == "" ==> LICENSE_PREFIX <= r && (r[|LICENSE_PREFIX|..] == "None" <==> id.None?)
  {
    if title != "" then title
    else
      match id
      case Some(n) =>
        var d := Decimal(n);
        assert IsDigit(d[0]) && d != "None";
        assert (LICENSE_PREFIX + d)[|LICENSE_PREFIX|..] == d;
        LICENSE_PREFIX + d
      case None =>
        assert (LICENSE_PREFIX + "None")[|LICENSE_PREFIX|..] == "None";
        LICENSE_PREFIX + "None"
  }

  /** Untitled licences with different ids get different labels, and every untitled label reads back its id. */
  lemma UntitledLicenseLabels(m: nat, n: nat)
    ensures LicenseStr("", Some(n))[|LICENSE_PREFIX|..] == Decimal(n)
    ensures LicenseStr("", Some(m)) == LicenseStr("", Some(n)) <==> m == n
    ensures LicenseStr("", Some(n)) != LicenseStr("", None)
  {
    var a := LicenseStr("", Some(m));
    var b := LicenseStr("", Some(n));
    assert a[|LICENSE_PREFIX|..] == Decimal(m);
    assert b[|LICENSE_PREFIX|..] == Decimal(n);
    if a == b {
      DecimalRoundTrip(m);
      DecimalRoundTrip(n);
    }
    var c := LicenseStr("", None);
    assert c[|LICENSE_PREFIX|..][0] == 'N';
    assert IsDigit(b[|LICENSE_PREFIX|..][0]);
  }
}
