/**
 * The cookie reader `getCookie(name)` of static/js/script.js: split
 * `document.cookie` on `;`, trim each segment, and return the decoded
 * remainder of the first segment that starts with `name=`.
 * `decodeURIComponent` is left uninterpreted: it is the parameter `decode`.
 */
module Cookies {
  import opened Wrappers
  import opened Text

  /** A cookie segment whose trimmed text starts with `name=`. */
  predicate NamedBy(segment: string, name: string) {
    name + "=" <= Trim(segment, JsSpace)
  }

  /** Position of the first segment named `name`, or `|segments|` when there is none. */
  function FirstNamed(segments: seq<string>, name: string): (k: nat)
    ensures k <= |segments|
    ensures k < |segments| ==> NamedBy(segments[k], name)
    ensures forall j :: 0 <= j < k ==> !NamedBy(segments[j], name)
  {
    if |segments| == 0 then 0
    else if NamedBy(segments[0], name) then 0
    else
      var k := 1 + FirstNamed(segments[1..], name);
      assert forall j :: 1 <= j < k ==> segments[j] == segments[1..][j - 1];
      k
  }

  /** The undecoded value of the first segment named `name`. */
  function RawValue(segments: seq<string>, name: string): Option<string> {
    var k := FirstNamed(segments, name);
    if k < |segments| then Some(Trim(segments[k], JsSpace)[|name| + 1..]) else None
  }

  /** What `getCookie(name)` returns for the cookie string `cookie`. */
  function CookieValue(cookie: string, name: string, decode: string -> string): Option<string> {
    if cookie == "" then None
    else
      match RawValue(Split(cookie, ';'), name)
      case None => None
      case Some(v) => Some(decode(v))
  }

  /** The loop of `getCookie`, with its `break` at the first match. */
  method GetCookie(cookie: string, name: string, decode: string -> string) returns (cookieValue: Option<string>)
    ensures cookieValue == CookieValue(cookie, name, decode)
    ensures cookie == "" ==> cookieValue == None
  {
    cookieValue := None;
    if cookie != "" {
      var cookies := Split(cookie, ';');
      var i := 0;
      while i < |cookies|
        invariant 0 <= i <= |cookies|
        invariant forall j :: 0 <= j < i ==> !NamedBy(cookies[j], name)
        invariant cookieValue == None
      {
        var c := Trim(cookies[i], JsSpace);
        SubstringPrefix(c, name + "=");
        if JsSubstring(c, 0, |name| + 1) == name + "=" {
          cookieValue := Some(decode(JsSubstring(c, |name| + 1, |c|)));
          FoundAt(cookies, name, i);
          break;
        }
        i := i + 1;
      }
      if cookieValue.None? {
        assert FirstNamed(cookies, name) == |cookies|;
      }
    }
  }

  /** The loop's exit at position `i`: the value is the rest of that segment. */
  lemma FoundAt(segments: seq<string>, name: string, i: nat)
    requires i < |segments| && NamedBy(segments[i], name)
    requires forall j :: 0 <= j < i ==> !NamedBy(segments[j], name)
    ensures var c := Trim(segments[i], JsSpace);
      RawValue(segments, name) == Some(JsSubstring(c, |name| + 1, |c|))
  {
    var c := Trim(segments[i], JsSpace);
    assert FirstNamed(segments, name) == i;
    assert |name + "="| <= |c|;
    assert JsSubstring(c, |name| + 1, |c|) == c[|name| + 1..];
  }

  /** Once a segment named `name` has been seen, later segments (even ones with the same name) do not matter. */
  lemma {:induction false} FirstSegmentWins(pre: seq<string>, post: seq<string>, name: string)
    requires RawValue(pre, name).Some?
    ensures RawValue(pre + post, name) == RawValue(pre, name)
  {
    var k := FirstNamed(pre, name);
    var all := pre + post;
    assert forall j :: 0 <= j <= k ==> all[j] == pre[j];
    var m := FirstNamed(all, name);
    assert !(m < k) && !(k < m);
  }

  /** No segment named `name` means an absent result. */
  lemma {:induction false} NoSegmentAbsent(cookie: string, name: string, decode: string -> string)
    requires forall i :: 0 <= i < |Split(cookie, ';')| ==> !NamedBy(Split(cookie, ';')[i], name)
    ensures CookieValue(cookie, name, decode) == None
  {
    var segs := Split(cookie, ';');
    assert FirstNamed(segs, name) == |segs|;
  }

  /** A segment for another name never matches, even when `name` is a prefix of it (`csrftokenX=1` for `csrftoken`). */
  lemma {:induction false} OtherNameIgnored(segment: string, other: string, value: string, name: string)
    requires Trim(segment, JsSpace) == other + "=" + value
    requires '=' !in other && '=' !in name && other != name
    ensures !NamedBy(segment, name)
  {
    var t := other + "=" + value;
    var p := name + "=";
    if |name| < |other| {
      assert t[|name|] == other[|name|] && p[|name|] == '=';
    } else if |name| > |other| {
      assert t[|other|] == '=' && p[|other|] == name[|other|];
    } else {
      assert p[..|name|] == name && t[..|other|] == other;
    }
  }

  /** The trimmed text of `lead + name=v` is `name=v` when `lead` is whitespace and `name=v` is not padded. */
  lemma PaddedSegmentTrim(lead: string, name: string, v: string)
    requires forall i :: 0 <= i < |lead| ==> JsSpace(lead[i])
    requires name == "" || !JsSpace(name[0])
    requires v == "" || !JsSpace(v[|v| - 1])
    ensures Trim(lead + (name + "=" + v), JsSpace) == name + "=" + v
  {
    var body := name + "=" + v;
    TrimAfterSpaces(lead, body, JsSpace);
    assert body[0] == if name == "" then '=' else name[0];
    assert body[|body| - 1] == if v == "" then '=' else v[|v| - 1];
    TrimUnpadded(body, JsSpace);
  }

  /**
   * A cookie surrounded by others is found: in `a; b; name=v; c`, when no
   * earlier segment is named `name`, the result is `decode(v)`.
   */
  lemma {:induction false} CookieAmidOthers(pre: seq<string>, lead: string, name: string, v: string,
                                            post: seq<string>, decode: string -> string)
    requires forall i :: 0 <= i < |pre| ==> ';' !in pre[i] && !NamedBy(pre[i], name)
    requires forall i :: 0 <= i < |post| ==> ';' !in post[i]
    requires forall i :: 0 <= i < |lead| ==> JsSpace(lead[i]) && lead[i] != ';'
    requires ';' !in name && ';' !in v
    requires name == "" || !JsSpace(name[0])
    requires v == "" || !JsSpace(v[|v| - 1])
    ensures CookieValue(Join(pre + [lead + (name + "=" + v)] + post, ';'), name, decode) == Some(decode(v))
  {
    var body := name + "=" + v;
    var seg := lead + body;
    var parts := pre + [seg] + post;
    assert ';' !in seg;
    forall i | 0 <= i < |parts| ensures ';' !in parts[i] {
      if i < |pre| {
        assert parts[i] == pre[i];
      } else if i > |pre| {
        assert parts[i] == post[i - |pre| - 1];
      }
    }
    var cookie := Join(parts, ';');
    SplitJoin(parts, ';');
    PaddedSegmentTrim(lead, name, v);
    assert parts[|pre|] == seg;
    assert NamedBy(seg, name);
    forall j | 0 <= j < |pre| ensures !NamedBy(parts[j], name) {
      assert parts[j] == pre[j];
    }
    var k := FirstNamed(parts, name);
    assert !(k < |pre|) && !(k > |pre|);
    assert body[|name| + 1..] == v;
    assert RawValue(parts, name) == Some(v);
    assert |seg| <= |cookie|;
  }
}
