/**
 * What the two activities do with a number: the dial URI of `openGsm`, the
 * messenger deep links of `openWhatsApp`/`openTelegram`/`openViber` with their
 * fall-back to dialling, and the rule in the search field's change handler
 * that starts a contact search only from two characters on.
 */
module ContactActions {
  import opened Wrappers
  import opened PhoneNumber

  // ---------------------------------------------------------------------------
  // Blank numbers

  /** Kotlin's `Char.isWhitespace` on the JVM: `Character.isWhitespace` or `Character.isSpaceChar`. */
  predicate IsWhitespace(c: char)
    ensures IsWhitespace(c) ==> !IsDigit(c)
  {
    var u := c as int;
    || 0x09 <= u <= 0x0D || 0x1C <= u <= 0x20
    || u == 0xA0 || u == 0x1680 || 0x2000 <= u <= 0x200A
    || u == 0x2028 || u == 0x2029 || u == 0x202F || u == 0x205F || u == 0x3000
  }

  /** `String.isBlank`: empty, or whitespace only. */
  predicate IsBlank(s: string)
    ensures s == "" ==> IsBlank(s)
    ensures IsBlank(s) ==> forall i :: 0 <= i < |s| ==> !IsDigit(s[i])
  {
    forall i :: 0 <= i < |s| ==> IsWhitespace(s[i])
  }

  /** A string of digits is blank exactly when it is empty; the buttons pass such a string. */
  lemma DigitsBlankIffEmpty(s: string)
    requires AllDigits(s)
    ensures IsBlank(s) <==> s == ""
  {
    if s != "" {
      assert IsDigit(s[0]);
    }
  }

  // ---------------------------------------------------------------------------
  // Intents

  /** The intent an action starts, if any. */
  datatype Launch =
    | Nothing
    | Dial(uri: string)
    | View(uri: string, package: string)

  /**
   * The dial URI scheme: `com.callchooser.app.MainActivity` writes `tel:+`,
   * `android.template.ui.MainActivity` writes `tel:`.
   */
  datatype DialStyle = TelPlus | Tel

  function DialPrefix(style: DialStyle): (p: string)
    ensures StartsWith(p, "tel:")
    ensures |p| == 5 <==> style == TelPlus
  {
    match style
    case TelPlus => "tel:+"
    case Tel => "tel:"
  }

  /** `openGsm`: nothing for a blank number, otherwise an `ACTION_DIAL` of the scheme and the number. */
  function OpenGsm(style: DialStyle, num: string): (r: Launch)
    ensures r.Nothing? <==> IsBlank(num)
    ensures r.Dial? ==> r.uri == DialPrefix(style) + num
  {
    if IsBlank(num) then Nothing else Dial(DialPrefix(style) + num)
  }

  datatype Messenger = WhatsApp | Telegram | Viber

  /**
   * The deep-link prefix each `open…` function puts before the number.  Its
   * first character already tells the messengers apart.
   */
  function LinkPrefix(m: Messenger): (p: string)
    ensures |p| > 0
    ensures p[0] == 'h' <==> m == WhatsApp
    ensures p[0] == 't' <==> m == Telegram
    ensures p[0] == 'v' <==> m == Viber
  {
    match m
    case WhatsApp => "https://wa.me/"
    case Telegram => "tg://resolve?phone="
    case Viber => "viber://chat?number="
  }

  /**
   * The package each deep link is addressed to.  The packages differ in their
   * fifth character, after `com.` or `org.`.
   */
  function Package(m: Messenger): (p: string)
    ensures |p| > 4
    ensures p[4] == 'w' <==> m == WhatsApp
    ensures p[4] == 't' <==> m == Telegram
    ensures p[4] == 'v' <==> m == Viber
  {
    match m
    case WhatsApp => "com.whatsapp"
    case Telegram => "org.telegram.messenger"
    case Viber => "com.viber.voip"
  }

  /** The deep link: the messenger's prefix, then the number, which reads back from it. */
  function MessengerUri(m: Messenger, num: string): (u: string)
    ensures AfterPrefix(u, LinkPrefix(m)) == Some(num)
  {
    AfterPrefixOfConcat(LinkPrefix(m), num);
    LinkPrefix(m) + num
  }

  /**
   * `openWhatsApp`/`openTelegram`/`openViber` through `openAppOrFallback`:
   * view the deep link in the messenger's package, or, when starting it
   * throws (`opens` is false), do what `openGsm` does.
   */
  function OpenMessenger(style: DialStyle, m: Messenger, num: string, opens: bool): (r: Launch)
    ensures r.View? <==> opens
    ensures r.Nothing? <==> !opens && IsBlank(num)
    ensures r.View? ==> r.package == Package(m) && AfterPrefix(r.uri, LinkPrefix(m)) == Some(num)
    ensures !opens ==> r == OpenGsm(style, num)
  {
    if opens then View(MessengerUri(m, num), Package(m)) else OpenGsm(style, num)
  }

  // ---------------------------------------------------------------------------
  // Reading the number back

  /** The rest of `s` after `prefix`, when `s` starts with it. */
  function AfterPrefix(s: string, prefix: string): (r: Option<string>)
    ensures r.Some? ==> s == prefix + r.value
  {
    if StartsWith(s, prefix) then Some(s[|prefix|..]) else None
  }

  /** The number an intent carries, read back from its URI. */
  function NumberOf(style: DialStyle, l: Launch): (r: Option<string>)
  {
    match l
    case Nothing => None
    case Dial(uri) => AfterPrefix(uri, DialPrefix(style))
    case View(uri, package) =>
      if package == Package(WhatsApp) then AfterPrefix(uri, LinkPrefix(WhatsApp))
      else if package == Package(Telegram) then AfterPrefix(uri, LinkPrefix(Telegram))
      else if package == Package(Viber) then AfterPrefix(uri, LinkPrefix(Viber))
      else None
  }

  lemma AfterPrefixOfConcat(prefix: string, rest: string)
    ensures AfterPrefix(prefix + rest, prefix) == Some(rest)
  {
    assert (prefix + rest)[..|prefix|] == prefix;
    assert (prefix + rest)[|prefix|..] == rest;
  }

  /** Every intent started for a non-blank number carries exactly that number. */
  lemma OpenGsmCarriesNumber(style: DialStyle, num: string)
    requires !IsBlank(num)
    ensures NumberOf(style, OpenGsm(style, num)) == Some(num)
  {
    AfterPrefixOfConcat(DialPrefix(style), num);
  }

  /** Whether the messenger opens or the call falls back to dialling, the intent carries the number. */
  lemma OpenMessengerCarriesNumber(style: DialStyle, m: Messenger, num: string, opens: bool)
    requires opens || !IsBlank(num)
    ensures NumberOf(style, OpenMessenger(style, m, num, opens)) == Some(num)
  {
    if opens {
      AfterPrefixOfConcat(LinkPrefix(m), num);
    } else {
      OpenGsmCarriesNumber(style, num);
    }
  }

  /** Distinct messengers or distinct numbers never share a deep link. */
  lemma MessengerUriInjective(m1: Messenger, a: string, m2: Messenger, b: string)
    requires MessengerUri(m1, a) == MessengerUri(m2, b)
    ensures m1 == m2 && a == b
  {
    var u := MessengerUri(m1, a);
    assert u[0] == LinkPrefix(m1)[0] && u[0] == LinkPrefix(m2)[0];
    AfterPrefixOfConcat(LinkPrefix(m1), a);
    AfterPrefixOfConcat(LinkPrefix(m2), b);
  }

  /** The two activities dial the same number with and without the `+`. */
  lemma DialStylesDiffer(num: string)
    requires !IsBlank(num)
    ensures OpenGsm(TelPlus, num).uri == "tel:+" + num
    ensures OpenGsm(Tel, num).uri == "tel:" + num
    ensures OpenGsm(TelPlus, num) != OpenGsm(Tel, num)
  {
    assert OpenGsm(TelPlus, num).uri[4] == '+';
    if OpenGsm(Tel, num).uri[4] == '+' {
      AfterPrefixOfConcat("tel:", num);
      assert num[0] == '+';
    }
  }

  /** The GSM button passes the normalised number: it dials nothing exactly when no digit was typed. */
  lemma DialNormalized(style: DialStyle, input: string)
    ensures OpenGsm(style, NormalizeNumber(input)).Nothing? <==> NormalizeNumber(input) == ""
  {
    DigitsBlankIffEmpty(NormalizeNumber(input));
  }

  // ---------------------------------------------------------------------------
  // The search field

  /** `String.length`: UTF-16 code units, two for a character outside the Basic Multilingual Plane. */
  function Utf16Length(s: string): (n: nat)
    ensures |s| <= n <= 2 * |s|
  {
    if s == [] then 0
    else (if s[0] as int >= 0x1_0000 then 2 else 1) + Utf16Length(s[1..])
  }

  /** The search screen's state: the typed text, its normalised number, the contacts listed. */
  datatype SearchScreen = SearchScreen(query: string, normalized: string, results: seq<(string, string)>)

  /**
   * The field's `onValueChange`: store the text and its normalised number, and
   * either launch a search for it (returned as `Some(text)`; its results arrive
   * later) or clear the results.
   */
  function OnQueryChange(s: SearchScreen, text: string): (r: (SearchScreen, Option<string>))
    ensures r.0.query == text && r.0.normalized == NormalizeNumber(text)
    ensures r.1.Some? <==> Utf16Length(text) >= 2
    ensures r.1.Some? ==> r.1.value == text && r.0.results == s.results
    ensures r.1.None? ==> r.0.results == []
  {
    var s' := s.(query := text, normalized := NormalizeNumber(text));
    if Utf16Length(text) >= 2 then (s', Some(text)) else (s'.(results := []), None)
  }

  /** Two characters always start a search; one character does only when it takes two UTF-16 units. */
  lemma SearchThreshold(s: SearchScreen, text: string)
    ensures |text| >= 2 ==> OnQueryChange(s, text).1 == Some(text)
    ensures |text| == 1 ==> (OnQueryChange(s, text).1.Some? <==> text[0] as int >= 0x1_0000)
    ensures text == "" ==> OnQueryChange(s, text).0 == SearchScreen("", "", [])
  {
    if |text| == 1 {
      assert text[1..] == [];
    }
    if text == "" {
      assert NormalizeNumber(text) == "";
    }
  }
}
