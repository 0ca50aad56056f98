/**
 * The trial and premium texts in the two supported languages: the table of
 * strings each language gets, the day-count messages with their plural
 * choice, and the dispatch on the language.
 */
module TrialTexts {
  import opened Wrappers
  import opened PhoneNumber

  /** Kotlin's `Int`. */
  type Int32 = x: int | -0x8000_0000 <= x < 0x8000_0000

  /** The app's two languages. */
  datatype Language = UK | EN

  /**
   * The `TrialStrings` data class, with the two members that carry logic or
   * are indexed: the day-count message as a function of the days, and the
   * premium feature list.
   */
  datatype TrialStrings = TrialStrings(
    trialDaysLeft: Int32 -> string,
    premiumFeatures: seq<string>
  )

  // ---------------------------------------------------------------------------
  // `Int.toString`

  function DigitChar(d: nat): (c: char)
    requires d < 10
    ensures IsDigit(c)
  {
    (48 + d) as char
  }

  /** The decimal digits of `n`, without leading zeros. */
  function NatToString(n: nat): (s: string)
    ensures |s| > 0 && AllDigits(s)
    ensures s[0] == '0' ==> n == 0
  {
    if n < 10 then [DigitChar(n)] else NatToString(n / 10) + [DigitChar(n % 10)]
  }

  /** The number a string of decimal digits denotes. */
  function DigitsValue(s: string): nat
    requires AllDigits(s)
  {
    if s == [] then 0 else DigitsValue(s[..|s| - 1]) * 10 + (s[|s| - 1] as int - 48)
  }

  /** `"$n"` for an `Int`: a `-` before the digits of a negative number. */
  function IntToString(n: int): (s: string)
    ensures |s| > 0
    ensures n >= 0 ==> AllDigits(s)
    ensures n < 0 ==> s[0] == '-' && AllDigits(s[1..])
  {
    if n < 0 then "-" + NatToString(-n) else NatToString(n)
  }

  /** Reads back what `IntToString` writes; `None` for anything else. */
  function ParseInt(s: string): (r: Option<int>)
  {
    if |s| > 1 && s[0] == '-' && AllDigits(s[1..]) then Some(0 - DigitsValue(s[1..]) as int)
    else if |s| > 0 && AllDigits(s) then Some(DigitsValue(s))
    else None
  }

  lemma {:induction false} NatToStringRoundTrip(n: nat)
    ensures DigitsValue(NatToString(n)) == n
  {
    if n >= 10 {
      var s := NatToString(n);
      assert s[..|s| - 1] == NatToString(n / 10);
      NatToStringRoundTrip(n / 10);
    }
  }

  /** The text of a number reads back as that number. */
  lemma IntToStringRoundTrip(n: int)
    ensures ParseInt(IntToString(n)) == Some(n)
  {
    var s := IntToString(n);
    if n < 0 {
      var digits := NatToString(-n);
      assert s[0] == '-' && s[1..] == digits;
      NatToStringRoundTrip(-n);
      assert ParseInt(s) == Some(0 - DigitsValue(digits) as int);
    } else {
      assert IsDigit(s[0]) && s[0] != '-';
      NatToStringRoundTrip(n);
      assert ParseInt(s) == Some(DigitsValue(s) as int);
    }
  }

  // ---------------------------------------------------------------------------
  // The day-count messages

  /** The Ukrainian `trialDaysLeft`: singular for 1, the `дні` form for 2 to 4, the `днів` form otherwise. */
  function DaysLeftUK(days: Int32): (msg: string)
    ensures StartsWith(msg, "⚠️ Залиш") && EndsWith(msg, " trial")
  {
    if days == 1 then "⚠️ Залишився 1 день trial"
    else if 2 <= days <= 4 then "⚠️ Залишилось " + IntToString(days) + " дні trial"
    else "⚠️ Залишилось " + IntToString(days) + " днів trial"
  }

  /** The English `trialDaysLeft`: singular for 1, plural otherwise. */
  function DaysLeftEN(days: Int32): (msg: string)
    ensures StartsWith(msg, "⚠️ ") && EndsWith(msg, " left")
  {
    if days == 1 then "⚠️ 1 day left"
    else "⚠️ " + IntToString(days) + " days left"
  }

  // ---------------------------------------------------------------------------
  // The tables

  /** A premium feature line: a check mark, a space, then the feature's text. */
  function Feature(text: string): (f: string)
    ensures StartsWith(f, "✅ ") && f[2..] == text
  {
    assert ("✅ " + text)[..2] == "✅ ";
    "✅ " + text
  }

  /** `getTrialStringsUK`. */
  function TrialStringsUK(): (t: TrialStrings)
    ensures t.trialDaysLeft == DaysLeftUK
    ensures |t.premiumFeatures| == 4 && forall i :: 0 <= i < 4 ==> StartsWith(t.premiumFeatures[i], "✅ ")
  {
    TrialStrings(
      trialDaysLeft := DaysLeftUK,
      premiumFeatures := [
        Feature("Необмежені дзвінки через месенджери"),
        Feature("Без обмежень часу"),
        Feature("Всі майбутні функції"),
        Feature("Одноразова оплата")
      ]
    )
  }

  /** `getTrialStringsEN`. */
  function TrialStringsEN(): (t: TrialStrings)
    ensures t.trialDaysLeft == DaysLeftEN
    ensures |t.premiumFeatures| == 4 && forall i :: 0 <= i < 4 ==> StartsWith(t.premiumFeatures[i], "✅ ")
  {
    TrialStrings(
      trialDaysLeft := DaysLeftEN,
      premiumFeatures := [
        Feature("Unlimited messenger calls"),
        Feature("No time limits"),
        Feature("All future features"),
        Feature("One-time payment")
      ]
    )
  }

  /**
   * `getTrialStrings`: the table of the given language.  Its feature list has
   * four entries, so the premium dialog's `premiumFeatures[3]` is in bounds and
   * names the one-time payment in either language.
   */
  function GetTrialStrings(language: Language): (t: TrialStrings)
    ensures t.trialDaysLeft == if language == UK then DaysLeftUK else DaysLeftEN
    ensures |t.premiumFeatures| == 4
    ensures t.premiumFeatures[3] == Feature(if language == UK then "Одноразова оплата" else "One-time payment")
  {
    match language
    case UK => TrialStringsUK()
    case EN => TrialStringsEN()
  }

  // ---------------------------------------------------------------------------
  // Properties of the messages

  predicate EndsWith(s: string, suffix: string) {
    |suffix| <= |s| && s[|s| - |suffix|..] == suffix
  }

  /** What the Ukrainian message puts before the number: the verb agrees with the singular. */
  function UkHead(days: int): string {
    if days == 1 then "⚠️ Залишився " else "⚠️ Залишилось "
  }

  /** What it puts after: `день` for 1, `дні` for 2 to 4, `днів` for any other count. */
  function UkTail(days: int): string {
    if days == 1 then " день trial" else if 2 <= days <= 4 then " дні trial" else " днів trial"
  }

  function EnHead(): string {
    "⚠️ "
  }

  function EnTail(days: int): string {
    if days == 1 then " day left" else " days left"
  }

  /** Every Ukrainian message has one shape, the written-out `1` of the singular included. */
  lemma DaysLeftUKShape(days: Int32)
    ensures DaysLeftUK(days) == UkHead(days) + IntToString(days) + UkTail(days)
  {
    if days == 1 {
      assert IntToString(1) == "1";
      assert "⚠️ Залишився 1 день trial" == "⚠️ Залишився " + "1" + " день trial";
    }
  }

  /** Every English message has one shape, the written-out `1` of the singular included. */
  lemma DaysLeftENShape(days: Int32)
    ensures DaysLeftEN(days) == EnHead() + IntToString(days) + EnTail(days)
  {
    if days == 1 {
      assert IntToString(1) == "1";
      assert "⚠️ 1 day left" == "⚠️ " + "1" + " day left";
    }
  }

  lemma EndsWithOwnTail(head: string, tail: string)
    ensures EndsWith(head + tail, tail)
  {
    assert (head + tail)[|head + tail| - |tail|..] == tail;
  }

  /** A suffix that differs from the message's own tail at position `j` is not the message's ending. */
  lemma NotEndsWith(head: string, tail: string, t: string, j: nat)
    requires |t| <= |head| + |tail| && j < |t| && |t| - j <= |tail|
    requires t[j] != tail[|tail| - |t| + j]
    ensures !EndsWith(head + tail, t)
  {
    var msg := head + tail;
    assert msg[|msg| - |t| + j] == tail[|tail| - |t| + j];
  }

  /** The three Ukrainian endings tell each other apart: a message has exactly one of them. */
  lemma UkEndingsDistinct(head: string, tail: string)
    requires |head| > 0 && tail in {" день trial", " дні trial", " днів trial"}
    ensures EndsWith(head + tail, " день trial") <==> tail == " день trial"
    ensures EndsWith(head + tail, " дні trial") <==> tail == " дні trial"
    ensures EndsWith(head + tail, " днів trial") <==> tail == " днів trial"
  {
    EndsWithOwnTail(head, tail);
    if tail == " день trial" {
      NotEndsWith(head, tail, " дні trial", 0);
      NotEndsWith(head, tail, " днів trial", 2);
    } else if tail == " дні trial" {
      NotEndsWith(head, tail, " день trial", 1);
      NotEndsWith(head, tail, " днів trial", 1);
    } else {
      NotEndsWith(head, tail, " день trial", 2);
      NotEndsWith(head, tail, " дні trial", 0);
    }
  }

  /**
   * The Ukrainian plural choice, in both directions: the message ends in
   * `день` exactly for 1, in `дні` exactly for 2 to 4, and in `днів` for every
   * other count, 0, negative counts and 22 to 24 included.
   */
  lemma UkPluralChoice(days: Int32)
    ensures EndsWith(DaysLeftUK(days), " день trial") <==> days == 1
    ensures EndsWith(DaysLeftUK(days), " дні trial") <==> 2 <= days <= 4
    ensures EndsWith(DaysLeftUK(days), " днів trial") <==> !(1 <= days <= 4)
  {
    DaysLeftUKShape(days);
    UkEndingsDistinct(UkHead(days) + IntToString(days), UkTail(days));
  }

  /** The English plural choice: `day` exactly for 1, `days` for every other count. */
  lemma EnPluralChoice(days: Int32)
    ensures EndsWith(DaysLeftEN(days), " day left") <==> days == 1
    ensures EndsWith(DaysLeftEN(days), " days left") <==> days != 1
  {
    DaysLeftENShape(days);
    var head := EnHead() + IntToString(days);
    var tail := EnTail(days);
    EndsWithOwnTail(head, tail);
    if days == 1 {
      NotEndsWith(head, tail, " days left", 1);
    } else {
      NotEndsWith(head, tail, " day left", 0);
    }
  }

  /** At `i`, `msg` holds the text of `days` as a word of its own. */
  predicate NumberWordAt(msg: string, i: int, days: int) {
    var n := IntToString(days);
    && 0 < i && i + |n| < |msg|
    && msg[i - 1] == ' ' && msg[i + |n|] == ' '
    && msg[i..i + |n|] == n
  }

  /** `msg` states `days`: it holds the text of `days` as a word, which reads back as `days`. */
  predicate ShowsDays(msg: string, days: int) {
    (exists i :: 0 < i < |msg| && NumberWordAt(msg, i, days)) && ParseInt(IntToString(days)) == Some(days)
  }

  /** A message made of a head ending in a space, the text of `days`, and a tail starting with one states `days`. */
  lemma ShowsDaysBetween(head: string, tail: string, days: int)
    requires |head| > 0 && head[|head| - 1] == ' '
    requires |tail| > 0 && tail[0] == ' '
    ensures ShowsDays(head + IntToString(days) + tail, days)
  {
    var n := IntToString(days);
    var msg := head + n + tail;
    var i := |head|;
    assert msg[i - 1] == head[i - 1];
    assert msg[i + |n|] == tail[0];
    assert msg[i..i + |n|] == n;
    assert NumberWordAt(msg, i, days);
    IntToStringRoundTrip(days);
  }

  /** In either language, the day-count message states the number of days it was given. */
  lemma EveryLanguageShowsDays(language: Language, days: Int32)
    ensures ShowsDays(GetTrialStrings(language).trialDaysLeft(days), days)
  {
    if language == UK {
      DaysLeftUKShape(days);
      ShowsDaysBetween(UkHead(days), UkTail(days), days);
    } else {
      DaysLeftENShape(days);
      ShowsDaysBetween(EnHead(), EnTail(days), days);
    }
  }
}
