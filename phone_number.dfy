/**
 * `normalizeNumber`, which both activities define with the same rules: keep
 * the digits, give a 10-digit national number with a leading `0` the `38`
 * country prefix, and cut a `380…` number down to its first 12 digits.
 */
module PhoneNumber {

  /** `Char.isDigit`, restricted to the ASCII digits `0`–`9`. */
  predicate IsDigit(c: char)
    ensures IsDigit(c) <==> 0 <= c as int - '0' as int < 10
  {
    '0' <= c <= '9'
  }

  predicate AllDigits(s: string) {
    forall i :: 0 <= i < |s| ==> IsDigit(s[i])
  }

  /** `String.startsWith(prefix)`. */
  predicate StartsWith(s: string, prefix: string)
    ensures StartsWith(s, prefix) <==> |prefix| <= |s| && forall i :: 0 <= i < |prefix| ==> s[i] == prefix[i]
  {
    |prefix| <= |s| && s[..|prefix|] == prefix
  }

  /** `input.filter { it.isDigit() }`: the digits of `input`, in order. */
  function KeepDigits(input: string): (r: string)
    ensures AllDigits(r)
    ensures |r| <= |input|
    ensures AllDigits(input) ==> r == input
  {
    if input == [] then []
    else if IsDigit(input[0]) then [input[0]] + KeepDigits(input[1..])
    else KeepDigits(input[1..])
  }

  /** Filtering a concatenation filters each part. */
  lemma {:induction false} KeepDigitsAppend(s: string, t: string)
    ensures KeepDigits(s + t) == KeepDigits(s) + KeepDigits(t)
  {
    if s != [] {
      assert (s + t)[0] == s[0];
      assert (s + t)[1..] == s[1..] + t;
      KeepDigitsAppend(s[1..], t);
      if IsDigit(s[0]) {
        var a, b := KeepDigits(s[1..]), KeepDigits(t);
        assert [s[0]] + (a + b) == ([s[0]] + a) + b;
      }
    } else {
      assert s + t == t;
    }
  }

  /** Every digit of `input` survives the filter, and every non-digit goes. */
  lemma {:induction false} KeepDigitsCounts(input: string, c: char)
    ensures multiset(KeepDigits(input))[c] == if IsDigit(c) then multiset(input)[c] else 0
  {
    if input != [] {
      assert input == [input[0]] + input[1..];
      KeepDigitsCounts(input[1..], c);
    }
  }

  /** `normalizeNumber`. */
  function NormalizeNumber(input: string): (r: string)
    ensures AllDigits(r)
  {
    var digits := KeepDigits(input);
    var prefixed := if StartsWith(digits, "0") && |digits| == 10 then "38" + digits else digits;
    if StartsWith(prefixed, "380") && |prefixed| > 12 then prefixed[..12] else prefixed
  }

  /** A 10-digit number with a leading `0` gets `38` in front: 12 digits starting with `380`. */
  lemma NormalizeAddsCountryCode(input: string)
    requires StartsWith(KeepDigits(input), "0") && |KeepDigits(input)| == 10
    ensures NormalizeNumber(input) == "38" + KeepDigits(input)
    ensures |NormalizeNumber(input)| == 12 && StartsWith(NormalizeNumber(input), "380")
  {
    var d := KeepDigits(input);
    assert ("38" + d)[..3] == "38" + d[..1];
  }

  /** A `380…` number longer than 12 digits keeps only its first 12. */
  lemma NormalizeTruncates(input: string)
    requires StartsWith(KeepDigits(input), "380") && |KeepDigits(input)| > 12
    ensures NormalizeNumber(input) == KeepDigits(input)[..12]
  {
    var d := KeepDigits(input);
    assert d[..1] == d[..3][..1];
  }

  /** Any other input comes out as its digits, unchanged. */
  lemma NormalizeKeepsOthers(input: string)
    requires !(StartsWith(KeepDigits(input), "0") && |KeepDigits(input)| == 10)
    requires !(StartsWith(KeepDigits(input), "380") && |KeepDigits(input)| > 12)
    ensures NormalizeNumber(input) == KeepDigits(input)
  {
  }

  /** A normalised number that carries the `380` prefix has at most 12 digits. */
  lemma NormalizeBoundsInternational(input: string)
    ensures StartsWith(NormalizeNumber(input), "380") ==> |NormalizeNumber(input)| <= 12
  {
    var d := KeepDigits(input);
    if StartsWith(d, "0") && |d| == 10 {
      NormalizeAddsCountryCode(input);
    }
  }

  /** Neither rewrite fires on a normalised number, so normalising twice changes nothing. */
  lemma NormalizeIdempotent(input: string)
    ensures NormalizeNumber(NormalizeNumber(input)) == NormalizeNumber(input)
  {
    var r := NormalizeNumber(input);
    var d := KeepDigits(input);
    if StartsWith(d, "0") && |d| == 10 {
      NormalizeAddsCountryCode(input);
      assert r[..1] == r[..3][..1];
    } else if StartsWith(d, "380") && |d| > 12 {
      NormalizeTruncates(input);
      assert r[..1] == d[..3][..1];
    } else {
      NormalizeKeepsOthers(input);
    }
    NormalizeKeepsOthers(r);
  }
}
