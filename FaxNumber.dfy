/**
 * The fax-number step: format-on-type masking and the `validate` rule
 * (src/components/FaxNumber.tsx).
 */
module FaxNumber {

  predicate IsDigit(c: char) {
    '0' <= c <= '9'
  }

  /** `s.replace(/\D/g, "")`: the digits of `s`, in order. */
  function Digits(s: string): (d: string)
    ensures |d| <= |s|
    ensures forall i :: 0 <= i < |d| ==> IsDigit(d[i])
  {
    if s == [] then []
    else (if IsDigit(s[0]) then [s[0]] else []) + Digits(s[1..])
  }

  /** Digit extraction distributes over concatenation. */
  lemma {:induction false} DigitsAppend(a: string, b: string)
    ensures Digits(a + b) == Digits(a) + Digits(b)
  {
    if a == [] {
      assert a + b == b;
    } else {
      assert (a + b)[1..] == a[1..] + b;
      DigitsAppend(a[1..], b);
    }
  }

  /** A string made only of digits is its own digit string. */
  lemma {:induction false} DigitsOfDigits(s: string)
    requires forall i :: 0 <= i < |s| ==> IsDigit(s[i])
    ensures Digits(s) == s
  {
    if s != [] {
      DigitsOfDigits(s[1..]);
    }
  }

  /** The digit string with more than ten digits cut down to the first ten. */
  function Cleaned(s: string): (c: string)
    ensures |c| <= 10
    ensures c == Digits(s)[..if |Digits(s)| < 10 then |Digits(s)| else 10]
  {
    var d := Digits(s);
    if |d| > 10 then d[..10] else d
  }

  /** No character of `p` is a digit. */
  predicate NoDigits(p: string) {
    forall i :: 0 <= i < |p| ==> !IsDigit(p[i])
  }

  /** A run of punctuation followed by digits contributes exactly those digits. */
  lemma {:induction false} DigitsOfGroup(p: string, d: string)
    requires NoDigits(p)
    requires forall i :: 0 <= i < |d| ==> IsDigit(d[i])
    ensures Digits(p + d) == d
  {
    if p == [] {
      assert p + d == d;
      DigitsOfDigits(d);
    } else {
      assert (p + d)[1..] == p[1..] + d;
      DigitsOfGroup(p[1..], d);
    }
  }

  /** The masked text built from at most ten digits. */
  function Banded(c: string): (r: string)
    requires |c| <= 10
    ensures |r| <= |c| + 4
    ensures r == "" <==> c == ""
  {
    if |c| >= 7 then "(" + c[..3] + ")-" + c[3..6] + "-" + c[6..]
    else if |c| >= 4 then "(" + c[..3] + ")-" + c[3..]
    else if |c| > 0 then "(" + c
    else ""
  }

  /** The input placeholder "(XXX)-XXX-XXXX"; 'X' stands for a digit. */
  const Mask: string := "(XXX)-XXX-XXXX"

  /** `r` fills a prefix of the mask: punctuation where the mask has it, digits at every 'X'. */
  predicate FitsMask(r: string) {
    |r| <= |Mask| && forall i :: 0 <= i < |r| ==> if Mask[i] == 'X' then IsDigit(r[i]) else r[i] == Mask[i]
  }

  /** Banding at most ten digits fills a prefix of the mask and ends in a digit. */
  lemma BandedShape(c: string)
    requires |c| <= 10
    requires forall i :: 0 <= i < |c| ==> IsDigit(c[i])
    ensures FitsMask(Banded(c))
    ensures Banded(c) != "" ==> IsDigit(Banded(c)[|Banded(c)| - 1])
    ensures Banded(c) == "" <==> c == ""
  {
    var r := Banded(c);
    forall i | 0 <= i < |r|
      ensures if Mask[i] == 'X' then IsDigit(r[i]) else r[i] == Mask[i]
    {
      if |c| >= 7 {
        assert r == "(" + c[..3] + ")-" + c[3..6] + "-" + c[6..];
      } else if |c| >= 4 {
        assert r == "(" + c[..3] + ")-" + c[3..];
      }
    }
  }

  /**
   * `formatPhoneNumber`: keep at most ten digits and group them as
   * (XXX)-XXX-XXXX. The result never exceeds the input's maxLength of 14.
   */
  function FormatPhoneNumber(s: string): (r: string)
    ensures |r| <= 14
  {
    Banded(Cleaned(s))
  }

  /**
   * The formatted text fills a prefix of the placeholder, ends in a digit,
   * and is empty exactly when the input has no digit.
   */
  lemma FormatShape(s: string)
    ensures FitsMask(FormatPhoneNumber(s))
    ensures FormatPhoneNumber(s) != "" ==> IsDigit(FormatPhoneNumber(s)[|FormatPhoneNumber(s)| - 1])
    ensures FormatPhoneNumber(s) == "" <==> Digits(s) == ""
  {
    BandedShape(Cleaned(s));
  }

  /** The digits of the formatted text are the first min(10, n) digits of the input, in order. */
  lemma FormatKeepsDigits(s: string)
    ensures Digits(FormatPhoneNumber(s)) == Cleaned(s)
  {
    var c := Cleaned(s);
    var r := FormatPhoneNumber(s);
    if |c| >= 7 {
      var g1, g2, g3 := "(" + c[..3], ")-" + c[3..6], "-" + c[6..];
      assert r == g1 + g2 + g3;
      DigitsOfGroup("(", c[..3]);
      DigitsOfGroup(")-", c[3..6]);
      DigitsOfGroup("-", c[6..]);
      DigitsAppend(g1 + g2, g3);
      DigitsAppend(g1, g2);
      assert c[..3] + c[3..6] + c[6..] == c;
    } else if |c| >= 4 {
      var g1, g2 := "(" + c[..3], ")-" + c[3..];
      assert r == g1 + g2;
      DigitsOfGroup("(", c[..3]);
      DigitsOfGroup(")-", c[3..]);
      DigitsAppend(g1, g2);
      assert c[..3] + c[3..] == c;
    } else if |c| > 0 {
      DigitsOfGroup("(", c);
    }
  }

  /**
   * Formatting is idempotent: the change handler re-formats the already
   * formatted text on every keystroke without altering it.
   */
  lemma {:induction false} FormatIdempotent(s: string)
    ensures FormatPhoneNumber(FormatPhoneNumber(s)) == FormatPhoneNumber(s)
  {
    FormatKeepsDigits(s);
    assert Cleaned(FormatPhoneNumber(s)) == Cleaned(s);
  }

  /** The outcome of the `validate` rule: `true`, or an error message. */
  datatype Verdict = Accepted | Rejected(message: string)

  const RequiredMessage := "Fax number is required."
  const LengthMessage := "Fax number must be 10 digits."

  /**
   * `faxNumber.validate`: required when no digit is present, accepted
   * exactly when the text holds ten digits, otherwise a length error.
   */
  function Validate(v: string): (r: Verdict)
    ensures r == Accepted <==> |Digits(v)| == 10
    ensures r == Rejected(RequiredMessage) <==> Digits(v) == ""
    ensures r == Rejected(LengthMessage) <==> Digits(v) != "" && |Digits(v)| != 10
  {
    var plain := Digits(v);
    if plain == "" then Rejected(RequiredMessage)
    else if |plain| == 10 then Accepted
    else Rejected(LengthMessage)
  }

  /** Digit extraction is idempotent. */
  lemma DigitsIdempotent(s: string)
    ensures Digits(Digits(s)) == Digits(s)
  {
    DigitsOfDigits(Digits(s));
  }

  /** Validating the stripped number (as the next-step handler does) gives the same verdict. */
  lemma ValidateStripped(v: string)
    ensures Validate(Digits(v)) == Validate(v)
  {
    DigitsIdempotent(v);
  }

  /** Masked text passes the rule exactly when the typed input held at least ten digits. */
  lemma ValidateFormatted(s: string)
    ensures Validate(FormatPhoneNumber(s)) == Accepted <==> |Digits(s)| >= 10
    ensures Validate(FormatPhoneNumber(s)) == Rejected(RequiredMessage) <==> Digits(s) == ""
  {
    FormatKeepsDigits(s);
  }
}
