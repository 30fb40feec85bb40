/** Decimal text as Rust's `to_string` writes it and `str::parse` reads it. */
module Decimal {
  import opened Wrappers

  const I64_MAX: int := 0x7fff_ffff_ffff_ffff
  const U64_MAX: int := 0xffff_ffff_ffff_ffff

  predicate IsDigit(c: char) {
    '0' <= c <= '9'
  }

  predicate AllDigits(text: string) {
    forall at :: 0 <= at < |text| ==> IsDigit(text[at])
  }

  function Digit(value: nat): char
    requires value < 10
  {
    '0' + value as char
  }

  /** The shortest decimal text of a natural number. */
  function Natural(n: nat): string {
    if n < 10 then [Digit(n)] else Natural(n / 10) + [Digit(n % 10)]
  }

  function Signed(n: int): string {
    if n < 0 then "-" + Natural(-n) else Natural(n)
  }

  /** The number a run of digits denotes, leading zeros allowed. */
  function Denoted(text: string): nat
    requires AllDigits(text)
  {
    if text == "" then 0
    else Denoted(text[..|text| - 1]) * 10 + (text[|text| - 1] as int - '0' as int)
  }

  /** `parse` of an unsigned type whose largest value is `max`. */
  function ParseUnsigned(text: string, max: int): Option<nat> {
    var digits := if |text| > 0 && text[0] == '+' then text[1..] else text;
    if digits == "" || !AllDigits(digits) || Denoted(digits) > max then None
    else Some(Denoted(digits))
  }

  /** `parse::<i64>`. */
  function ParseSigned(text: string): Option<int> {
    if |text| > 0 && text[0] == '-' then
      var digits := text[1..];
      if digits == "" || !AllDigits(digits) || Denoted(digits) > I64_MAX + 1 then None
      else
        var size: int := Denoted(digits);
        Some(-size)
    else
      match ParseUnsigned(text, I64_MAX)
      case None => None
      case Some(n) => Some(n)
  }

  lemma {:induction false} NaturalDenotes(n: nat)
    ensures Natural(n) != "" && AllDigits(Natural(n))
    ensures Denoted(Natural(n)) == n
  {
    if n >= 10 {
      NaturalDenotes(n / 10);
      assert Natural(n)[..|Natural(n)| - 1] == Natural(n / 10);
    }
  }

  lemma ParseNatural(n: nat, max: int)
    requires n <= max
    ensures ParseUnsigned(Natural(n), max) == Some(n)
  {
    NaturalDenotes(n);
    assert IsDigit(Natural(n)[0]);
  }

  lemma ParseInteger(n: int)
    requires -I64_MAX - 1 <= n <= I64_MAX
    ensures ParseSigned(Signed(n)) == Some(n)
  {
    if n < 0 {
      NaturalDenotes(-n);
      assert Signed(n)[1..] == Natural(-n);
    } else {
      ParseNatural(n, I64_MAX);
      NaturalDenotes(n);
      assert IsDigit(Natural(n)[0]);
    }
  }

  lemma NaturalIsInjective(a: nat, b: nat)
    requires Natural(a) == Natural(b)
    ensures a == b
  {
    NaturalDenotes(a);
    NaturalDenotes(b);
  }

  lemma SignedIsInjective(a: int, b: int)
    requires Signed(a) == Signed(b)
    ensures a == b
  {
    NaturalDenotes(if a < 0 then -a else a);
    NaturalDenotes(if b < 0 then -b else b);
    if a < 0 {
      assert Signed(a)[0] == '-' && Signed(a)[1..] == Natural(-a);
    } else {
      assert IsDigit(Signed(a)[0]);
    }
    if b < 0 {
      assert Signed(b)[0] == '-' && Signed(b)[1..] == Natural(-b);
    } else {
      assert IsDigit(Signed(b)[0]);
    }
  }

  /** `split_once`: the text before and after the first `mark`. */
  function SplitOnce(text: string, mark: char): Option<(string, string)> {
    if text == "" then None
    else if text[0] == mark then Some(("", text[1..]))
    else
      match SplitOnce(text[1..], mark)
      case None => None
      case Some((before, after)) => Some(([text[0]] + before, after))
  }

  lemma {:induction false} SplitAtFirst(before: string, mark: char, after: string)
    requires mark !in before
    ensures SplitOnce(before + [mark] + after, mark) == Some((before, after))
  {
    var text := before + [mark] + after;
    if before == "" {
      assert text[1..] == after;
    } else {
      assert text[1..] == before[1..] + [mark] + after;
      SplitAtFirst(before[1..], mark, after);
      assert [before[0]] + before[1..] == before;
    }
  }

  /** `strip_prefix`. */
  function StripPrefix(text: string, prefix: string): Option<string> {
    if prefix <= text then Some(text[|prefix|..]) else None
  }

  /** `strip_suffix` of one character. */
  function StripLast(text: string, mark: char): Option<string> {
    if text != "" && text[|text| - 1] == mark then Some(text[..|text| - 1]) else None
  }

  lemma {:induction false} SplitIsExact(text: string, mark: char)
    ensures match SplitOnce(text, mark)
            case None => true
            case Some((before, after)) => text == before + [mark] + after && mark !in before
  {
    if text != "" && text[0] != mark {
      SplitIsExact(text[1..], mark);
    }
  }

  // ----- every text that `parse` reads as a number -----

  predicate Zeros(text: string) {
    forall at :: 0 <= at < |text| ==> text[at] == '0'
  }

  lemma {:induction false} ZerosDenoteNothing(zeros: string, text: string)
    requires Zeros(zeros) && AllDigits(text)
    ensures AllDigits(zeros + text) && Denoted(zeros + text) == Denoted(text)
    decreases |zeros| + |text|
  {
    if text != "" {
      ZerosDenoteNothing(zeros, text[..|text| - 1]);
      assert (zeros + text)[..|zeros + text| - 1] == zeros + text[..|text| - 1];
    } else if zeros != "" {
      ZerosDenoteNothing(zeros[..|zeros| - 1], text);
      assert zeros + text == zeros && zeros[..|zeros| - 1] + text == zeros[..|zeros| - 1];
    }
  }

  /** Digits are the shortest text of the number they denote after zeros. */
  lemma {:induction false} DigitsAreZerosAndNatural(text: string) returns (zeros: string)
    requires text != "" && AllDigits(text)
    ensures Zeros(zeros) && text == zeros + Natural(Denoted(text))
    decreases |text|
  {
    var last := |text| - 1;
    var digit := text[last] as int - '0' as int;
    assert text == text[..last] + [text[last]];
    if last == 0 {
      zeros := "";
      assert text[..0] == "";
    } else {
      var before := DigitsAreZerosAndNatural(text[..last]);
      if Denoted(text[..last]) == 0 {
        zeros := before + "0";
        assert text == zeros + [text[last]];
      } else {
        zeros := before;
      }
    }
  }

  predicate Fits(number: int) {
    -I64_MAX - 1 <= number <= I64_MAX
  }

  /** An optional sign, zeros, and the shortest text of the number. */
  ghost predicate SpelledWith(text: string, number: int, sign: string, zeros: string) {
    && Zeros(zeros) && text == sign + (zeros + Natural(Size(number)))
    && (sign == "" || sign == "+" ==> 0 <= number) && (sign == "-" ==> number <= 0)
    && (sign == "" || sign == "+" || sign == "-")
  }

  function Size(number: int): nat {
    if number < 0 then -number else number
  }

  lemma SpelledDigits(text: string, number: int, sign: string, zeros: string)
    requires SpelledWith(text, number, sign, zeros)
    ensures var digits := text[|sign|..];
            digits != "" && AllDigits(digits) && Denoted(digits) == Size(number) && IsDigit(digits[0])
    ensures text == sign + text[|sign|..]
  {
    var digits := zeros + Natural(Size(number));
    NaturalDenotes(Size(number));
    ZerosDenoteNothing(zeros, Natural(Size(number)));
    assert text[|sign|..] == digits;
  }

  lemma SpelledAreRead(text: string, number: int, sign: string, zeros: string)
    requires SpelledWith(text, number, sign, zeros)
    ensures Fits(number) ==> ParseSigned(text) == Some(number)
    ensures sign != "-" && number <= U64_MAX ==> ParseUnsigned(text, U64_MAX) == Some(number)
  {
    SpelledDigits(text, number, sign, zeros);
    hide Denoted, Natural;
    assert sign == "" ==> text[0] == text[|sign|..][0];
    assert sign != "" ==> text[0] == sign[0];
  }

  lemma DigitsAreSpelled(text: string, sign: string, number: int) returns (zeros: string)
    requires |sign| < |text| && text[..|sign|] == sign && AllDigits(text[|sign|..]) && Size(number) == Denoted(text[|sign|..])
    requires (sign == "" || sign == "+" ==> 0 <= number) && (sign == "-" ==> number <= 0) && (sign == "" || sign == "+" || sign == "-")
    ensures SpelledWith(text, number, sign, zeros)
  {
    hide Denoted, Natural;
    zeros := DigitsAreZerosAndNatural(text[|sign|..]);
    assert text == sign + text[|sign|..];
  }

  /** What `parse::<i64>` reads as a number: every text of it that fits, with
      leading zeros or a plus sign too, and minus zero. */
  lemma IntegersAreReadRespelled(text: string, number: int)
    ensures ParseSigned(text) == Some(number) <==> Fits(number) && exists sign, zeros :: SpelledWith(text, number, sign, zeros)
  {
    if ParseSigned(text) == Some(number) {
      hide SpelledWith, Denoted, Natural;
      var sign := if text[0] == '-' || text[0] == '+' then text[..1] else "";
      var zeros := DigitsAreSpelled(text, sign, number);
    }
    if Fits(number) && exists sign, zeros :: SpelledWith(text, number, sign, zeros) {
      hide SpelledWith, ParseSigned;
      var sign, zeros :| SpelledWith(text, number, sign, zeros);
      SpelledAreRead(text, number, sign, zeros);
    }
  }

  /** And as a length: the same, without a minus. */
  lemma LengthsAreReadRespelled(text: string, length: nat)
    ensures ParseUnsigned(text, U64_MAX) == Some(length)
            <==> length <= U64_MAX && exists sign, zeros :: sign != "-" && SpelledWith(text, length, sign, zeros)
  {
    if ParseUnsigned(text, U64_MAX) == Some(length) {
      hide SpelledWith, Denoted, Natural;
      var sign := if text[0] == '+' then text[..1] else "";
      var zeros := DigitsAreSpelled(text, sign, length);
    }
    if length <= U64_MAX && exists sign, zeros :: sign != "-" && SpelledWith(text, length, sign, zeros) {
      hide SpelledWith, ParseUnsigned;
      var sign, zeros :| sign != "-" && SpelledWith(text, length, sign, zeros);
      SpelledAreRead(text, length, sign, zeros);
    }
  }
}
