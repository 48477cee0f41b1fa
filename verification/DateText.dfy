/** The persisted form of a date: how `checkDate` prints it and how it parses it back. */
module DateText {

  datatype Date = Date(year: nat, month: nat, day: nat)

  /** What `substr` and `stoi` throw. */
  datatype Exception = OutOfRange | InvalidArgument

  datatype Result<+T> = Success(value: T) | Failure(exception: Exception) {
    predicate IsFailure() { Failure? }
    function PropagateFailure<U>(): Result<U>
      requires Failure?
    {
      Failure(exception)
    }
    function Extract(): T
      requires Success?
    {
      value
    }
  }

  // ---------- printing ----------

  function DigitOf(n: nat): char
    requires n < 10
  {
    "0123456789"[n]
  }

  /** `std::to_string` of a non-negative integer. */
  function ToString(n: nat): (s: string)
    ensures s != ""
  {
    if n < 10 then [DigitOf(n)] else ToString(n / 10) + [DigitOf(n % 10)]
  }

  function Padded(n: nat): string {
    if n < 10 then "0" + ToString(n) else ToString(n)
  }

  function Print(d: Date): string {
    ToString(d.year) + Padded(d.month) + Padded(d.day)
  }

  // ---------- parsing ----------

  predicate IsDigit(c: char) { '0' <= c <= '9' }

  predicate IsSpace(c: char) {
    c == ' ' || '\t' <= c <= '\r'
  }

  function SkipSpace(s: string): string {
    if s != "" && IsSpace(s[0]) then SkipSpace(s[1..]) else s
  }

  function LeadingDigits(s: string): string {
    if s != "" && IsDigit(s[0]) then [s[0]] + LeadingDigits(s[1..]) else ""
  }

  function Value(s: string): nat
    requires forall c | c in s :: IsDigit(c)
  {
    if s == "" then 0
    else
      assert IsDigit(s[|s| - 1]) && forall c | c in s[..|s| - 1] :: c in s;
      10 * Value(s[..|s| - 1]) + (s[|s| - 1] - '0') as nat
  }

  lemma {:induction false} LeadingDigitsAreDigits(s: string)
    ensures forall c | c in LeadingDigits(s) :: IsDigit(c)
    ensures (forall c | c in s :: IsDigit(c)) ==> LeadingDigits(s) == s
  {
    if s == "" {
    } else {
      LeadingDigitsAreDigits(s[1..]);
      assert s == [s[0]] + s[1..];
      assert (forall c | c in s :: IsDigit(c)) ==> IsDigit(s[0]) && forall c | c in s[1..] :: IsDigit(c);
    }
  }

  /** `stoi`: leading white space, a sign, digits; whatever follows is ignored. The substrings are too
      short to overflow. */
  function Stoi(s: string): Result<int> {
    var t := SkipSpace(s);
    var signed := t != "" && (t[0] == '-' || t[0] == '+');
    var digits := LeadingDigits(if signed then t[1..] else t);
    LeadingDigitsAreDigits(if signed then t[1..] else t);
    if digits == "" then Failure(InvalidArgument)
    else
      var value: int := Value(digits);
      Success(if signed && t[0] == '-' then -value else value)
  }

  function Substr(s: string, pos: nat, len: nat): Result<string> {
    if pos > |s| then Failure(OutOfRange)
    else if pos + len <= |s| then Success(s[pos..pos + len])
    else Success(s[pos..])
  }

  datatype ParsedDate = ParsedDate(year: int, month: int, day: int)

  function Parse(s: string): Result<ParsedDate> {
    var y :- Substr(s, 0, 4);
    var year :- Stoi(y);
    var m :- Substr(s, 4, 2);
    var month :- Stoi(m);
    var d :- Substr(s, 6, 2);
    var day :- Stoi(d);
    Success(ParsedDate(year, month, day))
  }

  // ---------- round trip ----------

  ghost predicate Digits(s: string) {
    forall c | c in s :: IsDigit(c)
  }

  lemma DigitsConcat(a: string, b: string)
    ensures Digits(a + b) <==> Digits(a) && Digits(b)
  {
    assert forall c | c in a :: c in a + b;
    assert forall c | c in b :: c in a + b;
  }

  lemma ValuePush(s: string, n: nat)
    requires Digits(s) && n < 10
    ensures Digits(s + [DigitOf(n)]) && Value(s + [DigitOf(n)]) == 10 * Value(s) + n
  {
    DigitsConcat(s, [DigitOf(n)]);
    assert (s + [DigitOf(n)])[..|s|] == s;
  }

  lemma {:induction false} ToStringValue(n: nat)
    ensures Digits(ToString(n)) && Value(ToString(n)) == n
  {
    if n < 10 {
      ValuePush("", n);
      assert "" + [DigitOf(n)] == [DigitOf(n)];
    } else {
      ToStringValue(n / 10);
      ValuePush(ToString(n / 10), n % 10);
    }
  }

  function Power10(k: nat): nat {
    if k == 0 then 1 else 10 * Power10(k - 1)
  }

  lemma {:induction false} ToStringLength(n: nat)
    ensures n < Power10(|ToString(n)|)
    ensures 1 < |ToString(n)| ==> Power10(|ToString(n)| - 1) <= n
  {
    if n < 10 {
    } else {
      ToStringLength(n / 10);
    }
  }

  lemma {:induction false} ValueBound(s: string)
    requires Digits(s)
    ensures Value(s) < Power10(|s|)
  {
    if s == "" {
    } else {
      assert s[|s| - 1] in s;
      assert forall c | c in s[..|s| - 1] :: c in s;
      ValueBound(s[..|s| - 1]);
    }
  }

  lemma {:induction false} ValueOfPrefix(a: string, b: string)
    requires Digits(a + b)
    ensures Digits(a) && Value(a) <= Value(a + b)
    ensures b != "" ==> 10 * Value(a) <= Value(a + b)
  {
    DigitsConcat(a, b);
    if b == "" {
      assert a + b == a;
    } else {
      var front := b[..|b| - 1];
      assert (a + b)[..|a + b| - 1] == a + front;
      DigitsConcat(a + front, b[|b| - 1..]);
      assert a + b == a + front + b[|b| - 1..];
      ValueOfPrefix(a, front);
    }
  }

  lemma PaddedValue(n: nat)
    requires n < 100
    ensures |Padded(n)| == 2 && Digits(Padded(n)) && Value(Padded(n)) == n
  {
    ToStringValue(n);
    if n < 10 {
      ValuePush("", 0);
      ValuePush("0", n);
    } else {
      assert n / 10 < 10;
    }
  }

  lemma StoiOfDigits(s: string)
    requires Digits(s) && s != ""
    ensures Stoi(s) == Success(Value(s))
  {
    assert s[0] in s;
    LeadingDigitsAreDigits(s);
  }

  lemma {:induction false} LeadingDigitsStop(s: string, rest: string)
    requires Digits(s) && (rest == "" || !IsDigit(rest[0]))
    ensures LeadingDigits(s + rest) == s
  {
    if s == "" {
      assert s + rest == rest;
    } else {
      assert s[0] in s && (s + rest)[1..] == s[1..] + rest;
      assert forall c | c in s[1..] :: c in s;
      LeadingDigitsStop(s[1..], rest);
      assert s == [s[0]] + s[1..];
    }
  }

  /** `stoi` stops at what is not a digit. */
  lemma StoiStops(s: string, rest: string)
    requires Digits(s) && s != "" && (rest == "" || !IsDigit(rest[0]))
    ensures Stoi(s + rest) == Success(Value(s))
  {
    assert s[0] in s;
    LeadingDigitsStop(s, rest);
    assert SkipSpace(s + rest) == s + rest;
  }

  /** It skips white space: the space and the five control characters from tab to carriage return. */
  lemma StoiSkipsSpace(c: char, s: string)
    requires c in " \t\n\r" || c as int in {11, 12}
    ensures Stoi([c] + s) == Stoi(s)
  {
    assert ([c] + s)[1..] == s;
    assert IsSpace(c);
  }

  /** And it takes a sign. */
  lemma StoiTakesSign(s: string)
    requires s != "" && IsDigit(s[0])
    ensures Stoi("+" + s) == Stoi(s) && Stoi(s).Success?
    ensures Stoi("-" + s) == Success(-Stoi(s).value)
  {
    assert ("+" + s)[1..] == s && ("-" + s)[1..] == s;
    assert SkipSpace(s) == s;
    assert SkipSpace("+" + s) == "+" + s && SkipSpace("-" + s) == "-" + s;
    assert LeadingDigits(s) != "";
  }

  lemma ToStringOfFourDigits(n: nat)
    requires n < 10000
    ensures |ToString(n)| <= 4
    ensures |ToString(n)| == 4 <==> 1000 <= n
  {
    ToStringLength(n);
    assert Power10(1) == 10 && Power10(2) == 100 && Power10(3) == 1000 && Power10(4) == 10000;
    PowerMonotone(4, |ToString(n)| - 1);
    PowerMonotone(|ToString(n)|, 3);
  }

  lemma {:induction false} PowerMonotone(a: nat, b: nat)
    ensures a <= b ==> Power10(a) <= Power10(b)
    decreases b
  {
    if b <= a {
    } else {
      PowerMonotone(a, b - 1);
    }
  }

  lemma FourDigitDatesReturn(d: Date)
    requires d.month < 100 && d.day < 100 && 1000 <= d.year <= 9999
    ensures Parse(Print(d)) == Success(ParsedDate(d.year, d.month, d.day))
  {
    var y, m, n := ToString(d.year), Padded(d.month), Padded(d.day);
    ToStringOfFourDigits(d.year);
    ToStringValue(d.year);
    PaddedValue(d.month);
    PaddedValue(d.day);
    StoiOfDigits(y);
    StoiOfDigits(m);
    StoiOfDigits(n);
    var s := Print(d);
    assert s[0..4] == y && s[4..6] == m && s[6..8] == n;
  }

  lemma PrintIsLongEnough(d: Date)
    requires d.month < 100 && d.day < 100
    ensures Digits(Print(d)) && 5 <= |Print(d)|
    ensures |ToString(d.year)| + 4 == |Print(d)|
  {
    ToStringValue(d.year);
    PaddedValue(d.month);
    PaddedValue(d.day);
    DigitsConcat(ToString(d.year), Padded(d.month));
    DigitsConcat(ToString(d.year) + Padded(d.month), Padded(d.day));
  }

  /** The first four characters are what is parsed as the year. */
  lemma ParsedYear(d: Date, head: string)
    requires d.month < 100 && d.day < 100 && 4 <= |Print(d)| && head == Print(d)[..4]
    ensures Digits(head)
    ensures Parse(Print(d)).Success? ==> Parse(Print(d)).value.year == Value(head)
  {
    var s := Print(d);
    PrintIsLongEnough(d);
    assert s == head + s[4..] && s[0..4] == head;
    DigitsConcat(head, s[4..]);
    StoiOfDigits(head);
    assert Substr(s, 0, 4) == Success(head);
  }

  lemma FourDigitsBound(head: string)
    requires Digits(head) && |head| == 4
    ensures Value(head) < 10000
  {
    ValueBound(head);
    assert Power10(2) == 100;
    assert Power10(4) == 10000;
  }

  lemma ShortYearGrows(d: Date, head: string)
    requires d.month < 100 && d.day < 100 && 0 < d.year < 1000
    requires 4 <= |Print(d)| && head == Print(d)[..4] && Digits(head)
    ensures d.year < Value(head)
  {
    var y := ToString(d.year);
    ToStringOfFourDigits(d.year);
    ToStringValue(d.year);
    assert head == y + head[|y|..];
    ValueOfPrefix(y, head[|y|..]);
  }

  lemma YearZeroGrows(d: Date, head: string)
    requires 1 <= d.month < 100 && d.day < 100 && d.year == 0
    requires 4 <= |Print(d)| && head == Print(d)[..4] && Digits(head)
    ensures d.year < Value(head)
  {
    PaddedValue(d.month);
    assert ToString(d.year) == "0";
    var zm := "0" + Padded(d.month);
    assert head == zm + head[3..];
    ValueOfPrefix(zm, head[3..]);
    ValueOfTail(Padded(d.month));
  }

  lemma OtherYearsDoNotReturn(d: Date)
    requires 1 <= d.month < 100 && d.day < 100 && !(1000 <= d.year <= 9999)
    ensures Parse(Print(d)).Success? ==> Parse(Print(d)).value.year != d.year
  {
    PrintIsLongEnough(d);
    var head := Print(d)[..4];
    ParsedYear(d, head);
    if 9999 < d.year {
      FourDigitsBound(head);
    } else if d.year == 0 {
      YearZeroGrows(d, head);
    } else {
      ShortYearGrows(d, head);
    }
  }

  lemma {:induction false} ValueOfTail(s: string)
    requires Digits("0" + s)
    ensures Digits(s) && Value("0" + s) == Value(s)
  {
    DigitsConcat("0", s);
    if s == "" {
      assert "0" + s == "0";
      ValuePush("", 0);
      assert "" + [DigitOf(0)] == "0";
    } else {
      var front := s[..|s| - 1];
      assert ("0" + s)[..|s|] == "0" + front;
      DigitsConcat("0" + front, s[|s| - 1..]);
      assert "0" + s == "0" + front + s[|s| - 1..];
      ValueOfTail(front);
    }
  }

  lemma ValueOfTwoMore(a: string, b: string)
    requires Digits(a) && Digits(b) && |b| == 2
    ensures Digits(a + b) && Value(a + b) == 100 * Value(a) + Value(b)
  {
    DigitsConcat(a, b);
    DigitsConcat(a, b[..1]);
    assert b == b[..1] + b[1..];
    DigitsConcat(b[..1], b[1..]);
    assert (a + b)[..|a| + 1] == a + b[..1] && (a + b[..1])[..|a|] == a;
    assert Value(a + b[..1]) == 10 * Value(a) + Value(b[..1]);
  }

  /** What is printed, read as one number, is yyyymmdd. */
  lemma PrintIsYearMonthDay(d: Date)
    requires d.month < 100 && d.day < 100
    ensures Digits(Print(d)) && Value(Print(d)) == 10000 * d.year + 100 * d.month + d.day
  {
    ToStringValue(d.year);
    PaddedValue(d.month);
    PaddedValue(d.day);
    ValueOfTwoMore(ToString(d.year), Padded(d.month));
    ValueOfTwoMore(ToString(d.year) + Padded(d.month), Padded(d.day));
  }

  lemma PartsOf(year: nat, month: nat, day: nat, n: nat)
    requires month < 100 && day < 100 && n == 100 * (100 * year + month) + day
    ensures n / 10000 == year && n / 100 % 100 == month && n % 100 == day
  {
    assert n / 100 == 100 * year + month;
    assert n / 10000 == year;
  }

  /** And eight digits are parsed as that number's parts. */
  lemma ParseIsYearMonthDay(s: string)
    requires Digits(s) && |s| == 8
    ensures Parse(s) == Success(ParsedDate(Value(s) / 10000, Value(s) / 100 % 100, Value(s) % 100))
  {
    var y, m, d := s[..4], s[4..6], s[6..];
    assert s == y + m + d && s[0..4] == y && s[6..8] == d;
    DigitsConcat(y + m, d);
    DigitsConcat(y, m);
    ValueOfTwoMore(y, m);
    ValueOfTwoMore(y + m, d);
    TwoDigits(m);
    TwoDigits(d);
    PartsOf(Value(y), Value(m), Value(d), Value(s));
    StoiOfDigits(y);
    StoiOfDigits(m);
    StoiOfDigits(d);
  }

  /** Of strings of digits exactly those of seven or more are parsed. A shorter one throws what `substr` throws
      if a part would start behind its end, and what `stoi` throws if a part is empty. */
  lemma DigitStringsParseIff(s: string)
    requires Digits(s)
    ensures Parse(s).Success? <==> 7 <= |s|
    ensures Parse(s) == Failure(OutOfRange) <==> |s| in {1, 2, 3, 5}
    ensures Parse(s) == Failure(InvalidArgument) <==> |s| in {0, 4, 6}
  {
    PartParses(s, 0, 4);
    PartParses(s, 4, 2);
    PartParses(s, 6, 2);
  }

  lemma PartParses(s: string, pos: nat, len: nat)
    requires Digits(s) && 0 < len
    ensures Substr(s, pos, len) == Failure(OutOfRange) <==> |s| < pos
    ensures var part := Substr(s, pos, len);
      part.Success? ==>
        && (|s| == pos ==> Stoi(part.value) == Failure(InvalidArgument))
        && (pos < |s| ==> Stoi(part.value).Success?)
  {
    if pos < |s| {
      var part := Substr(s, pos, len).value;
      assert forall c | c in part :: c in s;
      StoiOfDigits(part);
    }
  }

  lemma TwoDigits(s: string)
    requires Digits(s) && |s| == 2
    ensures Value(s) < 100
  {
    ValueBound(s);
    assert Power10(2) == 100;
  }

  /** The date that the configuration file is shipped with. */
  lemma ShippedDate()
    ensures Print(Date(2023, 2, 20)) == "20230220"
    ensures Parse("20230220") == Success(ParsedDate(2023, 2, 20))
  {
    assert ToString(2023) == "2023";
    assert ToString(20) == "20";
    FourDigitDatesReturn(Date(2023, 2, 20));
  }

  /** Printing and parsing a calendar date returns the same date exactly for four-digit years. */
  lemma RoundTripIff(d: Date)
    requires 1 <= d.month < 100 && d.day < 100
    ensures Parse(Print(d)) == Success(ParsedDate(d.year, d.month, d.day)) <==> 1000 <= d.year <= 9999
  {
    if 1000 <= d.year <= 9999 {
      FourDigitDatesReturn(d);
    } else {
      OtherYearsDoNotReturn(d);
    }
  }
}
