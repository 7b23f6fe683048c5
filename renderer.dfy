/**
 * The data-handling prefix of the receipt renderer: defaults, the rent/charges
 * breakdown, the French month table, the last day of the month, the period
 * range strings and the printed amounts.  Amounts are integer cents.
 */
module Renderer {
  import opened Wrappers
  import opened JsText

  const DefaultOwner := "Anne Funfschilling"
  const DefaultTenant := "Justine Chartrain"
  const DefaultAddress := "10 Rue de la Pierre, B\U{00E2}timent B, Appartement B01\n37100 Tours"
  const DefaultAmount := 71500
  const DefaultPeriod := "Janvier 2026"
  const DefaultMonth := "Janvier"
  const DefaultYear := "2026"

  /** The one amount that is split into rent and charges, and its split. */
  const SplitAmount := 71500
  const SplitRent := 67000
  const SplitCharges := 4500

  /** What the renderer is given; the empty string and `None` stand for an absent field. */
  datatype ReceiptData = ReceiptData(tenantName: string, address: string, amount: Option<int>, period: string)

  /** `s || fallback` on a string. */
  function OrDefault(s: string, fallback: string): (r: string)
    ensures r != [] || fallback == []
  {
    if s == [] then fallback else s
  }

  // ---------------------------------------------------------------- amounts

  datatype Breakdown = Breakdown(rent: int, charges: int)

  /** The hard-coded split of the full amount into rent and charges. */
  function BreakdownOf(full: int): Breakdown {
    if full == SplitAmount then Breakdown(SplitRent, SplitCharges) else Breakdown(full, 0)
  }

  /** The split always adds up to the full amount; only 715.00 carries charges. */
  lemma BreakdownAddsUp(full: int)
    ensures BreakdownOf(full).rent + BreakdownOf(full).charges == full
    ensures full == SplitAmount ==> BreakdownOf(full) == Breakdown(67000, 4500)
    ensures full != SplitAmount ==> BreakdownOf(full) == Breakdown(full, 0)
    ensures BreakdownOf(full).charges != 0 <==> full == 71500
  {
  }

  /** The euros of a non-negative amount in decimal, `,`, and its two cent digits. */
  function FormatUnsigned(m: nat): (r: string)
    ensures |r| >= 4 && r[|r| - 3] == ',' && IsDigit(r[0])
    ensures IsDigit(r[|r| - 2]) && IsDigit(r[|r| - 1])
  {
    NatToString(m / 100) + [',', DigitChar(m % 100 / 10), DigitChar(m % 10)]
  }

  /** `parseFloat(x).toFixed(2).replace('.', ',')` for an amount in cents. */
  function FormatCents(c: int): (r: string)
    ensures |r| >= 4 && r[|r| - 3] == ','
    ensures IsDigit(r[|r| - 2]) && IsDigit(r[|r| - 1])
    ensures c < 0 <==> r[0] == '-'
  {
    if c < 0 then "-" + FormatUnsigned(-c) else FormatUnsigned(c)
  }

  /** The value of the euro digits and the two cent digits, if they are all digits. */
  function ParseParts(whole: string, frac: string): Option<nat> {
    if !AllDigits(whole) || !AllDigits(frac) then None
    else Some(100 * DigitsValue(whole) + DigitsValue(frac))
  }

  /** Reads back an unsigned printed amount: decimal digits, `,`, two digits. */
  function ParseUnsigned(t: string): Option<nat> {
    if |t| < 4 || t[|t| - 3] != ',' then None
    else ParseParts(t[..|t| - 3], t[|t| - 2..])
  }

  /** Reads back a printed amount: an optional `-` before an unsigned one. */
  function ParseCents(s: string): Option<int> {
    if s != [] && s[0] == '-' then
      match ParseUnsigned(s[1..])
      case Some(m) => Some(-(m as int))
      case None => None
    else ParseUnsigned(s)
  }

  lemma TwoDigitValue(a: nat, b: nat)
    requires a < 10 && b < 10
    ensures DigitsValue([DigitChar(a), DigitChar(b)]) == 10 * a + b
  {
    var s := [DigitChar(a), DigitChar(b)];
    assert s[..1] == [DigitChar(a)];
    assert [DigitChar(a)][..0] == [];
    assert DigitValue(DigitChar(a)) == a;
    assert DigitValue(DigitChar(b)) == b;
    assert DigitsValue([DigitChar(a)]) == a;
  }

  /** Reading an unsigned amount printed from its parts. */
  lemma ParseUnsignedOfParts(whole: string, frac: string)
    requires whole != [] && AllDigits(whole) && |frac| == 2 && AllDigits(frac)
    ensures ParseUnsigned(whole + [','] + frac) == Some(100 * DigitsValue(whole) + DigitsValue(frac))
  {
    var t := whole + [','] + frac;
    assert |t| >= 4 && t[|t| - 3] == ',';
    assert t[..|t| - 3] == whole;
    assert t[|t| - 2..] == frac;
    assert ParseUnsigned(t) == ParseParts(whole, frac);
  }

  /** The remainder by ten is the last digit, however the rest is grouped. */
  lemma LastDigit(m: nat, q: nat, u: nat)
    requires m == 10 * q + u && u < 10
    ensures m % 10 == u && m / 10 == q
  {
  }

  /** An amount in cents is its euros, its tens of cents and its cents. */
  lemma CentsDigits(m: nat)
    ensures 100 * (m / 100) + 10 * (m % 100 / 10) + m % 10 == m
  {
    var e, r := m / 100, m % 100;
    var t, u := r / 10, r % 10;
    assert r == 10 * t + u;
    assert m == 100 * e + r;
    LastDigit(m, 10 * e + t, u);
  }

  /** A printed non-negative amount reads back as the amount. */
  lemma FormatUnsignedRoundTrip(m: nat)
    ensures ParseUnsigned(FormatUnsigned(m)) == Some(m)
  {
    var whole := NatToString(m / 100);
    var frac := [DigitChar(m % 100 / 10), DigitChar(m % 10)];
    assert FormatUnsigned(m) == whole + [','] + frac;
    NatToStringRoundTrip(m / 100);
    TwoDigitValue(m % 100 / 10, m % 10);
    ParseUnsignedOfParts(whole, frac);
    CentsDigits(m);
  }

  /** A leading `-` negates what the rest reads as. */
  lemma ParseCentsNegative(u: string, m: nat)
    requires ParseUnsigned(u) == Some(m)
    ensures ParseCents("-" + u) == Some(-(m as int))
  {
    assert ("-" + u)[1..] == u;
  }

  /** Without a leading `-` the text reads as an unsigned amount. */
  lemma ParseCentsNonNegative(u: string)
    requires u != [] && IsDigit(u[0])
    ensures ParseCents(u) == ParseUnsigned(u)
  {
  }

  /** Every printed amount reads back as the amount it prints. */
  lemma FormatCentsRoundTrip(c: int)
    ensures ParseCents(FormatCents(c)) == Some(c)
  {
    if c < 0 {
      FormatUnsignedRoundTrip(-c);
      ParseCentsNegative(FormatUnsigned(-c), -c);
    } else {
      FormatUnsignedRoundTrip(c);
      ParseCentsNonNegative(FormatUnsigned(c));
    }
  }

  /** The spelled-out amount: written only for 715.00, a placeholder otherwise. */
  function AmountInWords(full: int): (r: string)
    ensures r == "Sept cent quinze euros" <==> full == SplitAmount
  {
    if full == SplitAmount then "Sept cent quinze euros" else "..."
  }

  // ---------------------------------------------------------------- months and days

  const MonthNames: seq<string> := [
    "Janvier", "F\U{00E9}vrier", "Mars", "Avril", "Mai", "Juin",
    "Juillet", "Ao\U{00FB}t", "Septembre", "Octobre", "Novembre", "D\U{00E9}cembre"]

  /** The renderer's `months` object. */
  const Months: map<string, string> := map[
    "Janvier" := "01", "F\U{00E9}vrier" := "02", "Mars" := "03", "Avril" := "04",
    "Mai" := "05", "Juin" := "06", "Juillet" := "07", "Ao\U{00FB}t" := "08",
    "Septembre" := "09", "Octobre" := "10", "Novembre" := "11", "D\U{00E9}cembre" := "12"]

  /** The renderer's `lastDayMap` before the leap-year update. */
  const LastDays: map<string, nat> := map[
    "01" := 31, "02" := 28, "03" := 31, "04" := 30, "05" := 31, "06" := 30,
    "07" := 31, "08" := 31, "09" := 30, "10" := 31, "11" := 30, "12" := 31]

  /** `n` as two decimal digits. */
  function TwoDigits(n: nat): string
    requires n < 100
  {
    [DigitChar(n / 10), DigitChar(n % 10)]
  }

  /** `months[monthName] || '01'`. */
  function MonthNumber(name: string): (r: string)
    ensures r in LastDays
  {
    if name in Months then Months[name] else "01"
  }

  /** The name at index `i` of the table gives the number `i + 1` in two digits. */
  lemma MonthNumberNamed(i: nat)
    requires i < 12
    ensures MonthNumber(MonthNames[i]) == TwoDigits(i + 1)
  {
  }

  /** A token that is none of the twelve names gives '01'. */
  lemma MonthNumberFallback(name: string)
    requires name !in MonthNames
    ensures MonthNumber(name) == "01"
  {
    assert forall k :: k in Months ==> k in MonthNames;
  }

  /** Each of the twelve capitalised names gives its two-digit number; any other name gives '01'. */
  lemma MonthNumberTable(name: string)
    ensures forall i :: 0 <= i < 12 ==> MonthNumber(MonthNames[i]) == TwoDigits(i + 1)
    ensures name !in MonthNames ==> MonthNumber(name) == "01"
  {
    forall i | 0 <= i < 12
      ensures MonthNumber(MonthNames[i]) == TwoDigits(i + 1)
    {
      MonthNumberNamed(i);
    }
    if name !in MonthNames {
      MonthNumberFallback(name);
    }
  }

  /** Every key of the month table starts with an upper-case ASCII letter. */
  lemma MonthKeysCapitalised(name: string)
    requires name in Months
    ensures name != [] && 'A' <= name[0] <= 'Z'
  {
  }

  /** A lower-cased name is never in the table, so it falls back to '01': the table is
      case-sensitive. */
  lemma LowerCaseMonthFallsBack(name: string)
    ensures MonthNumber(ToLower(name)) == "01"
  {
    if ToLower(name) in Months {
      MonthKeysCapitalised(ToLower(name));
      assert false;
    }
  }

  /** `year % 4 === 0` on the year token; only plain digit strings are read as numbers
      (the empty string reads as 0, as in JavaScript). */
  predicate YearDivisibleBy4(year: string) {
    AllDigits(year) && DigitsValue(year) % 4 == 0
  }

  /** The table entry for the month, with February set to 29 in years divisible by 4. */
  function LastDay(monthNum: string, year: string): (d: nat)
    requires monthNum in LastDays
  {
    var table := if monthNum == "02" && YearDivisibleBy4(year) then LastDays["02" := 29] else LastDays;
    table[monthNum]
  }

  /** The last day always lies in 28..31; February has 29 days exactly in years divisible by 4
      and 28 otherwise; every other month keeps its table entry. */
  lemma LastDayRange(monthNum: string, year: string)
    requires monthNum in LastDays
    ensures 28 <= LastDay(monthNum, year) <= 31
    ensures monthNum == "02" ==> (LastDay(monthNum, year) == 29 <==> YearDivisibleBy4(year))
    ensures monthNum == "02" ==> (LastDay(monthNum, year) == 28 <==> !YearDivisibleBy4(year))
    ensures monthNum != "02" ==> LastDay(monthNum, year) == LastDays[monthNum] >= 30
  {
  }

  // ---------------------------------------------------------------- the period

  /** The month name and year token read from a label, the month number and the last day;
      the printed range and long form are derived from them. */
  datatype Period = Period(monthName: string, year: string, monthNum: string, lastDay: nat) {
    /** `01/${monthNum}/${year}`. */
    function Start(): string {
      "01/" + monthNum + "/" + year
    }

    /** `${lastDay}/${monthNum}/${year}`. */
    function End(): string {
      NatToString(lastDay) + "/" + monthNum + "/" + year
    }

    /** `du 1er au ${lastDay} ${monthName.toLowerCase()} ${year}`. */
    function Long(): string {
      "du 1er au " + NatToString(lastDay) + " " + ToLower(monthName) + " " + year
    }
  }

  /** The period fields for a month name and a year token. */
  function MakePeriod(monthName: string, year: string): Period {
    var monthNum := MonthNumber(monthName);
    var lastDay := LastDay(monthNum, year);
    Period(monthName, year, monthNum, lastDay)
  }

  /** Splits the text on single spaces: month from the first token, year from the second,
      each defaulting when absent or empty; later tokens are ignored. */
  function PeriodOf(text: string): Period {
    PeriodOfTokens(Split(OrDefault(text, DefaultPeriod), ' '))
  }

  /** The period read from the space-separated tokens of the label. */
  function PeriodOfTokens(parts: seq<string>): Period
    requires |parts| >= 1
  {
    MakePeriod(OrDefault(parts[0], DefaultMonth), OrDefault(if |parts| > 1 then parts[1] else [], DefaultYear))
  }

  /** Two non-empty leading tokens are the month name and the year. */
  lemma PeriodOfLeadingTokens(parts: seq<string>)
    requires |parts| >= 2 && parts[0] != [] && parts[1] != []
    ensures PeriodOfTokens(parts) == MakePeriod(parts[0], parts[1])
  {
  }

  /** "Month Year" is read as that month and that year. */
  lemma {:induction false} PeriodOfTwoTokens(month: string, year: string)
    requires month != [] && year != []
    requires ' ' !in month && ' ' !in year
    ensures PeriodOf(month + " " + year) == MakePeriod(month, year)
  {
    SplitPair(month, year, ' ');
    PeriodOfLeadingTokens([month, year]);
  }

  /** Tokens after the second are ignored. */
  lemma {:induction false} PeriodIgnoresExtraTokens(month: string, year: string, rest: string)
    requires month != [] && year != []
    requires ' ' !in month && ' ' !in year
    ensures PeriodOf(month + " " + year + " " + rest) == MakePeriod(month, year)
  {
    SplitCons(year, rest, ' ');
    SplitCons(month, year + " " + rest, ' ');
    assert month + " " + year + " " + rest == month + [' '] + (year + [' '] + rest);
    PeriodOfLeadingTokens([month, year] + Split(rest, ' '));
  }

  /** A one-token text takes the default year 2026, and the empty text is "Janvier 2026". */
  lemma {:induction false} PeriodYearDefault(month: string)
    requires ' ' !in month
    ensures month != [] ==> PeriodOf(month) == MakePeriod(month, "2026")
    ensures PeriodOf("") == MakePeriod("Janvier", "2026")
  {
    if month != [] {
      PeriodOneToken(month);
    }
    PeriodOfEmpty();
  }

  lemma PeriodOneToken(month: string)
    requires month != [] && ' ' !in month
    ensures PeriodOf(month) == MakePeriod(month, "2026")
  {
    SplitCons(month, [], ' ');
    assert PeriodOfTokens([month]) == MakePeriod(month, DefaultYear);
  }

  lemma PeriodOfEmpty()
    ensures PeriodOf("") == MakePeriod("Janvier", "2026")
  {
    DefaultPeriodSplits();
    PeriodOfLeadingTokens(["Janvier", "2026"]);
  }

  /** The month number and the last day of a period are each two digits. */
  lemma PeriodFieldsShape(monthName: string, year: string)
    ensures var p := MakePeriod(monthName, year);
            && |p.monthNum| == 2 && AllDigits(p.monthNum) && 28 <= p.lastDay <= 31
            && |NatToString(p.lastDay)| == 2 && AllDigits(NatToString(p.lastDay))
  {
    var p := MakePeriod(monthName, year);
    LastDayRange(p.monthNum, p.year);
    assert p.lastDay / 10 < 10;
  }

  /** Two days of the same width before the same "/MM/YEAR" agree after the day. */
  lemma SameTail(d: string, monthNum: string, year: string)
    requires |d| == 2
    ensures var start := "01/" + monthNum + "/" + year;
            var end := d + "/" + monthNum + "/" + year;
            |start| == |end| && start[2..] == end[2..]
  {
    var rest := "/" + monthNum + "/" + year;
    assert "01/" + monthNum + "/" + year == "01" + rest;
    assert d + "/" + monthNum + "/" + year == d + rest;
  }

  /** The start and end of the period for a month name and a year token share everything
      after the day. */
  lemma MakePeriodRange(monthName: string, year: string)
    ensures var p := MakePeriod(monthName, year);
            && |p.monthNum| == 2 && 28 <= p.lastDay <= 31
            && |p.Start()| == |p.End()| && p.Start()[2..] == p.End()[2..]
  {
    var p := MakePeriod(monthName, year);
    PeriodFieldsShape(monthName, year);
    SameTail(NatToString(p.lastDay), p.monthNum, p.year);
  }

  /** The end of the period splits on '/' into day, month number and year. */
  lemma MakePeriodEndSplits(monthName: string, year: string)
    requires '/' !in year
    ensures var p := MakePeriod(monthName, year);
            Split(p.End(), '/') == [NatToString(p.lastDay), p.monthNum, p.year]
  {
    var p := MakePeriod(monthName, year);
    PeriodFieldsShape(monthName, year);
    var d := NatToString(p.lastDay);
    assert '/' !in d && '/' !in p.monthNum;
    SplitThree(d, p.monthNum, p.year, '/');
  }

  /** The range is "01/MM/YEAR" to "LAST/MM/YEAR" with the same month number and year token,
      and it splits back on '/' into day, month number and year. */
  lemma PeriodRange(text: string)
    ensures var p := PeriodOf(text);
            && |p.monthNum| == 2 && 28 <= p.lastDay <= 31
            && p.Start() == "01/" + p.monthNum + "/" + p.year
            && p.End() == NatToString(p.lastDay) + "/" + p.monthNum + "/" + p.year
            && |p.Start()| == |p.End()| && p.Start()[2..] == p.End()[2..]
            && ('/' !in p.year ==> Split(p.End(), '/') == [NatToString(p.lastDay), p.monthNum, p.year])
  {
    var p := PeriodOf(text);
    assert p == MakePeriod(p.monthName, p.year);
    MakePeriodRange(p.monthName, p.year);
    if '/' !in p.year {
      MakePeriodEndSplits(p.monthName, p.year);
    }
  }

  /** The long form is "du 1er au <last day> <month> <year>" with the month name lower-cased
      character by character. */
  lemma PeriodLongForm(text: string)
    ensures var p := PeriodOf(text);
            var k := |p.Long()| - |p.year| - 1 - |p.monthName|;
            && 12 <= k && p.Long()[..10] == "du 1er au " && p.Long()[k - 1] == ' '
            && p.Long()[k..] == ToLower(p.monthName) + " " + p.year
            && forall i :: 0 <= i < |p.monthName| ==> p.Long()[k + i] == LowerChar(p.monthName[i])
  {
    var p := PeriodOf(text);
    var d := NatToString(p.lastDay);
    var lower := ToLower(p.monthName);
    assert p.Long() == ("du 1er au " + d + " ") + (lower + " " + p.year);
  }

  /** Appending a digit multiplies the value by ten and adds the digit. */
  lemma DigitsValueSnoc(s: string, c: char)
    requires AllDigits(s) && IsDigit(c)
    ensures AllDigits(s + [c])
    ensures DigitsValue(s + [c]) == 10 * DigitsValue(s) + DigitValue(c)
  {
    assert (s + [c])[..|s|] == s;
  }

  /** The year "YYYY" for four digits, read as a number. */
  lemma FourDigitYear(a: nat, b: nat, c: nat, d: nat)
    requires a < 10 && b < 10 && c < 10 && d < 10
    ensures var y := [DigitChar(a), DigitChar(b), DigitChar(c), DigitChar(d)];
            AllDigits(y) && DigitsValue(y) == 1000 * a + 100 * b + 10 * c + d
  {
    var A, B, C, D := DigitChar(a), DigitChar(b), DigitChar(c), DigitChar(d);
    assert DigitValue(A) == a && DigitValue(B) == b && DigitValue(C) == c && DigitValue(D) == d;
    DigitsValueSnoc([], A);
    assert [] + [A] == [A];
    DigitsValueSnoc([A], B);
    assert [A] + [B] == [A, B];
    DigitsValueSnoc([A, B], C);
    assert [A, B] + [C] == [A, B, C];
    DigitsValueSnoc([A, B, C], D);
    assert [A, B, C] + [D] == [A, B, C, D];
  }

  lemma JanuaryFields()
    ensures MakePeriod("Janvier", "2026").Start() == "01/01/2026"
    ensures MakePeriod("Janvier", "2026").End() == "31/01/2026"
  {
    JanuaryPeriod("2026");
  }

  /** January runs from the first to the 31st in any year token. */
  lemma JanuaryPeriod(year: string)
    ensures MakePeriod("Janvier", year).Start() == "01/01/" + year
    ensures MakePeriod("Janvier", year).End() == "31/01/" + year
  {
    MonthNumberNamed(0);
    assert MonthNumber("Janvier") == "01";
    LastDayRange("01", year);
    assert NatToString(31) == "31";
  }

  /** January 2026 runs from 01/01/2026 to 31/01/2026. */
  lemma JanuaryExample()
    ensures PeriodOf("Janvier 2026").Start() == "01/01/2026"
    ensures PeriodOf("Janvier 2026").End() == "31/01/2026"
  {
    assert "Janvier 2026" == "Janvier" + " " + "2026";
    PeriodOfTwoTokens("Janvier", "2026");
    JanuaryFields();
  }

  /** "Février YEAR" ends on the 29th exactly when the year token reads as a multiple of 4. */
  lemma FebruaryLastDay(year: string)
    requires year != [] && ' ' !in year
    ensures PeriodOf("F\U{00E9}vrier" + " " + year).lastDay == if YearDivisibleBy4(year) then 29 else 28
  {
    PeriodOfTwoTokens("F\U{00E9}vrier", year);
    FebruaryNumber();
    LastDayRange("02", year);
  }

  lemma FebruaryNumber()
    ensures MonthNumber("F\U{00E9}vrier") == "02"
  {
    MonthNumberNamed(1);
    assert MonthNames[1] == "F\U{00E9}vrier";
  }

  lemma Year2024()
    ensures YearDivisibleBy4("2024")
  {
    FourDigitYear(2, 0, 2, 4);
    assert "2024" == [DigitChar(2), DigitChar(0), DigitChar(2), DigitChar(4)];
  }

  lemma Year1900()
    ensures YearDivisibleBy4("1900")
  {
    FourDigitYear(1, 9, 0, 0);
    assert "1900" == [DigitChar(1), DigitChar(9), DigitChar(0), DigitChar(0)];
  }

  lemma Year2025()
    ensures !YearDivisibleBy4("2025")
  {
    FourDigitYear(2, 0, 2, 5);
    assert "2025" == [DigitChar(2), DigitChar(0), DigitChar(2), DigitChar(5)];
  }

  /** February has 29 days in 2024 and in 1900 (the simplified rule), 28 in 2025 and in a
      year that is not a number. */
  lemma FebruaryExamples()
    ensures PeriodOf("F\U{00E9}vrier 2024").lastDay == 29
    ensures PeriodOf("F\U{00E9}vrier 1900").lastDay == 29
    ensures PeriodOf("F\U{00E9}vrier 2025").lastDay == 28
    ensures PeriodOf("F\U{00E9}vrier deux").lastDay == 28
  {
    assert "F\U{00E9}vrier 2024" == "F\U{00E9}vrier" + " " + "2024";
    assert "F\U{00E9}vrier 1900" == "F\U{00E9}vrier" + " " + "1900";
    assert "F\U{00E9}vrier 2025" == "F\U{00E9}vrier" + " " + "2025";
    assert "F\U{00E9}vrier deux" == "F\U{00E9}vrier" + " " + "deux";
    FebruaryLastDay("2024");
    FebruaryLastDay("1900");
    FebruaryLastDay("2025");
    FebruaryLastDay("deux");
    Year2024();
    Year1900();
    Year2025();
    assert !YearDivisibleBy4("deux") by {
      assert !IsDigit("deux"[0]);
    }
  }

  // ---------------------------------------------------------------- the rendered fields

  datatype Rendered = Rendered(
    ownerName: string, tenantName: string, address: string, attestationAddress: string,
    period: Period, total: string, rent: string, charges: string, amountInWords: string)

  /** Everything `generateReceiptBuffer` computes before drawing, as the code computes it;
      `ownerEnv` is OWNER_NAME. */
  function RenderAsWritten(data: ReceiptData, ownerEnv: string): Rendered {
    var address := OrDefault(data.address, DefaultAddress);
    var full := data.amount.GetOr(DefaultAmount);
    var split := BreakdownOf(full);
    Rendered(OrDefault(ownerEnv, DefaultOwner), OrDefault(data.tenantName, DefaultTenant),
             address, ReplaceFirst(address, '\n', ", "),
             PeriodOf(data.period),
             FormatCents(full), FormatCents(split.rent), FormatCents(split.charges),
             AmountInWords(full))
  }

  /** The same fields with the period read the intended way, `TolerantPeriodOf`
      (see `DailyLabelMisread`). */
  function RenderCorrected(data: ReceiptData, ownerEnv: string): Rendered {
    RenderAsWritten(data, ownerEnv).(period := TolerantPeriodOf(data.period))
  }

  /** On a "Month year" label with a table month, and on an absent label, the corrected
      rendering is the rendering as written. */
  lemma RenderCorrectedAgrees(data: ReceiptData, ownerEnv: string, i: nat, year: string)
    requires i < 12 && year != [] && ' ' !in year
    requires data.period == MonthNames[i] + " " + year
    ensures RenderCorrected(data, ownerEnv) == RenderAsWritten(data, ownerEnv)
  {
    TolerantAgreesOnMonthYear(i, year);
  }

  /** With no label, both readings give January 2026. */
  lemma RenderCorrectedDefault(data: ReceiptData, ownerEnv: string)
    requires data.period == ""
    ensures RenderCorrected(data, ownerEnv) == RenderAsWritten(data, ownerEnv)
  {
    DefaultPeriodSplits();
    TolerantOfTwoTokens(["Janvier", "2026"]);
    CapitalizeJanvier();
    PeriodOfEmpty();
  }

  /** The printed total reads back as the amount (715.00 when absent), and the printed rent
      and charges read back as its split. */
  lemma RenderAmounts(data: ReceiptData, ownerEnv: string)
    ensures var r := RenderAsWritten(data, ownerEnv);
            var full := data.amount.GetOr(71500);
            && ParseCents(r.total) == Some(full)
            && ParseCents(r.rent) == Some(BreakdownOf(full).rent)
            && ParseCents(r.charges) == Some(BreakdownOf(full).charges)
            && BreakdownOf(full).rent + BreakdownOf(full).charges == full
  {
    var full := data.amount.GetOr(71500);
    FormatCentsRoundTrip(full);
    FormatCentsRoundTrip(BreakdownOf(full).rent);
    FormatCentsRoundTrip(BreakdownOf(full).charges);
  }

  /** The attestation address differs from the address at its first line break only. */
  lemma RenderAttestationAddress(data: ReceiptData, ownerEnv: string)
    ensures var r := RenderAsWritten(data, ownerEnv);
            var k := IndexOf(r.address, '\n');
            r.attestationAddress == if k == |r.address| then r.address
                                    else r.address[..k] + ", " + r.address[k + 1..]
  {
    ReplaceFirstAt(OrDefault(data.address, DefaultAddress), '\n', ", ");
  }

  /** The default label splits into "Janvier" and "2026". */
  lemma DefaultPeriodSplits()
    ensures Split(OrDefault("", DefaultPeriod), ' ') == ["Janvier", "2026"]
  {
    SplitPair("Janvier", "2026", ' ');
    assert DefaultPeriod == "Janvier" + " " + "2026";
  }

  lemma CapitalizeJanvier()
    ensures Capitalize("Janvier") == "Janvier"
  {
    assert UpperChar('J') == ['J'];
  }

  /** An absent period is read, the corrected way, as January 2026. */
  lemma DefaultPeriodTolerant()
    ensures TolerantPeriodOf("").Start() == "01/01/2026"
    ensures TolerantPeriodOf("").End() == "31/01/2026"
  {
    DefaultPeriodSplits();
    TolerantOfTwoTokens(["Janvier", "2026"]);
    CapitalizeJanvier();
    JanuaryFields();
  }

  /** With every field absent the renderer uses the fixed owner, tenant and address,
      715.00 split as 670.00 + 45.00, and the January 2026 period. */
  lemma RenderDefaults()
    ensures var r := RenderAsWritten(ReceiptData("", "", None, ""), "");
            && r.ownerName == DefaultOwner && r.tenantName == DefaultTenant
            && r.address == DefaultAddress
            && ParseCents(r.total) == Some(71500)
            && ParseCents(r.rent) == Some(67000) && ParseCents(r.charges) == Some(4500)
            && r.amountInWords == "Sept cent quinze euros"
            && r.period.Start() == "01/01/2026" && r.period.End() == "31/01/2026"
  {
    RenderAmounts(ReceiptData("", "", None, ""), "");
    PeriodOfEmpty();
    JanuaryFields();
  }

  // ---------------------------------------------------------------- the daily label

  /** The period fields taken the intended way: a three-token "day month year"
      text uses its last two tokens, and the month name is matched after capitalisation. */
  function TolerantPeriodOf(text: string): Period {
    TolerantPeriodOfTokens(Split(OrDefault(text, DefaultPeriod), ' '))
  }

  /** The tolerant reading of the space-separated tokens of the label. */
  function TolerantPeriodOfTokens(parts: seq<string>): Period
    requires |parts| >= 1
  {
    var n := |parts|;
    var month := if n >= 3 then parts[n - 2] else parts[0];
    var year := if n >= 3 then parts[n - 1] else if n == 2 then parts[1] else [];
    MakePeriod(Capitalize(OrDefault(month, DefaultMonth)), OrDefault(year, DefaultYear))
  }

  /** A month token that is no table name gives the January range in the year token. */
  lemma FallbackPeriod(month: string, year: string)
    requires month !in MonthNames
    ensures MakePeriod(month, year).monthNum == "01"
    ensures MakePeriod(month, year).Start() == "01/01/" + year
    ensures MakePeriod(month, year).End() == "31/01/" + year
  {
    MonthNumberFallback(month);
    assert NatToString(31) == "31";
  }

  lemma DailyLabelFields()
    ensures MakePeriod("8", "f\U{00E9}vrier").Start() == "01/01/f\U{00E9}vrier"
    ensures MakePeriod("8", "f\U{00E9}vrier").End() == "31/01/f\U{00E9}vrier"
  {
    DayNumberIsNoMonth("8");
    FallbackPeriod("8", "f\U{00E9}vrier");
  }

  /** The scheduled job's daily label "8 février 2026" is read with month "8" and year
      "février": the range printed is 01/01/février to 31/01/février. */
  lemma DailyLabelMisread()
    ensures PeriodOf("8 f\U{00E9}vrier 2026").Start() == "01/01/f\U{00E9}vrier"
    ensures PeriodOf("8 f\U{00E9}vrier 2026").End() == "31/01/f\U{00E9}vrier"
  {
    assert "8 f\U{00E9}vrier 2026" == "8" + " " + "f\U{00E9}vrier" + " " + "2026";
    PeriodIgnoresExtraTokens("8", "f\U{00E9}vrier", "2026");
    DailyLabelFields();
  }

  /** A token starting with a lower-case ASCII letter is no month name. */
  lemma LowerInitialIsNoMonth(name: string)
    requires name != [] && 'a' <= name[0] <= 'z'
    ensures name !in MonthNames
  {
    assert forall i :: 0 <= i < 12 ==> 'A' <= MonthNames[i][0] <= 'Z';
  }

  /** A label typed in lower case, "février 2026", is read as January as written and as
      February the intended way. */
  lemma LowerCaseLabel()
    ensures PeriodOf("f\U{00E9}vrier 2026").monthNum == "01"
    ensures TolerantPeriodOf("f\U{00E9}vrier 2026").monthNum == "02"
  {
    assert "f\U{00E9}vrier 2026" == "f\U{00E9}vrier" + " " + "2026";
    PeriodOfTwoTokens("f\U{00E9}vrier", "2026");
    LowerInitialIsNoMonth("f\U{00E9}vrier");
    MonthNumberFallback("f\U{00E9}vrier");
    assert Capitalize("f\U{00E9}vrier") == "F\U{00E9}vrier" == MonthNames[1];
    TolerantPeriodReadsMonthYear("f\U{00E9}vrier", "2026");
    FebruaryNumber();
  }

  /** A token starting with a digit is no month name. */
  lemma DayNumberIsNoMonth(day: string)
    requires day != [] && IsDigit(day[0])
    ensures day !in MonthNames
  {
    assert forall i :: 0 <= i < 12 ==> 'A' <= MonthNames[i][0] <= 'Z';
  }

  /** Any "<day> <month> <year>" label whose first token is no month name is read as January,
      with its second token, the month word, as the year. */
  lemma {:induction false} DailyLabelRead(day: string, month: string, year: string)
    requires day != [] && month != [] && ' ' !in day && ' ' !in month && day !in MonthNames
    ensures var p := PeriodOf(day + " " + month + " " + year);
            && p.monthName == day && p.monthNum == "01" && p.year == month
            && p.Start() == "01/01/" + month && p.End() == "31/01/" + month
  {
    PeriodIgnoresExtraTokens(day, month, year);
    FallbackPeriod(day, month);
  }

  /** Of three tokens, the non-empty second and third are the month name, capitalised,
      and the year. */
  lemma TolerantOfThreeTokens(parts: seq<string>)
    requires |parts| == 3 && parts[1] != [] && parts[2] != []
    ensures TolerantPeriodOfTokens(parts) == MakePeriod(Capitalize(parts[1]), parts[2])
  {
  }

  /** Of two non-empty tokens, the first is the month name, capitalised, and the second
      the year. */
  lemma TolerantOfTwoTokens(parts: seq<string>)
    requires |parts| == 2 && parts[0] != [] && parts[1] != []
    ensures TolerantPeriodOfTokens(parts) == MakePeriod(Capitalize(parts[0]), parts[1])
  {
  }

  /** Read tolerantly, a "day month year" text whose month capitalises to a table name
      gives that month and the year token. */
  lemma {:induction false} TolerantPeriodReadsDayMonthYear(day: string, month: string, year: string)
    requires Capitalize(month) in MonthNames
    requires day != [] && year != [] && ' ' !in day && ' ' !in month && ' ' !in year
    ensures TolerantPeriodOf(day + " " + month + " " + year) == MakePeriod(Capitalize(month), year)
  {
    assert month != [];
    SplitThree(day, month, year, ' ');
    TolerantOfThreeTokens([day, month, year]);
  }

  /** Read tolerantly, "month year" gives the capitalised month and the year token. */
  lemma {:induction false} TolerantPeriodReadsMonthYear(month: string, year: string)
    requires Capitalize(month) in MonthNames
    requires year != [] && ' ' !in month && ' ' !in year
    ensures TolerantPeriodOf(month + " " + year) == MakePeriod(Capitalize(month), year)
  {
    assert month != [];
    SplitPair(month, year, ' ');
    TolerantOfTwoTokens([month, year]);
  }

  /** Each table name is one token that capitalisation leaves as it is. */
  lemma MonthNameShape(i: nat)
    requires i < 12
    ensures MonthNames[i] != [] && ' ' !in MonthNames[i]
    ensures Capitalize(MonthNames[i]) == MonthNames[i]
  {
    MonthNameToken(i);
    CapitalizeKeepsRest(MonthNames[i]);
  }

  /** Each table name is a non-empty token starting with an upper-case ASCII letter. */
  lemma MonthNameToken(i: nat)
    requires i < 12
    ensures MonthNames[i] != [] && ' ' !in MonthNames[i] && 'A' <= MonthNames[i][0] <= 'Z'
  {
  }

  /** On the "Month year" labels the renderer was written for, the tolerant reading agrees
      with the renderer's own. */
  lemma TolerantAgreesOnMonthYear(i: nat, year: string)
    requires i < 12 && year != [] && ' ' !in year
    ensures TolerantPeriodOf(MonthNames[i] + " " + year) == PeriodOf(MonthNames[i] + " " + year)
  {
    var month := MonthNames[i];
    MonthNameShape(i);
    TolerantPeriodReadsMonthYear(month, year);
    PeriodOfTwoTokens(month, year);
  }

  /** February starts on the first and, in a year token not divisible by 4, ends on the 28th. */
  lemma FebruaryPeriod(year: string)
    ensures MakePeriod("F\U{00E9}vrier", year).Start() == "01/02/" + year
    ensures !YearDivisibleBy4(year) ==> MakePeriod("F\U{00E9}vrier", year).End() == "28/02/" + year
  {
    FebruaryNumber();
    LastDayRange("02", year);
    assert NatToString(28) == "28";
  }

  lemma Year2026()
    ensures !YearDivisibleBy4("2026")
  {
    FourDigitYear(2, 0, 2, 6);
    assert "2026" == [DigitChar(2), DigitChar(0), DigitChar(2), DigitChar(6)];
  }

  lemma FebruaryFields()
    ensures MakePeriod("F\U{00E9}vrier", "2026").Start() == "01/02/2026"
    ensures MakePeriod("F\U{00E9}vrier", "2026").End() == "28/02/2026"
  {
    Year2026();
    FebruaryPeriod("2026");
  }

  /** The daily label, read tolerantly, gives February 2026: 01/02/2026 to 28/02/2026. */
  lemma DailyLabelReadTolerantly()
    ensures TolerantPeriodOf("8 f\U{00E9}vrier 2026").Start() == "01/02/2026"
    ensures TolerantPeriodOf("8 f\U{00E9}vrier 2026").End() == "28/02/2026"
  {
    assert Capitalize("f\U{00E9}vrier") == "F\U{00E9}vrier" == MonthNames[1];
    assert "8 f\U{00E9}vrier 2026" == "8" + " " + "f\U{00E9}vrier" + " " + "2026";
    TolerantPeriodReadsDayMonthYear("8", "f\U{00E9}vrier", "2026");
    FebruaryFields();
  }
}
