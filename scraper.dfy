/**
 * The ticket search of scraper.py: Persian numerals are normalised, city names are
 * resolved to the provider's slugs, a "day month-name" date is turned into the provider's
 * date string, and the provider's answer is turned into one user-facing message.
 *
 * The HTTP request itself is not modelled: its outcome is the `Response` parameter.
 */
module Scraper {
  import opened Wrappers
  import opened PyStrings

  // ---------------------------------------------------------------- numerals

  const PersianNumerals: string := "۰۱۲۳۴۵۶۷۸۹"
  const EnglishNumerals: string := "0123456789"

  /** The translation table built by `str.maketrans(persian_numerals, english_numerals)`. */
  function TranslateNumeral(c: char): (r: char)
    ensures forall k :: 0 <= k < 10 && c == PersianNumerals[k] ==> r == EnglishNumerals[k]
    ensures c !in PersianNumerals ==> r == c
  {
    if '۰' <= c <= '۹' then DigitChar(c as int - '۰' as int) else c
  }

  /** `convert_persian_to_english_numerals`: translates every character through the table. */
  function ConvertPersianToEnglishNumerals(text: string): (r: string)
    ensures |r| == |text|
    ensures forall i :: 0 <= i < |text| ==> r[i] == TranslateNumeral(text[i])
  {
    if text == [] then [] else [TranslateNumeral(text[0])] + ConvertPersianToEnglishNumerals(text[1..])
  }

  /**
   * Position by position, each Persian digit becomes the ASCII digit of the same value and
   * every other character, the Arabic-Indic digits U+0660..U+0669 included, is kept.
   */
  lemma NumeralsTranslated(text: string)
    ensures var r := ConvertPersianToEnglishNumerals(text);
      && |r| == |text|
      && (forall i :: 0 <= i < |text| && text[i] in PersianNumerals ==>
            IsDigit(r[i]) && r[i] as int - '0' as int == text[i] as int - PersianNumerals[0] as int)
      && (forall i :: 0 <= i < |text| && text[i] !in PersianNumerals ==> r[i] == text[i])
      && (forall i :: 0 <= i < |text| && '\U{0660}' <= text[i] <= '\U{0669}' ==> r[i] == text[i])
  {
    var r := ConvertPersianToEnglishNumerals(text);
    forall i | 0 <= i < |text| && text[i] in PersianNumerals
      ensures IsDigit(r[i]) && r[i] as int - '0' as int == text[i] as int - PersianNumerals[0] as int
    {
      var k :| 0 <= k < 10 && PersianNumerals[k] == text[i];
    }
  }

  /** The normalised text holds no Persian digit. */
  lemma NoPersianNumeralsLeft(text: string)
    ensures forall i :: 0 <= i < |text| ==> ConvertPersianToEnglishNumerals(text)[i] !in PersianNumerals
  {
  }

  /** Normalising twice is normalising once. */
  lemma NumeralsIdempotent(text: string)
    ensures ConvertPersianToEnglishNumerals(ConvertPersianToEnglishNumerals(text))
         == ConvertPersianToEnglishNumerals(text)
  {
  }

  // ---------------------------------------------------------------- tables

  /** `PERSIAN_TO_ENGLISH_CITIES`; three spellings of Aran-o-Bidgol share one slug. */
  const PersianToEnglishCities: map<string, string> := map[
    "تهران" := "tehran", "اصفهان" := "isfahan", "شیراز" := "shiraz",
    "مشهد" := "mashhad", "یزد" := "yazd", "رشت" := "rasht", "بابل" := "babol",
    "ساری" := "sari", "آمل" := "amol", "قائمشهر" := "qaemshahr",
    "همدان" := "hamadan", "بابلسر" := "babolsar", "کاشان" := "kashan",
    "آران" := "aranvabidgol", "آران و بیدگل" := "aranvabidgol", "بیدگل" := "aranvabidgol"
  ]

  /** `PERSIAN_MONTHS`: month name to two-digit month code. */
  const PersianMonths: map<string, string> := map[
    "فروردین" := "01", "اردیبهشت" := "02", "خرداد" := "03", "تیر" := "04",
    "مرداد" := "05", "شهریور" := "06", "مهر" := "07", "آبان" := "08",
    "آذر" := "09", "دی" := "10", "بهمن" := "11", "اسفند" := "12"
  ]

  /** The months of the Solar Hijri calendar, in calendar order. */
  const CalendarMonths: seq<string> := [
    "فروردین", "اردیبهشت", "خرداد", "تیر", "مرداد", "شهریور",
    "مهر", "آبان", "آذر", "دی", "بهمن", "اسفند"
  ]

  /** `PERSIAN_TO_ENGLISH_CITIES.get(name)`. */
  function CityCode(name: string): (code: Option<string>)
    ensures code.Some? <==> name in PersianToEnglishCities
    ensures code.Some? ==> code.value == PersianToEnglishCities[name]
    ensures code.Some? ==> code.value != ""
  {
    if name in PersianToEnglishCities then Some(PersianToEnglishCities[name]) else None
  }

  /** Python's `not v` for `str | None`: None and the empty string are false. */
  predicate Falsy(v: Option<string>) {
    v.None? || v.value == ""
  }

  /** The three spellings of Aran-o-Bidgol resolve to the same slug. */
  lemma CityAliases()
    ensures CityCode("آران") == CityCode("آران و بیدگل") == CityCode("بیدگل") == Some("aranvabidgol")
  {
  }

  /** No slug is empty, so the falsiness test of find_tickets fails exactly on unknown names. */
  lemma CityUnknownIffAbsent(name: string)
    ensures (forall n :: n in PersianToEnglishCities ==> PersianToEnglishCities[n] != "")
    ensures Falsy(CityCode(name)) <==> name !in PersianToEnglishCities
  {
  }

  /** The name of the `i`-th month (counted from 0) is a key of the table, and every key is one of them. */
  lemma MonthKeys()
    ensures PersianMonths.Keys == set i | 0 <= i < 12 :: CalendarMonths[i]
  {
    forall m | m in PersianMonths ensures exists i :: 0 <= i < 12 && CalendarMonths[i] == m {
        if m == "فروردین" { assert CalendarMonths[0] == m; }
        else if m == "اردیبهشت" { assert CalendarMonths[1] == m; }
        else if m == "خرداد" { assert CalendarMonths[2] == m; }
        else if m == "تیر" { assert CalendarMonths[3] == m; }
        else if m == "مرداد" { assert CalendarMonths[4] == m; }
        else if m == "شهریور" { assert CalendarMonths[5] == m; }
        else if m == "مهر" { assert CalendarMonths[6] == m; }
        else if m == "آبان" { assert CalendarMonths[7] == m; }
        else if m == "آذر" { assert CalendarMonths[8] == m; }
        else if m == "دی" { assert CalendarMonths[9] == m; }
        else if m == "بهمن" { assert CalendarMonths[10] == m; }
        else { assert CalendarMonths[11] == m; }
    }
  }

  /** The code of the `i`-th month (counted from 0) is `str(i + 1).zfill(2)`. */
  lemma MonthCodes()
    ensures forall i :: 0 <= i < 12 ==> PersianMonths[CalendarMonths[i]] == Zfill(DecimalString(i + 1), 2)
  {
    forall i | 0 <= i < 12 ensures PersianMonths[CalendarMonths[i]] == Zfill(DecimalString(i + 1), 2) {
      TwoDigitMonth(i + 1);
      MonthTableCode(i);
    }
  }

  /** The two characters of `str(n).zfill(2)` for a month number `n`. */
  lemma TwoDigitMonth(n: nat)
    requires 1 <= n <= 12
    ensures Zfill(DecimalString(n), 2) == if n < 10 then ['0', DigitChar(n)] else ['1', DigitChar(n - 10)]
  {
    var d := DecimalString(n);
    if n < 10 {
      assert d == [DigitChar(n)];
      assert Zeros(1) == ['0'];
      assert Zfill(d, 2) == Zeros(1) + d;
    } else {
      assert n / 10 == 1 && n % 10 == n - 10;
      assert DecimalString(1) == ['1'];
      assert d == ['1', DigitChar(n - 10)];
    }
  }

  /** The table entry of the `i`-th month, written as its two digits. */
  lemma MonthTableCode(i: nat)
    requires i < 12
    ensures PersianMonths[CalendarMonths[i]] == if i + 1 < 10 then ['0', DigitChar(i + 1)] else ['1', DigitChar(i - 9)]
  {
    if i == 0 { assert PersianMonths[CalendarMonths[0]] == "01"; }
    else if i == 1 { assert PersianMonths[CalendarMonths[1]] == "02"; }
    else if i == 2 { assert PersianMonths[CalendarMonths[2]] == "03"; }
    else if i == 3 { assert PersianMonths[CalendarMonths[3]] == "04"; }
    else if i == 4 { assert PersianMonths[CalendarMonths[4]] == "05"; }
    else if i == 5 { assert PersianMonths[CalendarMonths[5]] == "06"; }
    else if i == 6 { assert PersianMonths[CalendarMonths[6]] == "07"; }
    else if i == 7 { assert PersianMonths[CalendarMonths[7]] == "08"; }
    else if i == 8 { assert PersianMonths[CalendarMonths[8]] == "09"; }
    else if i == 9 { assert PersianMonths[CalendarMonths[9]] == "10"; }
    else if i == 10 { assert PersianMonths[CalendarMonths[10]] == "11"; }
    else { assert PersianMonths[CalendarMonths[11]] == "12"; }
  }

  /** The month table has twelve entries. */
  lemma MonthCount()
    ensures |PersianMonths| == 12
  {
  }

  /** The code of the `i`-th month (counted from 0) is two digits denoting `i + 1`. */
  lemma MonthCodeValues()
    ensures forall i :: 0 <= i < 12 ==>
      var code := PersianMonths[CalendarMonths[i]];
      |code| == 2 && AllDigits(code) && DigitsValue(code) == i + 1
  {
    MonthCodes();
    forall i | 0 <= i < 12
      ensures var code := PersianMonths[CalendarMonths[i]];
        |code| == 2 && AllDigits(code) && DigitsValue(code) == i + 1
    {
      DecimalStringValue(i + 1);
      DecimalStringLength(i + 1);
      ZfillDigits(DecimalString(i + 1), 2);
    }
  }

  /** Distinct months have distinct codes. */
  lemma MonthsInjective()
    ensures forall a, b :: a in PersianMonths && b in PersianMonths && PersianMonths[a] == PersianMonths[b] ==> a == b
  {
    MonthKeys();
    MonthCodeValues();
    forall a, b | a in PersianMonths && b in PersianMonths && PersianMonths[a] == PersianMonths[b]
      ensures a == b
    {
      var i :| 0 <= i < 12 && CalendarMonths[i] == a;
      var j :| 0 <= j < 12 && CalendarMonths[j] == b;
      assert DigitsValue(PersianMonths[a]) == i + 1;
      assert DigitsValue(PersianMonths[b]) == j + 1;
    }
  }

  // ---------------------------------------------------------------- the date

  /** The fixed year prefixed to every date. */
  const Year: string := "1404"

  /** `day, month_name = s.split()` raises for a token count other than two; the month lookup raises for an unknown name. */
  datatype DateError = NotTwoTokens | UnknownMonth

  /** Lines 36-44 of find_tickets: the provider's date string, or the reason it cannot be built. */
  function FormatDate(dateStr: string): Result<string, DateError> {
    var tokens := Split(ConvertPersianToEnglishNumerals(dateStr));
    if |tokens| != 2 then Failure(NotTwoTokens)
    else if tokens[1] !in PersianMonths then Failure(UnknownMonth)
    else Success(Year + "-" + PersianMonths[tokens[1]] + "-" + Zfill(tokens[0], 2))
  }

  /**
   * A date is accepted exactly when the normalised text has two whitespace-separated
   * tokens and the second is a month name; the result is then "1404-", the month code, "-"
   * and the day token zero-filled to two characters. The day is not checked otherwise.
   */
  lemma FormatDateAccepts(dateStr: string)
    ensures var tokens := Split(ConvertPersianToEnglishNumerals(dateStr));
      && (FormatDate(dateStr).Success? <==> |tokens| == 2 && tokens[1] in PersianMonths)
      && (FormatDate(dateStr).Failure? ==> (FormatDate(dateStr).error == NotTwoTokens <==> |tokens| != 2))
      && (FormatDate(dateStr).Success? ==>
            var date := FormatDate(dateStr).value;
            && |date| >= 10
            && date[..5] == "1404-" && date[7] == '-'
            && date[5..7] == PersianMonths[tokens[1]]
            && date[8..] == Zfill(tokens[0], 2))
  {
    var tokens := Split(ConvertPersianToEnglishNumerals(dateStr));
    if |tokens| == 2 && tokens[1] in PersianMonths {
      MonthCodeLength(tokens[1]);
      DateLayout(PersianMonths[tokens[1]], Zfill(tokens[0], 2));
    }
  }

  lemma MonthCodeLength(month: string)
    requires month in PersianMonths
    ensures |PersianMonths[month]| == 2
  {
    MonthKeys();
    MonthCodeValues();
    var i :| 0 <= i < 12 && CalendarMonths[i] == month;
  }

  /** Where the parts of "1404-MM-DD" stand. */
  lemma DateLayout(code: string, day: string)
    requires |code| == 2 && |day| >= 2
    ensures var date := Year + "-" + code + "-" + day;
      && |date| >= 10 && date[..5] == "1404-" && date[5..7] == code && date[7] == '-' && date[8..] == day
  {
    var date := Year + "-" + code + "-" + day;
    assert date == "1404-" + code + "-" + day;
  }

  /** A day made of digits keeps its value and becomes at least two digits wide. */
  lemma FormattedDayValue(dateStr: string)
    requires FormatDate(dateStr).Success?
    requires AllDigits(Split(ConvertPersianToEnglishNumerals(dateStr))[0])
    ensures var day := FormatDate(dateStr).value[8..];
      && |day| >= 2 && AllDigits(day)
      && DigitsValue(day) == DigitsValue(Split(ConvertPersianToEnglishNumerals(dateStr))[0])
  {
    FormatDateAccepts(dateStr);
    ZfillDigits(Split(ConvertPersianToEnglishNumerals(dateStr))[0], 2);
  }

  /** Persian and ASCII digits give the same date: normalising first changes nothing. */
  lemma FormatDateIgnoresNumeralForm(dateStr: string)
    ensures FormatDate(ConvertPersianToEnglishNumerals(dateStr)) == FormatDate(dateStr)
  {
    NumeralsIdempotent(dateStr);
  }

  // ---------------------------------------------------------------- the provider's answer

  /** One element of the provider's `items` list, with every field find_tickets reads. */
  datatype Offer = Offer(
    companyPersianName: string,
    departureTime: string,
    price: int,
    originTerminalPersianName: string,
    busType: string)

  /**
   * The outcome of the HTTP request: a `RequestException` (connection failure, timeout,
   * non-2xx status), a body that is not JSON, or a JSON object whose "items" key may be absent.
   */
  datatype Response = ConnectionError | InvalidJson | Payload(items: Option<seq<Offer>>)

  /** The query parameters of line 49. */
  datatype SearchRequest = SearchRequest(date: string, destination: string, origin: string)

  /** `int(price / 10)`: the provider's price in display units, truncated toward zero. */
  function DisplayPrice(price: int): (r: int)
    ensures price >= 0 ==> 0 <= r && 10 * r <= price < 10 * r + 10
    ensures price < 0 ==> r <= 0 && 10 * r - 10 < price <= 10 * r
  {
    if price >= 0 then price / 10 else -((-price) / 10)
  }

  const Separator: string := "--------------------\n"

  function UnknownCityMessage(originName: string, destinationName: string): string {
    "متاسفانه شهر «" + originName + "» یا «" + destinationName + "» در لیست ما وجود ندارد."
  }

  const DateFormatMessage: string :=
    "فرمت تاریخ اشتباه است. لطفاً به صورت «روز ماه» وارد کنید (مثال: ۲۸ شهریور)."

  const ConnectionErrorMessage: string :=
    "خطا در اتصال به سرور جستجو. لطفاً لحظاتی دیگر دوباره تلاش کنید."

  const InvalidResponseMessage: string := "پاسخ دریافت شده از سرور معتبر نبود."

  function NoTicketsMessage(date: string, originName: string, destinationName: string): string {
    "متاسفانه در تاریخ " + date + " هیچ بلیطی از " + originName + " به " + destinationName + " یافت نشد."
  }

  function ResultsHeader(originName: string, destinationName: string, date: string): string {
    "نتایج یافت شده برای " + originName + " به " + destinationName + " در تاریخ " + date + ":\n\n"
  }

  /** The lines appended for one ticket, the separator line last. */
  function BlockLines(t: Offer): seq<string> {
    [ "🚌 شرکت: " + t.companyPersianName + "\n",
      "⏰ ساعت حرکت: " + t.departureTime + "\n",
      "💰 قیمت: " + WithThousands(DisplayPrice(t.price)) + " تومان\n",
      "📍 ترمینال: " + t.originTerminalPersianName + "\n",
      "نوع وسیله: " + t.busType + "\n",
      Separator ]
  }

  /** The text appended for one ticket. */
  function OfferBlock(t: Offer): string {
    Concat(BlockLines(t))
  }

  /** `available_tickets[:5]`. */
  function FirstFive(items: seq<Offer>): (r: seq<Offer>)
    ensures |r| == (if |items| < 5 then |items| else 5)
    ensures r == items[..|r|]
  {
    if |items| <= 5 then items else items[..5]
  }

  /** The blocks of the listed offers, in order. */
  function Blocks(offers: seq<Offer>): (r: seq<string>)
    ensures |r| == |offers| && forall i :: 0 <= i < |offers| ==> r[i] == OfferBlock(offers[i])
  {
    seq(|offers|, i requires 0 <= i < |offers| => OfferBlock(offers[i]))
  }

  /** Appending one more offer's block to the listing. */
  lemma BlocksStep(shown: seq<Offer>, i: nat)
    requires i < |shown|
    ensures Concat(Blocks(shown[..i + 1])) == Concat(Blocks(shown[..i])) + OfferBlock(shown[i])
  {
    assert Blocks(shown[..i + 1])[..i] == Blocks(shown[..i]);
  }

  /** Lines 27-49: the request to send, or the message that ends the search before it is sent. */
  function Query(originName: string, destinationName: string, dateStr: string): Result<SearchRequest, string> {
    var originEn := CityCode(originName);
    var destinationEn := CityCode(destinationName);
    if Falsy(originEn) || Falsy(destinationEn) then Failure(UnknownCityMessage(originName, destinationName))
    else match FormatDate(dateStr)
      case Failure(_) => Failure(DateFormatMessage)
      case Success(date) => Success(SearchRequest(date, destinationEn.value, originEn.value))
  }

  /** Lines 57-77: the message for the provider's answer to a request for `date`. */
  function Answer(originName: string, destinationName: string, date: string, response: Response): string {
    match response
    case ConnectionError => ConnectionErrorMessage
    case InvalidJson => InvalidResponseMessage
    case Payload(items) =>
      if items.Some? && items.value != [] then
        ResultsHeader(originName, destinationName, date) + Concat(Blocks(FirstFive(items.value)))
      else NoTicketsMessage(date, originName, destinationName)
  }

  /** What `find_tickets(originName, destinationName, dateStr)` returns when the request ends in `response`. */
  function Reply(originName: string, destinationName: string, dateStr: string, response: Response): string {
    match Query(originName, destinationName, dateStr)
    case Failure(message) => message
    case Success(request) => Answer(originName, destinationName, request.date, response)
  }

  /** `find_tickets`, with the message assembled by `+=` over the first five offers. */
  method FindTickets(originName: string, destinationName: string, dateStr: string, response: Response)
    returns (message: string)
    ensures message == Reply(originName, destinationName, dateStr, response)
  {
    var originEn := CityCode(originName);
    var destinationEn := CityCode(destinationName);
    if Falsy(originEn) || Falsy(destinationEn) {
      return UnknownCityMessage(originName, destinationName);
    }
    var date := FormatDate(dateStr);
    if date.Failure? {
      return DateFormatMessage;
    }
    var formattedDate := date.value;
    match response
    case ConnectionError =>
      message := ConnectionErrorMessage;
    case InvalidJson =>
      message := InvalidResponseMessage;
    case Payload(items) =>
      if items.Some? && items.value != [] {
        var availableTickets := items.value;
        message := ResultsHeader(originName, destinationName, formattedDate);
        var shown := FirstFive(availableTickets);
        var i := 0;
        while i < |shown|
          invariant 0 <= i <= |shown|
          invariant message == ResultsHeader(originName, destinationName, formattedDate) + Concat(Blocks(shown[..i]))
        {
          BlocksStep(shown, i);
          AppendAssociative(ResultsHeader(originName, destinationName, formattedDate), Concat(Blocks(shown[..i])), OfferBlock(shown[i]));
          message := message + OfferBlock(shown[i]);
          i := i + 1;
        }
        assert shown[..i] == shown;
      } else {
        message := NoTicketsMessage(formattedDate, originName, destinationName);
      }
  }

  // ---------------------------------------------------------------- properties of Reply

  /** An unknown city is reported, naming both inputs, before the date is looked at. */
  lemma UnknownCityFirst(originName: string, destinationName: string, dateStr: string, response: Response)
    requires originName !in PersianToEnglishCities || destinationName !in PersianToEnglishCities
    ensures Reply(originName, destinationName, dateStr, response) == UnknownCityMessage(originName, destinationName)
  {
  }

  /** With both cities known, a malformed date is reported and the provider is never consulted. */
  lemma BadDateSecond(originName: string, destinationName: string, dateStr: string, response: Response)
    requires originName in PersianToEnglishCities && destinationName in PersianToEnglishCities
    requires FormatDate(dateStr).Failure?
    ensures Reply(originName, destinationName, dateStr, response) == DateFormatMessage
  {
    CityUnknownIffAbsent(originName);
    CityUnknownIffAbsent(destinationName);
  }

  /** A request is sent exactly for known cities and a well-formed date, and it carries their slugs and the date string. */
  lemma QueryCarriesSlugs(originName: string, destinationName: string, dateStr: string)
    ensures Query(originName, destinationName, dateStr).Success? <==>
      originName in PersianToEnglishCities && destinationName in PersianToEnglishCities && FormatDate(dateStr).Success?
    ensures Query(originName, destinationName, dateStr).Success? ==>
      Query(originName, destinationName, dateStr).value ==
        SearchRequest(FormatDate(dateStr).value, PersianToEnglishCities[destinationName], PersianToEnglishCities[originName])
  {
    CityUnknownIffAbsent(originName);
    CityUnknownIffAbsent(destinationName);
  }

  /**
   * For a request that was sent: a failed connection and an unreadable body have their fixed
   * messages, an absent or empty list gives the no-tickets message for the date, and otherwise
   * the header is followed by the blocks of the first min(5, n) offers, in order, each ending
   * with the separator line.
   */
  lemma AnswerCases(originName: string, destinationName: string, dateStr: string, response: Response)
    requires Query(originName, destinationName, dateStr).Success?
    ensures var date := FormatDate(dateStr).value;
      var reply := Reply(originName, destinationName, dateStr, response);
      && (response == ConnectionError ==> reply == ConnectionErrorMessage)
      && (response == InvalidJson ==> reply == InvalidResponseMessage)
      && (response.Payload? && (response.items.None? || response.items.value == []) ==>
            reply == NoTicketsMessage(date, originName, destinationName))
      && (response.Payload? && response.items.Some? && response.items.value != [] ==>
            var items := response.items.value;
            var shown := Blocks(FirstFive(items));
            && |shown| == (if |items| < 5 then |items| else 5)
            && (forall k :: 0 <= k < |shown| ==> shown[k] == OfferBlock(items[k]) && EndsWith(shown[k], Separator))
            && reply == ResultsHeader(originName, destinationName, date) + Concat(shown))
  {
    QueryCarriesSlugs(originName, destinationName, dateStr);
    if response.Payload? && response.items.Some? && response.items.value != [] {
      var items := response.items.value;
      var shown := Blocks(FirstFive(items));
      forall k | 0 <= k < |shown| ensures shown[k] == OfferBlock(items[k]) && EndsWith(shown[k], Separator) {
        BlockEndsWithSeparator(items[k]);
      }
    }
  }

  predicate EndsWith(s: string, suffix: string) {
    |suffix| <= |s| && s[|s| - |suffix|..] == suffix
  }

  lemma BlockEndsWithSeparator(t: Offer)
    ensures EndsWith(OfferBlock(t), Separator)
  {
    var b := OfferBlock(t);
    assert b[|b| - |Separator|..] == Separator;
  }

  /** Writing the date with Persian or with ASCII digits yields the same reply. */
  lemma ReplyIgnoresNumeralForm(originName: string, destinationName: string, dateStr: string, response: Response)
    ensures Reply(originName, destinationName, ConvertPersianToEnglishNumerals(dateStr), response)
         == Reply(originName, destinationName, dateStr, response)
  {
    FormatDateIgnoresNumeralForm(dateStr);
  }

  // ---------------------------------------------------------------- worked examples

  /** A date whose normalised tokens are a day and a month name. */
  lemma FormatDateOfTokens(dateStr: string, day: string, month: string)
    requires Split(ConvertPersianToEnglishNumerals(dateStr)) == [day, month]
    requires month in PersianMonths
    ensures FormatDate(dateStr) == Success(Year + "-" + PersianMonths[month] + "-" + Zfill(day, 2))
  {
  }

  lemma ShahrivarNormalised()
    ensures ConvertPersianToEnglishNumerals("۲۸ شهریور") == "28 شهریور"
    ensures ConvertPersianToEnglishNumerals("28 شهریور") == "28 شهریور"
  {
  }

  lemma ShahrivarTokens()
    ensures Split("28 شهریور") == ["28", "شهریور"]
  {
    assert "28 شهریور" == "28" + [' '] + "شهریور";
    SplitTwoWords("28", ' ', "شهریور");
  }

  lemma ShahrivarCode()
    ensures PersianMonths["شهریور"] == "06"
  {
  }

  lemma ShahrivarDay()
    ensures Zfill("28", 2) == "28"
  {
  }

  lemma ShahrivarJoined()
    ensures Year + "-" + "06" + "-" + "28" == "1404-06-28"
  {
  }

  lemma ShahrivarAssembled(date: Result<string, DateError>)
    requires date == Success(Year + "-" + PersianMonths["شهریور"] + "-" + Zfill("28", 2))
    ensures date == Success("1404-06-28")
  {
    ShahrivarCode();
    ShahrivarDay();
    ShahrivarJoined();
  }

  lemma ShahrivarPersian()
    ensures FormatDate("۲۸ شهریور") == Success("1404-06-28")
  {
    ShahrivarNormalised();
    ShahrivarTokens();
    FormatDateOfTokens("۲۸ شهریور", "28", "شهریور");
    ShahrivarAssembled(FormatDate("۲۸ شهریور"));
  }

  lemma ShahrivarAscii()
    ensures FormatDate("28 شهریور") == Success("1404-06-28")
  {
    ShahrivarNormalised();
    ShahrivarTokens();
    FormatDateOfTokens("28 شهریور", "28", "شهریور");
    ShahrivarAssembled(FormatDate("28 شهریور"));
  }

  /** "۲۸ شهریور" and "28 شهریور" both become 1404-06-28. */
  lemma ShahrivarExample()
    ensures FormatDate("۲۸ شهریور") == FormatDate("28 شهریور") == Success("1404-06-28")
  {
    ShahrivarPersian();
    ShahrivarAscii();
  }

  lemma MordadNormalised()
    ensures ConvertPersianToEnglishNumerals("40 مرداد") == "40 مرداد"
  {
  }

  lemma MordadTokens()
    ensures Split("40 مرداد") == ["40", "مرداد"]
  {
    assert "40 مرداد" == "40" + [' '] + "مرداد";
    SplitTwoWords("40", ' ', "مرداد");
  }

  lemma MordadCode()
    ensures PersianMonths["مرداد"] == "05"
  {
  }

  lemma MordadDay()
    ensures Zfill("40", 2) == "40"
  {
  }

  lemma MordadJoined()
    ensures Year + "-" + "05" + "-" + "40" == "1404-05-40"
  {
  }

  lemma MordadAssembled(date: Result<string, DateError>)
    requires date == Success(Year + "-" + PersianMonths["مرداد"] + "-" + Zfill("40", 2))
    ensures date == Success("1404-05-40")
  {
    MordadCode();
    MordadDay();
    MordadJoined();
  }

  /** The day is not range-checked: "40 مرداد" is accepted as 1404-05-40. */
  lemma DayNotRangeChecked()
    ensures FormatDate("40 مرداد") == Success("1404-05-40")
  {
    MordadNormalised();
    MordadTokens();
    FormatDateOfTokens("40 مرداد", "40", "مرداد");
    MordadAssembled(FormatDate("40 مرداد"));
  }

  /** A provider price of 1234500 is shown as 123,450 and one of 500000 as 50,000. */
  lemma PriceExamples()
    ensures WithThousands(DisplayPrice(1234500)) == "123,450"
    ensures WithThousands(DisplayPrice(500000)) == "50,000"
  {
    assert DecimalString(123) == "123";
    assert DecimalString(50) == "50";
  }

  /** Seven offers are listed as exactly five blocks, for the first five offers. */
  lemma SevenOffersFiveBlocks(originName: string, destinationName: string, dateStr: string, items: seq<Offer>)
    requires Query(originName, destinationName, dateStr).Success?
    requires |items| == 7
    ensures Reply(originName, destinationName, dateStr, Payload(Some(items)))
         == ResultsHeader(originName, destinationName, FormatDate(dateStr).value)
            + Concat([OfferBlock(items[0]), OfferBlock(items[1]), OfferBlock(items[2]), OfferBlock(items[3]), OfferBlock(items[4])])
  {
    ReplyAnswers(originName, destinationName, dateStr, Payload(Some(items)));
    FiveOfSevenAnswered(originName, destinationName, FormatDate(dateStr).value, items);
  }

  /** The answer to seven offers holds the blocks of the first five. */
  lemma FiveOfSevenAnswered(originName: string, destinationName: string, date: string, items: seq<Offer>)
    requires |items| == 7
    ensures Answer(originName, destinationName, date, Payload(Some(items)))
         == ResultsHeader(originName, destinationName, date)
            + Concat([OfferBlock(items[0]), OfferBlock(items[1]), OfferBlock(items[2]), OfferBlock(items[3]), OfferBlock(items[4])])
  {
    LongListFiveBlocks(items);
  }

  /** A list of at least five offers is shown as the blocks of its first five. */
  lemma LongListFiveBlocks(items: seq<Offer>)
    requires |items| >= 5
    ensures Blocks(FirstFive(items))
         == [OfferBlock(items[0]), OfferBlock(items[1]), OfferBlock(items[2]), OfferBlock(items[3]), OfferBlock(items[4])]
  {
    var b := Blocks(FirstFive(items));
    assert |b| == 5 && forall k :: 0 <= k < 5 ==> b[k] == OfferBlock(items[k]);
  }

  /** Once the request is sent, the reply is the answer to the response for the formatted date. */
  lemma ReplyAnswers(originName: string, destinationName: string, dateStr: string, response: Response)
    requires Query(originName, destinationName, dateStr).Success?
    ensures Reply(originName, destinationName, dateStr, response)
         == Answer(originName, destinationName, FormatDate(dateStr).value, response)
  {
    QueryCarriesSlugs(originName, destinationName, dateStr);
  }

  /** A single offer is listed as the header and that offer's block. */
  lemma OneOfferListed(originName: string, destinationName: string, dateStr: string, offer: Offer)
    requires originName in PersianToEnglishCities && destinationName in PersianToEnglishCities
    requires FormatDate(dateStr).Success?
    ensures Reply(originName, destinationName, dateStr, Payload(Some([offer])))
         == ResultsHeader(originName, destinationName, FormatDate(dateStr).value) + OfferBlock(offer)
  {
    QueryCarriesSlugs(originName, destinationName, dateStr);
    assert FirstFive([offer]) == [offer];
    assert Blocks([offer]) == [OfferBlock(offer)];
    assert Concat([OfferBlock(offer)]) == Concat([]) + OfferBlock(offer);
  }

  /**
   * Tehran to Babol on "28 شهریور" with a single offer: the header names the route and
   * 1404-06-28 and exactly that offer's block follows.
   */
  lemma TehranBabolExample(offer: Offer)
    ensures Reply("تهران", "بابل", "28 شهریور", Payload(Some([offer])))
         == ResultsHeader("تهران", "بابل", "1404-06-28") + OfferBlock(offer)
  {
    ShahrivarAscii();
    OneOfferListed("تهران", "بابل", "28 شهریور", offer);
  }

  /** An offer priced 500000 has the price line "50,000 تومان". */
  lemma PriceLineExample(offer: Offer)
    requires offer.price == 500000
    ensures BlockLines(offer)[2] == "💰 قیمت: 50,000 تومان\n"
  {
    PriceExamples();
  }
}
