/** The personal data form of the candidate profile page: the input masks for
    phone and date, the conversions between the Brazilian `DD/MM/YYYY` display
    and the ISO `YYYY-MM-DD` the API speaks, the submit guard, and the cache
    update after a successful save. The education form uses the same date
    helpers. "Today" is injected as a calendar date. */
module PersonalInfo {
  import opened Common
  import opened Calendar
  import opened ProfileCache
  import CandidateValidator
  import CandidatesController

  function Min(a: int, b: int): (r: int) {
    if a <= b then a else b
  }

  // ---------------------------------------------------------------------------
  // Phone mask

  /** The mask `formatPhone` puts on a digit string. */
  function PhoneMask(numbers: string): (r: string) {
    if |numbers| <= 2 then numbers
    else if |numbers| <= 7 then "(" + numbers[..2] + ") " + numbers[2..]
    else "(" + numbers[..2] + ") " + numbers[2..7] + "-" + numbers[7..Min(11, |numbers|)]
  }

  /** `formatPhone`: the digits of the input, at most 11 of them, in the mask
      `(DD) DDDDD-DDDD` as far as they reach. */
  function FormatPhone(phone: string): (r: string)
    ensures |r| <= 15
  {
    PhoneMask(Digits(phone))
  }

  /** `unformatPhone`. */
  function UnformatPhone(phone: string): (r: string)
    ensures AllDigits(r)
  {
    Digits(phone)
  }

  /** The mask keeps the first digits typed, up to 11, and nothing else. */
  lemma FormatPhoneKeepsDigits(s: string)
    ensures UnformatPhone(FormatPhone(s)) == Digits(s)[..Min(11, |Digits(s)|)]
  {
    var n := Digits(s);
    if |n| <= 2 {
      DigitsOfAllDigits(n);
    } else if |n| <= 7 {
      DigitsOfShortMask(n[..2], n[2..]);
      assert n[..2] + n[2..] == n;
    } else {
      var m := Min(11, |n|);
      DigitsOfMasked(n[..2], n[2..7], n[7..m]);
      assert n[..2] + n[2..7] + n[7..m] == n[..m];
    }
  }

  /** Masking an already masked number changes nothing, so retyping into the
      field keeps what is shown. */
  lemma FormatPhoneIdempotent(s: string)
    ensures FormatPhone(FormatPhone(s)) == FormatPhone(s)
  {
    var n := Digits(s);
    FormatPhoneKeepsDigits(s);
    var p := n[..Min(11, |n|)];
    assert Digits(FormatPhone(s)) == p;
    if |n| > 7 {
      assert p[..2] == n[..2] && p[2..7] == n[2..7];
      assert p[7..Min(11, |p|)] == n[7..Min(11, |n|)];
    } else {
      assert p == n;
    }
  }

  /** The mask reaches the backend's mobile pattern `(DD) DDDDD-DDDD` exactly
      when at least 11 digits were typed. */
  lemma FormatPhoneMobileIff(s: string)
    ensures CandidateValidator.IsMobilePhone(FormatPhone(s)) <==> |Digits(s)| >= 11
  {
    var n := Digits(s);
    var r := FormatPhone(s);
    if |n| >= 11 {
      var a, b, c := n[..2], n[2..7], n[7..11];
      assert r == "(" + a + ") " + b + "-" + c;
      assert r[1..3] == a && r[5..10] == b && r[11..] == c;
    } else if |n| > 7 {
      assert |r| == 4 + |n|;
    }
  }

  // ---------------------------------------------------------------------------
  // Dates

  /** `formatDate`: `YYYY-MM-DD` to `DD/MM/YYYY` by splitting on `-`; the empty
      string stays empty. */
  function FormatDate(date: string): (r: string) {
    if date == "" then ""
    else
      var parts := Split(date, '-');
      Part(parts, 2) + "/" + Part(parts, 1) + "/" + Part(parts, 0)
  }

  /** `convertToISODate`: `DD/MM/YYYY` to `YYYY-MM-DD` by splitting on `/`; the
      empty string stays empty. */
  function ConvertToISODate(date: string): (r: string) {
    if date == "" then ""
    else
      var parts := Split(date, '/');
      Part(parts, 2) + "-" + Part(parts, 1) + "-" + Part(parts, 0)
  }

  /** `isValidDateFormat`: `/^\d{2}\/\d{2}\/\d{4}$/`. */
  predicate IsValidDateFormat(date: string) {
    |date| == 10 && AllDigits(date[..2]) && date[2] == '/' && AllDigits(date[3..5])
    && date[5] == '/' && AllDigits(date[6..])
  }

  /** `isValidDate`. For text of the right shape `new Date(year, month - 1, day)`
      rolls an out-of-range month or day over into a real date and never
      yields an invalid one, so the check is the shape check alone. */
  predicate IsValidDate(date: string) {
    IsValidDateFormat(date)
  }

  lemma DigitsHaveNoSeparators(s: string)
    requires AllDigits(s)
    ensures '-' !in s && '/' !in s
  {
    forall i | 0 <= i < |s|
      ensures s[i] != '-' && s[i] != '/'
    {
      assert IsDigit(s[i]);
    }
  }

  /** The ISO text of a date is shown as `DD/MM/YYYY`, and converting the display
      back gives the ISO text again. */
  lemma FormatDateRoundTrip(iso: string)
    requires CandidateValidator.IsIsoDateText(iso)
    ensures IsValidDateFormat(FormatDate(iso))
    ensures ConvertToISODate(FormatDate(iso)) == iso
  {
    var y, m, d := iso[..4], iso[5..7], iso[8..];
    DigitsHaveNoSeparators(y);
    DigitsHaveNoSeparators(m);
    DigitsHaveNoSeparators(d);
    assert iso == y + ['-'] + m + ['-'] + d;
    SplitThree(y, m, d, '-');
    var shown := d + "/" + m + "/" + y;
    assert FormatDate(iso) == shown;
    assert shown == d + ['/'] + m + ['/'] + y;
    assert shown[..2] == d && shown[3..5] == m && shown[6..] == y;
    SplitThree(d, m, y, '/');
    assert ConvertToISODate(shown) == y + "-" + m + "-" + d;
  }

  /** A well-formed display date converts to ISO text and is shown again as it
      was typed. */
  lemma ConvertToISODateRoundTrip(shown: string)
    requires IsValidDateFormat(shown)
    ensures CandidateValidator.IsIsoDateText(ConvertToISODate(shown))
    ensures FormatDate(ConvertToISODate(shown)) == shown
  {
    var d, m, y := shown[..2], shown[3..5], shown[6..];
    DigitsHaveNoSeparators(y);
    DigitsHaveNoSeparators(m);
    DigitsHaveNoSeparators(d);
    assert shown == d + ['/'] + m + ['/'] + y;
    SplitThree(d, m, y, '/');
    var iso := y + "-" + m + "-" + d;
    assert ConvertToISODate(shown) == iso;
    assert iso == y + ['-'] + m + ['-'] + d;
    assert iso[..4] == y && iso[5..7] == m && iso[8..] == d;
    SplitThree(y, m, d, '-');
  }

  /** Both conversions leave the empty field empty, and only the empty field. */
  lemma ConvertersKeepEmpty(s: string)
    ensures FormatDate(s) == "" <==> s == ""
    ensures ConvertToISODate(s) == "" <==> s == ""
  {
  }

  // ---------------------------------------------------------------------------
  // Date mask

  /** `formatDateWhileTyping` on the digits typed. */
  function DateMask(numbers: string): (r: string) {
    if |numbers| <= 2 then numbers
    else if |numbers| <= 4 then numbers[..2] + "/" + numbers[2..]
    else numbers[..2] + "/" + numbers[2..4] + "/" + numbers[4..Min(8, |numbers|)]
  }

  /** `formatDateWhileTyping`: the digits of the input, at most 8, with `/`
      after the second and the fourth. */
  function FormatDateWhileTyping(value: string): (r: string)
    ensures |r| <= 10
  {
    DateMask(Digits(value))
  }

  lemma {:induction false} DigitsAfterSlash(b: string)
    requires AllDigits(b)
    ensures Digits("/" + b) == b
  {
    DigitsOfAllDigits(b);
    DigitsAppend("/", b);
  }

  /** The digits of `a/b` are those of its two parts. */
  lemma {:induction false} DigitsAroundSlash(a: string, b: string)
    requires AllDigits(a) && AllDigits(b)
    ensures Digits(a + "/" + b) == a + b
  {
    var s1 := "/" + b;
    assert Digits(s1) == b by { DigitsAfterSlash(b); }
    assert Digits(a + s1) == a + b by { DigitsOfAllDigits(a); DigitsAppend(a, s1); }
    assert a + "/" + b == a + s1;
  }

  /** The digits of `a/b/c` are those of its three parts. */
  lemma {:induction false} DigitsAroundSlashes(a: string, b: string, c: string)
    requires AllDigits(a) && AllDigits(b) && AllDigits(c)
    ensures Digits(a + "/" + b + "/" + c) == a + b + c
  {
    var x, y := a + "/" + b, "/" + c;
    assert Digits(x) == a + b by { DigitsAroundSlash(a, b); }
    assert Digits(y) == c by { DigitsAfterSlash(c); }
    assert Digits(x + y) == Digits(x) + Digits(y) by { DigitsAppend(x, y); }
    assert a + "/" + b + "/" + c == x + y;
  }

  /** The date mask keeps the first digits typed, up to 8, and nothing else. */
  lemma DateMaskKeepsDigits(s: string)
    ensures Digits(FormatDateWhileTyping(s)) == Digits(s)[..Min(8, |Digits(s)|)]
  {
    var n := Digits(s);
    if |n| <= 2 {
      DigitsOfAllDigits(n);
    } else if |n| <= 4 {
      DigitsAroundSlash(n[..2], n[2..]);
      assert n[..2] + n[2..] == n;
    } else {
      var k := Min(8, |n|);
      DigitsAroundSlashes(n[..2], n[2..4], n[4..k]);
      assert n[..2] + n[2..4] + n[4..k] == n[..k];
    }
  }

  /** Retyping a masked date changes nothing. */
  lemma FormatDateWhileTypingIdempotent(s: string)
    ensures FormatDateWhileTyping(FormatDateWhileTyping(s)) == FormatDateWhileTyping(s)
  {
    var n := Digits(s);
    DateMaskKeepsDigits(s);
    var p := n[..Min(8, |n|)];
    assert Digits(FormatDateWhileTyping(s)) == p;
    if |n| > 4 {
      assert p[..2] == n[..2] && p[2..4] == n[2..4];
      assert p[4..Min(8, |p|)] == n[4..Min(8, |n|)];
    } else {
      assert p == n;
    }
  }

  /** The masked field has the `DD/MM/YYYY` shape exactly when 8 digits or
      more were typed. */
  lemma FormatDateWhileTypingValidIff(s: string)
    ensures IsValidDateFormat(FormatDateWhileTyping(s)) <==> |Digits(s)| >= 8
  {
    var n := Digits(s);
    var r := FormatDateWhileTyping(s);
    if |n| >= 8 {
      var d, m, y := n[..2], n[2..4], n[4..8];
      assert r == d + "/" + m + "/" + y;
      assert r[..2] == d && r[3..5] == m && r[6..] == y;
    } else if |n| > 4 {
      assert |r| == 2 + |n|;
    }
  }

  // ---------------------------------------------------------------------------
  // Not in the future

  /** The day number of `new Date(parseInt(year), parseInt(month) - 1,
      parseInt(day))` for a well-formed display date: a year below 100 means
      19xx, and the month index and the day roll over into neighbouring
      months and years. */
  function JsDateDay(date: string): (r: int)
    requires IsValidDateFormat(date)
  {
    var day, month, year := DigitsValue(date[..2]), DigitsValue(date[3..5]), DigitsValue(date[6..]);
    var fullYear := if year <= 99 then 1900 + year else year;
    var monthIndex := month - 1;
    DaysFromCivil(fullYear + monthIndex / 12, monthIndex % 12 + 1, day)
  }

  /** `isNotFutureDate` on the day `today`: text that fails `isValidDate` passes;
      otherwise the date must not come after today's midnight. */
  predicate IsNotFutureDate(date: string, today: CivilDate)
    requires ValidCivil(today)
  {
    !IsValidDate(date) || JsDateDay(date) <= DaysFromCivil(today.year, today.month, today.day)
  }

  /** The calendar date a well-formed display date names, when its fields form one. */
  function DisplayedDate(date: string): (r: CivilDate)
    requires IsValidDateFormat(date)
  {
    CivilDate(DigitsValue(date[6..]), DigitsValue(date[3..5]), DigitsValue(date[..2]))
  }

  /** On a real calendar date from year 100 on, the check passes exactly when the
      date is today or earlier. */
  lemma IsNotFutureDateMeans(date: string, today: CivilDate)
    requires ValidCivil(today)
    requires IsValidDateFormat(date) && ValidCivil(DisplayedDate(date)) && DisplayedDate(date).year >= 100
    ensures IsNotFutureDate(date, today) <==> !CivilBefore(today, DisplayedDate(date))
  {
    var d := DisplayedDate(date);
    assert (d.month - 1) / 12 == 0 && (d.month - 1) % 12 + 1 == d.month;
    assert JsDateDay(date) == DaysFromCivil(d.year, d.month, d.day);
    CivilOrderIsDayOrder(today, d);
  }

  /** Text that is not a well-formed date never counts as a future date. */
  lemma MalformedIsNotFuture(date: string, today: CivilDate)
    requires ValidCivil(today) && !IsValidDateFormat(date)
    ensures IsNotFutureDate(date, today)
  {
  }

  lemma RolloverExampleDay()
    ensures IsValidDateFormat("31/02/2023")
    ensures JsDateDay("31/02/2023") == DaysFromCivil(2023, 2, 31)
  {
    var s := "31/02/2023";
    assert s[..2] == "31" && s[3..5] == "02" && s[6..] == "2023";
    CandidateValidator.TwoDigitNumerals();
    CandidateValidator.YearNumerals();
  }

  lemma EndOfFebruary2023()
    ensures ValidCivil(CivilDate(2023, 3, 2)) && ValidCivil(CivilDate(2023, 3, 3))
    ensures DaysFromCivil(2023, 2, 31) == DaysFromCivil(2023, 3, 3)
    ensures DaysFromCivil(2023, 3, 2) + 1 == DaysFromCivil(2023, 3, 3)
  {
    assert !IsLeapYear(2023);
    assert DaysBeforeMonth(2023, 2) == 31 && DaysBeforeMonth(2023, 3) == 59;
  }

  /** `31/02/2023` passes the shape check and rolls over to 3 March 2023: it is a
      future date on 2 March and not on 3 March. */
  lemma RolloverExample()
    ensures IsValidDate("31/02/2023")
    ensures !IsNotFutureDate("31/02/2023", CivilDate(2023, 3, 2))
    ensures IsNotFutureDate("31/02/2023", CivilDate(2023, 3, 3))
  {
    RolloverExampleDay();
    EndOfFebruary2023();
  }

  /** Three separator-free fields joined by `/` are sent as ISO text with the
      fields reversed. */
  lemma ConvertFields(d: string, m: string, y: string)
    requires '/' !in d && '/' !in m && '/' !in y && d != ""
    ensures ConvertToISODate(d + ['/'] + m + ['/'] + y) == y + "-" + m + "-" + d
  {
    SplitThree(d, m, y, '/');
  }

  lemma RolloverSentAs()
    ensures ConvertToISODate("31/02/2023") == "2023-02-31"
  {
    var d, m, y := "31", "02", "2023";
    assert "31/02/2023" == d + ['/'] + m + ['/'] + y;
    ConvertFields(d, m, y);
    assert y + "-" + m + "-" + d == "2023-02-31";
  }

  /** `31/02/2023` entered on 3 March 2023 passes the form and is sent as
      `2023-02-31`, which names no date: the profile update answers 400 and
      stores nothing. */
  lemma RolloverRefusedOnUpdate(phone: string, fromIso: string -> Option<CivilDate>)
    requires CandidatesController.ReadsIsoDates(fromIso)
    ensures IsValidDate("31/02/2023") && IsNotFutureDate("31/02/2023", CivilDate(2023, 3, 3))
    ensures UpdateRequest("31/02/2023", phone) == Some(UpdatePayload("2023-02-31", UnformatPhone(phone)))
    ensures CandidatesController.BirthDateRefused(Some("2023-02-31"), fromIso)
  {
    RolloverExample();
    RolloverSentAs();
    CandidatesController.UpdateRefusesImpossibleDates(fromIso, "2023-02-31");
  }

  /** A date of today passes the form's check although the backend's schema
      rule `before('today')` refuses it: the two boundaries differ by one day. */
  lemma TodayPassesHereNotInTheSchema(date: string, today: CivilDate)
    requires ValidCivil(today)
    requires IsValidDateFormat(date) && DisplayedDate(date) == today && today.year >= 1000
    ensures IsNotFutureDate(date, today)
    ensures !CandidateValidator.DateBeforeToday(Some(ConvertToISODate(date)), today)
  {
    IsNotFutureDateMeans(date, today);
    ConvertToISODateRoundTrip(date);
    var iso := ConvertToISODate(date);
    DigitsHaveNoSeparators(date[6..]);
    DigitsHaveNoSeparators(date[3..5]);
    DigitsHaveNoSeparators(date[..2]);
    assert date == date[..2] + ['/'] + date[3..5] + ['/'] + date[6..];
    SplitThree(date[..2], date[3..5], date[6..], '/');
    assert iso[..4] == date[6..] && iso[5..7] == date[3..5] && iso[8..] == date[..2];
  }

  // ---------------------------------------------------------------------------
  // The form

  datatype NotificationKind = Success | Failure | Info

  /** The body of `PUT /candidates/profile`. */
  datatype UpdatePayload = UpdatePayload(birthDate: string, phone: string)

  const InvalidDateMessage := "Data inválida"
  const FutureDateMessage := "A data não pode ser posterior ao dia de hoje"
  const SavedMessage := "Dados atualizados com sucesso!"
  const SaveFailedMessage := "Erro ao atualizar dados. Tente novamente."

  /** The mutation function before the request: the display date converted to
      ISO (an empty result is refused with `Data inválida`) and the phone
      reduced to its digits. */
  function UpdateRequest(birthDate: string, phone: string): (r: Option<UpdatePayload>)
    ensures r.Some? <==> birthDate != ""
    ensures r.Some? ==> AllDigits(r.value.phone)
  {
    var iso := ConvertToISODate(birthDate);
    if iso == "" then None else Some(UpdatePayload(iso, UnformatPhone(phone)))
  }

  /** The cache updater after a save: the spread of the old entry with the saved
      birth date and phone; an entry never fetched spreads as an empty object. */
  function SavedProfile(cached: Option<CachedProfile>, birthDate: Option<string>, phone: Option<string>): (r: CachedProfile)
    ensures r.birthDate == birthDate && r.phone == phone
    ensures cached.Some? ==> r.educations == cached.value.educations && r.rest == cached.value.rest
    ensures cached.None? ==> r.educations == None && r.rest == map[]
  {
    match cached
    case None => CachedProfile(birthDate, phone, None, map[])
    case Some(p) => p.(birthDate := birthDate, phone := phone)
  }

  /** The state of the `PersonalInfo` component. */
  class PersonalInfoForm {
    var birthDate: string
    var phone: string
    var notificationMessage: string
    var notificationKind: NotificationKind

    constructor ()
      ensures birthDate == "" && phone == "" && notificationMessage == "" && notificationKind == Info
    {
      birthDate, phone := "", "";
      notificationMessage, notificationKind := "", Info;
    }

    /** The effect that fills the form from the loaded profile. `isoBirthDate`
        is the day part of `new Date(birth_date).toISOString()`. */
    method Load(isoBirthDate: Option<string>, storedPhone: Option<string>)
      modifies this
      ensures birthDate == (if Truthy(isoBirthDate) then FormatDate(isoBirthDate.value) else "")
      ensures phone == (if Truthy(storedPhone) then FormatPhone(storedPhone.value) else "")
      ensures notificationMessage == old(notificationMessage) && notificationKind == old(notificationKind)
    {
      birthDate := if Truthy(isoBirthDate) then FormatDate(isoBirthDate.value) else "";
      phone := if Truthy(storedPhone) then FormatPhone(storedPhone.value) else "";
    }

    /** `onChange` of the birth date field. */
    method TypeBirthDate(value: string)
      modifies this
      ensures birthDate == FormatDateWhileTyping(value) && |birthDate| <= 10
      ensures phone == old(phone)
      ensures notificationMessage == old(notificationMessage) && notificationKind == old(notificationKind)
    {
      birthDate := FormatDateWhileTyping(value);
    }

    /** `onChange` of the phone field. */
    method TypePhone(value: string)
      modifies this
      ensures phone == FormatPhone(value) && |phone| <= 15
      ensures birthDate == old(birthDate)
      ensures notificationMessage == old(notificationMessage) && notificationKind == old(notificationKind)
    {
      phone := FormatPhone(value);
    }

    /** `onSubmit`: a date that is not well formed, or that lies after today,
        is reported and nothing is sent; otherwise the payload of the update
        request is returned. */
    method Submit(today: CivilDate) returns (sent: Option<UpdatePayload>)
      requires ValidCivil(today)
      modifies this
      ensures birthDate == old(birthDate) && phone == old(phone)
      ensures !IsValidDate(birthDate) ==>
        sent == None && notificationMessage == InvalidDateMessage && notificationKind == Failure
      ensures IsValidDate(birthDate) && !IsNotFutureDate(birthDate, today) ==>
        sent == None && notificationMessage == FutureDateMessage && notificationKind == Failure
      ensures IsValidDate(birthDate) && IsNotFutureDate(birthDate, today) ==>
        && sent == Some(UpdatePayload(ConvertToISODate(birthDate), UnformatPhone(phone)))
        && notificationMessage == old(notificationMessage) && notificationKind == old(notificationKind)
    {
      sent := None;
      if !IsValidDate(birthDate) {
        notificationMessage, notificationKind := InvalidDateMessage, Failure;
        return;
      }
      if !IsNotFutureDate(birthDate, today) {
        notificationMessage, notificationKind := FutureDateMessage, Failure;
        return;
      }
      sent := UpdateRequest(birthDate, phone);
    }

    /** `onSuccess` of the update: the cache entry takes the saved birth date
        and phone, and a success notice is shown. */
    method OnUpdateSuccess(client: QueryClient, savedBirthDate: Option<string>, savedPhone: Option<string>)
      modifies this, client
      ensures client.profile == Some(SavedProfile(old(client.profile), savedBirthDate, savedPhone))
      ensures notificationMessage == SavedMessage && notificationKind == Success
      ensures birthDate == old(birthDate) && phone == old(phone)
    {
      client.profile := Some(SavedProfile(client.profile, savedBirthDate, savedPhone));
      notificationMessage, notificationKind := SavedMessage, Success;
    }

    /** `onError`: the server's message when the response carries a truthy
        one, the default text otherwise. */
    method OnUpdateError(responseMessage: Option<string>)
      modifies this
      ensures notificationMessage == (if Truthy(responseMessage) then responseMessage.value else SaveFailedMessage)
      ensures notificationKind == Failure
      ensures birthDate == old(birthDate) && phone == old(phone)
    {
      notificationMessage := if Truthy(responseMessage) then responseMessage.value else SaveFailedMessage;
      notificationKind := Failure;
    }
  }

  /** What a sent update carries: the ISO form of a well-formed display date,
      which shows again as the text typed, and a digits-only phone of at most
      11 digits when the phone field was filled through its mask. */
  lemma SentUpdateIsWellFormed(shown: string, typedPhone: string)
    requires IsValidDate(shown)
    ensures UpdateRequest(shown, FormatPhone(typedPhone)).Some?
    ensures var p := UpdateRequest(shown, FormatPhone(typedPhone)).value;
      && CandidateValidator.IsIsoDateText(p.birthDate) && FormatDate(p.birthDate) == shown
      && p.phone == Digits(typedPhone)[..Min(11, |Digits(typedPhone)|)]
  {
    ConvertToISODateRoundTrip(shown);
    FormatPhoneKeepsDigits(typedPhone);
  }
}
