/** The candidate creation schema as a validation predicate over the request
    fields. String fields are trimmed before their rules apply; `required`
    means present and not empty after trimming. Dates use the `yyyy-MM-dd`
    format and must name a real calendar date; `before('today')` compares
    whole days with an injected `today`. The e-mail syntax rule, and the
    tables that `unique` and `exists` consult, are parameters. */
module CandidateValidator {
  import opened Common
  import opened Calendar

  // ---------------------------------------------------------------------------
  // Field rules

  /** `rules.required()` on a trimmed string. */
  predicate Required(v: Option<string>) {
    v.Some? && Trim(v.value) != ""
  }

  /** A required trimmed string of at most `max` characters. */
  predicate RequiredMax(v: Option<string>, max: nat) {
    Required(v) && |Trim(v.value)| <= max
  }

  /** `/^\(\d{2}\) \d{5}-\d{4}$/`. */
  predicate IsMobilePhone(s: string) {
    && |s| == 15
    && s[0] == '(' && AllDigits(s[1..3]) && s[3] == ')' && s[4] == ' '
    && AllDigits(s[5..10]) && s[10] == '-' && AllDigits(s[11..])
  }

  /** `/^\d{8}$/`. */
  predicate IsZipCode(s: string) {
    |s| == 8 && AllDigits(s)
  }

  /** The `yyyy-MM-dd` text shape. */
  predicate IsIsoDateText(s: string) {
    |s| == 10 && AllDigits(s[..4]) && s[4] == '-' && AllDigits(s[5..7]) && s[7] == '-' && AllDigits(s[8..])
  }

  /** `schema.date({ format: 'yyyy-MM-dd' })`: the text must have that shape and
      name a real calendar date. */
  function ParseIsoDate(s: string): (r: Option<CivilDate>)
    ensures r.Some? ==> ValidCivil(r.value) && IsIsoDateText(s)
    ensures r.Some? ==> r.value == CivilDate(DigitsValue(s[..4]), DigitsValue(s[5..7]), DigitsValue(s[8..]))
  {
    if IsIsoDateText(s) then
      var d := CivilDate(DigitsValue(s[..4]), DigitsValue(s[5..7]), DigitsValue(s[8..]));
      if ValidCivil(d) then Some(d) else None
    else None
  }

  /** `schema.date(...)` with `rules.required()` and `rules.before('today')`. */
  predicate DateBeforeToday(v: Option<string>, today: CivilDate) {
    v.Some? && ParseIsoDate(v.value).Some? && CivilBefore(ParseIsoDate(v.value).value, today)
  }

  /** An accepted date is a calendar date whose day number is smaller than
      today's: a strictly earlier day. */
  lemma DateBeforeTodayMeans(v: Option<string>, today: CivilDate)
    requires ValidCivil(today)
    requires DateBeforeToday(v, today)
    ensures var d := ParseIsoDate(v.value).value;
      ValidCivil(d) && DaysFromCivil(d.year, d.month, d.day) < DaysFromCivil(today.year, today.month, today.day)
  {
    CivilOrderIsDayOrder(ParseIsoDate(v.value).value, today);
  }

  lemma TwoDigitNumerals()
    ensures DigitsValue("02") == 2 && DigitsValue("29") == 29 && DigitsValue("31") == 31
  {
    assert "02"[..1] == "0" && "29"[..1] == "2" && "31"[..1] == "3";
  }

  lemma YearNumerals()
    ensures DigitsValue("2023") == 2023 && DigitsValue("2024") == 2024
  {
    assert "2023"[..3] == "2024"[..3] == "202";
    assert "202"[..2] == "20" && "20"[..1] == "2";
    assert DigitsValue("2") == 2;
    assert DigitsValue("20") == 20;
    assert DigitsValue("202") == 202;
  }

  /** 2023-02-29 and 2023-02-31 have the right shape but are not dates;
      2024-02-29 is. */
  lemma ParseIsoDateChecksTheCalendar()
    ensures IsIsoDateText("2023-02-29") && ParseIsoDate("2023-02-29") == None
    ensures IsIsoDateText("2023-02-31") && ParseIsoDate("2023-02-31") == None
    ensures ParseIsoDate("2024-02-29") == Some(CivilDate(2024, 2, 29))
  {
    var rolled := "2023-02-31";
    assert rolled[..4] == "2023" && rolled[5..7] == "02" && rolled[8..] == "31";
    var bad, good := "2023-02-29", "2024-02-29";
    assert bad[..4] == "2023" && good[..4] == "2024";
    assert bad[5..7] == good[5..7] == "02";
    assert bad[8..] == good[8..] == "29";
    TwoDigitNumerals();
    YearNumerals();
  }

  // ---------------------------------------------------------------------------
  // The schema

  datatype EducationInput = EducationInput(
    courseName: Option<string>,
    institutionName: Option<string>,
    completionDate: Option<string>)

  datatype CandidateInput = CandidateInput(
    name: Option<string>,
    email: Option<string>,
    birthDate: Option<string>,
    phone: Option<string>,
    zipCode: Option<string>,
    street: Option<string>,
    number: Option<string>,
    complement: Option<string>,
    neighborhood: Option<string>,
    city: Option<string>,
    state: Option<string>,
    skills: Option<seq<Option<string>>>,
    educations: Option<seq<EducationInput>>)

  /** The rules of one element of `educations`. */
  predicate EducationAccepted(e: EducationInput, today: CivilDate) {
    && RequiredMax(e.courseName, 100)
    && RequiredMax(e.institutionName, 100)
    && DateBeforeToday(e.completionDate, today)
  }

  /** `CandidateValidator.createSchema`. `isEmail` is the e-mail syntax rule,
      `registeredEmails` the e-mails already in `users`, `skillNames` the names
      in `skills`. */
  predicate Accepts(input: CandidateInput, today: CivilDate, isEmail: string -> bool,
                    registeredEmails: set<string>, skillNames: set<string>)
  {
    && RequiredMax(input.name, 100) && |Trim(input.name.value)| >= 3
    && Required(input.email) && isEmail(Trim(input.email.value))
    && Trim(input.email.value) !in registeredEmails
    && DateBeforeToday(input.birthDate, today)
    && Required(input.phone) && IsMobilePhone(Trim(input.phone.value))
    && Required(input.zipCode) && IsZipCode(Trim(input.zipCode.value))
    && RequiredMax(input.street, 100)
    && RequiredMax(input.number, 10)
    && (input.complement.Some? ==> |Trim(input.complement.value)| <= 50)
    && RequiredMax(input.neighborhood, 50)
    && RequiredMax(input.city, 50)
    && RequiredMax(input.state, 2)
    && input.skills.Some?
    && (forall i :: 0 <= i < |input.skills.value| ==>
          Required(input.skills.value[i]) && Trim(input.skills.value[i].value) in skillNames)
    && input.educations.Some?
    && (forall i :: 0 <= i < |input.educations.value| ==> EducationAccepted(input.educations.value[i], today))
  }

  /** What an accepted request guarantees about the stored values: a name of 3
      to 100 characters, a phone of exactly 11 digits in the mobile mask, an
      8-digit zip code, a state of at most 2 characters, a past birth date,
      and past completion dates. */
  lemma AcceptedMeans(input: CandidateInput, today: CivilDate, isEmail: string -> bool,
                      registeredEmails: set<string>, skillNames: set<string>)
    requires ValidCivil(today)
    requires Accepts(input, today, isEmail, registeredEmails, skillNames)
    ensures 3 <= |Trim(input.name.value)| <= 100
    ensures |Digits(Trim(input.phone.value))| == 11
    ensures |Digits(Trim(input.zipCode.value))| == 8
    ensures 1 <= |Trim(input.state.value)| <= 2
    ensures var b := ParseIsoDate(input.birthDate.value).value;
      DaysFromCivil(b.year, b.month, b.day) < DaysFromCivil(today.year, today.month, today.day)
    ensures forall i :: 0 <= i < |input.educations.value| ==>
      var c := ParseIsoDate(input.educations.value[i].completionDate.value).value;
      DaysFromCivil(c.year, c.month, c.day) < DaysFromCivil(today.year, today.month, today.day)
  {
    MobilePhoneDigits(Trim(input.phone.value));
    DigitsOfAllDigits(Trim(input.zipCode.value));
    DateBeforeTodayMeans(input.birthDate, today);
    forall i | 0 <= i < |input.educations.value|
      ensures var c := ParseIsoDate(input.educations.value[i].completionDate.value).value;
        DaysFromCivil(c.year, c.month, c.day) < DaysFromCivil(today.year, today.month, today.day)
    {
      DateBeforeTodayMeans(input.educations.value[i].completionDate, today);
    }
  }

  /** A phone in the mobile mask carries exactly 11 digits. */
  lemma MobilePhoneDigits(s: string)
    requires IsMobilePhone(s)
    ensures Digits(s) == s[1..3] + s[5..10] + s[11..]
    ensures |Digits(s)| == 11
  {
    assert s == "(" + s[1..3] + ") " + s[5..10] + "-" + s[11..];
    DigitsOfMasked(s[1..3], s[5..10], s[11..]);
  }
}
