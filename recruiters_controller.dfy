/** The recruiter side of the backend: the phone display format, the candidate
    projection sent to managers, the routed interview scheduling rule, and the
    select-for-interview action (guard, save, then notify). */
module RecruitersController {
  import opened Common
  import opened Calendar
  import opened Accounts
  import opened CandidateModel

  const NotInformed := "Não informado"

  // ---------------------------------------------------------------------------
  // formatPhoneNumber

  /** `formatPhoneNumber`: a falsy phone is "Não informado"; 11 digits become
      `(AB) CDEFG-HIJK`, 10 digits `(AB) CDEF-GHIJ`; anything else is returned as
      given, separators and all. */
  function FormatPhoneNumber(phone: Option<string>): (r: string)
  {
    if !Truthy(phone) then NotInformed
    else
      var numbers := Digits(phone.value);
      if |numbers| == 11 then "(" + numbers[..2] + ") " + numbers[2..7] + "-" + numbers[7..]
      else if |numbers| == 10 then "(" + numbers[..2] + ") " + numbers[2..6] + "-" + numbers[6..]
      else phone.value
  }

  /** The three outcomes of `formatPhoneNumber`, stated by what they contain: a
      reformatted number keeps exactly the digits it was given, and the mobile
      form has the fixed shape `(AB) CDEFG-HIJK`. */
  lemma {:induction false} FormatPhoneNumberCases(phone: Option<string>)
    ensures !Truthy(phone) ==> FormatPhoneNumber(phone) == NotInformed
    ensures Truthy(phone) && |Digits(phone.value)| == 11 ==>
      var r := FormatPhoneNumber(phone);
      |r| == 15 && Digits(r) == Digits(phone.value)
      && r[0] == '(' && r[3] == ')' && r[4] == ' ' && r[10] == '-'
    ensures Truthy(phone) && |Digits(phone.value)| == 10 ==>
      var r := FormatPhoneNumber(phone);
      |r| == 14 && Digits(r) == Digits(phone.value)
      && r[0] == '(' && r[3] == ')' && r[4] == ' ' && r[9] == '-'
    ensures Truthy(phone) && |Digits(phone.value)| !in {10, 11} ==> FormatPhoneNumber(phone) == phone.value
  {
    if Truthy(phone) {
      var n := Digits(phone.value);
      if |n| == 11 {
        DigitsOfMasked(n[..2], n[2..7], n[7..]);
        assert n[..2] + n[2..7] + n[7..] == n;
      } else if |n| == 10 {
        DigitsOfMasked(n[..2], n[2..6], n[6..]);
        assert n[..2] + n[2..6] + n[6..] == n;
      }
    }
  }

  /** Formatting an already formatted number changes nothing, whatever the input. */
  lemma FormatPhoneNumberIdempotent(phone: Option<string>)
    ensures FormatPhoneNumber(Some(FormatPhoneNumber(phone))) == FormatPhoneNumber(phone)
  {
    FormatPhoneNumberCases(phone);
    var r := FormatPhoneNumber(phone);
    if !Truthy(phone) {
      DigitsOfNoDigits(NotInformed);
    } else {
      var n := Digits(phone.value);
      if |n| == 11 {
        FormatPhoneNumberCases(Some(r));
        assert Digits(r) == n;
      } else if |n| == 10 {
        FormatPhoneNumberCases(Some(r));
        assert Digits(r) == n;
      }
    }
  }

  // ---------------------------------------------------------------------------
  // formatCandidateData

  datatype EducationView = EducationView(id: int, courseName: string, institutionName: string,
                                         completionDate: string)

  /** The candidate as a manager sees it. */
  datatype CandidateView = CandidateView(
    id: int, code: int, name: string, email: string, phone: string,
    birthDate: Option<string>, zipCode: Option<string>, street: Option<string>,
    number: Option<string>, complement: Option<string>, neighborhood: Option<string>,
    city: Option<string>, state: Option<string>, skills: seq<string>,
    educations: seq<EducationView>, selectedForInterview: bool,
    interviewDate: Option<DateTime>)

  function EducationViews(es: seq<Education>): (r: seq<EducationView>)
    ensures |r| == |es|
    ensures forall i :: 0 <= i < |es| ==>
      && r[i].id == es[i].id && r[i].courseName == es[i].courseName
      && r[i].institutionName == es[i].institutionName
      && r[i].completionDate == es[i].completionDate
  {
    seq(|es|, i requires 0 <= i < |es| =>
      EducationView(es[i].id, es[i].courseName, es[i].institutionName, es[i].completionDate))
  }

  /** `formatCandidateData`: the candidate joined with its user, skills and
      educations, the phone shown in display form. */
  function FormatCandidateData(c: Candidate, u: User, skills: seq<string>, es: seq<Education>): (r: CandidateView)
  {
    CandidateView(c.id, c.code, u.name, u.email, FormatPhoneNumber(c.profile.phone),
      c.profile.birthDate, c.profile.zipCode, c.profile.street, c.profile.number,
      c.profile.complement, c.profile.neighborhood, c.profile.city, c.profile.state,
      skills, EducationViews(es), c.selectedForInterview, c.interviewDate)
  }

  /** The projection identifies the candidate and its owner, keeps the birth date,
      every address field, the skills and each education as stored, and shows the
      stored phone in display form, a form that formatting leaves as it is. */
  lemma FormatCandidateDataFaithful(c: Candidate, u: User, skills: seq<string>, es: seq<Education>)
    ensures var v := FormatCandidateData(c, u, skills, es);
      && v.id == c.id && v.code == c.code && v.name == u.name && v.email == u.email
      && v.birthDate == c.profile.birthDate && v.zipCode == c.profile.zipCode && v.street == c.profile.street
      && v.number == c.profile.number && v.complement == c.profile.complement
      && v.neighborhood == c.profile.neighborhood && v.city == c.profile.city
      && v.state == c.profile.state
      && v.phone == FormatPhoneNumber(c.profile.phone)
      && FormatPhoneNumber(Some(v.phone)) == v.phone
      && v.skills == skills
      && |v.educations| == |es|
      && (forall i :: 0 <= i < |es| ==>
            && v.educations[i].id == es[i].id
            && v.educations[i].courseName == es[i].courseName
            && v.educations[i].institutionName == es[i].institutionName
            && v.educations[i].completionDate == es[i].completionDate)
      && v.selectedForInterview == c.selectedForInterview && v.interviewDate == c.interviewDate
  {
    FormatPhoneNumberIdempotent(c.profile.phone);
  }

  // ---------------------------------------------------------------------------
  // calculateInterviewDate (the routed rule)

  /** The day counting starts from: tomorrow when it is already 14:00 or later. */
  function InterviewStartDay(now: DateTime): (r: int) {
    if now.hour >= 14 then now.day + 1 else now.day
  }

  /** The routed rule: the third business day counted from the start day (the
      start day itself included), at 14:00:00.000. */
  function RoutedInterviewDate(now: DateTime): (r: DateTime) {
    AtHour(now.(day := NthBusinessDay(InterviewStartDay(now), 3)), 14)
  }

  /** `calculateInterviewDate`, with `DateTime.now()` passed in as `now`. */
  method CalculateInterviewDate(now: DateTime) returns (date: DateTime)
    ensures date == RoutedInterviewDate(now)
  {
    date := now;
    var businessDays := 0;
    if date.hour >= 14 {
      date := PlusDays(date, 1);
    }
    date := AtHour(date, 14);
    ghost var start := date.day;
    while businessDays < 3
      invariant 0 <= businessDays <= 3
      invariant date == AtHour(now, 14).(day := date.day)
      invariant start <= date.day
      invariant businessDays < 3 ==> businessDays == BusinessDaysIn(start, date.day)
      invariant businessDays == 3 ==> IsBusinessDay(date.day) && BusinessDaysIn(start, date.day) == 2
      decreases 3 - businessDays, DaysToBusinessDay(date.day)
    {
      if Weekday(date.day) < Saturday {
        businessDays := businessDays + 1;
      } else {
        DaysToBusinessDayNext(date.day);
      }
      if businessDays < 3 {
        date := PlusDays(date, 1);
      }
    }
    NthBusinessDayUnique(start, 3, date.day);
  }

  /** What the routed rule promises: a Monday-to-Friday day at exactly 14:00,
      with exactly three business days from the start day to it, both ends
      included, and strictly after `now`. */
  lemma RoutedInterviewDateProperties(now: DateTime)
    requires ValidTime(now)
    ensures var r := RoutedInterviewDate(now);
      && IsBusinessDay(r.day)
      && r.hour == 14 && r.minute == 0 && r.second == 0 && r.millisecond == 0
      && InterviewStartDay(now) <= r.day
      && BusinessDaysIn(InterviewStartDay(now), r.day + 1) == 3
      && Before(now, r)
  {
    var r := RoutedInterviewDate(now);
    NthBusinessDayCounts(InterviewStartDay(now), 3);
    if now.day < r.day {
      LaterDayIsLater(now, r);
    }
  }

  /** Wednesday (day 6) at 09:00 gives Friday (day 8) at 14:00. */
  lemma RoutedWednesdayMorning()
    ensures Weekday(6) == 3 && Weekday(8) == 5
    ensures RoutedInterviewDate(DateTime(6, 9, 0, 0, 0)) == DateTime(8, 14, 0, 0, 0)
  {
    NthBusinessDayUnique(6, 3, 8);
  }

  /** Friday (day 8) at 15:00 gives the next Wednesday (day 13) at 14:00. */
  lemma RoutedFridayAfternoon()
    ensures Weekday(8) == 5 && Weekday(13) == 3
    ensures RoutedInterviewDate(DateTime(8, 15, 0, 0, 0)) == DateTime(13, 14, 0, 0, 0)
  {
    NthBusinessDayUnique(9, 3, 13);
  }

  // ---------------------------------------------------------------------------
  // selectForInterview

  const AlreadySelected := "Este candidato já foi selecionado para entrevista"
  const MailFailed := "Erro ao enviar email de notificação"
  const SelectFailed := "Erro ao selecionar candidato para entrevista"

  datatype SelectOutcome = Selected(view: CandidateView) | BadRequest(message: string)

  /** The relations a query has loaded on the candidate row. Lucid leaves a
      relation that was neither preloaded nor loaded `undefined`, so reading it
      throws; `None` stands for that. */
  datatype Relations = Relations(skills: seq<string>, educations: seq<Education>)

  /** The reply built after the notification went out: `formatCandidateData`
      reads the skills and educations, so without them loaded it throws and the
      outer `catch` answers the generic badRequest. */
  function ReplyAfterMail(saved: Candidate, u: User, loaded: Option<Relations>): (r: SelectOutcome)
  {
    match loaded
    case None => BadRequest(SelectFailed)
    case Some(rel) => Selected(FormatCandidateData(saved, u, rel.skills, rel.educations))
  }

  /** With the relations loaded, the reply reports the stored selection: the same
      candidate, selected, with the scheduled date. */
  lemma ReplyAfterMailLoaded(saved: Candidate, u: User, rel: Relations)
    ensures var r := ReplyAfterMail(saved, u, Some(rel));
      && r.Selected? && r.view.id == saved.id && r.view.email == u.email
      && r.view.selectedForInterview == saved.selectedForInterview
      && r.view.interviewDate == saved.interviewDate
  {
    FormatCandidateDataFaithful(saved, u, rel.skills, rel.educations);
  }

  /** As written, the query preloads only `user`: after the selection is stored
      and the notification delivered, the reply is still the generic error. */
  lemma ReplyAfterMailUnloaded(saved: Candidate, u: User)
    ensures !ReplyAfterMail(saved, u, None).Selected?
    ensures ReplyAfterMail(saved, u, None) == BadRequest(SelectFailed)
  {
  }

  /** The notification handed to the mail service. */
  datatype InterviewMail = InterviewMail(to: string, name: string, date: DateTime)

  /** `selectForInterview` of the recruiter routes. The candidate is looked up by
      id; an already selected one is refused untouched; otherwise the selection
      is saved first and only then is the notification sent, so a mail failure
      (`mailDelivered` false, or no user row to address it to) answers
      badRequest while the selection stays stored. `loaded` is what the query
      loaded besides the user: `None` as written. */
  method SelectForInterview(db: CandidateTable, users: seq<User>, id: int, now: DateTime,
                            mailDelivered: bool, loaded: Option<Relations>)
    returns (outcome: SelectOutcome, mail: Option<InterviewMail>)
    requires db.Valid()
    modifies db
    ensures db.Valid()
    ensures db.educations == old(db.educations) && db.nextEducationId == old(db.nextEducationId)
    ensures !(1 <= id <= |old(db.candidates)|) ==>
      outcome == BadRequest(SelectFailed) && mail == None && db.candidates == old(db.candidates)
    ensures 1 <= id <= |old(db.candidates)| && old(db.candidates)[id - 1].selectedForInterview ==>
      outcome == BadRequest(AlreadySelected) && mail == None && db.candidates == old(db.candidates)
    ensures 1 <= id <= |old(db.candidates)| && !old(db.candidates)[id - 1].selectedForInterview ==>
      var c := old(db.candidates)[id - 1];
      var date := RoutedInterviewDate(now);
      var saved := c.(selectedForInterview := true, interviewDate := Some(date), notified := false);
      var u := FindUser(users, c.userId);
      && db.candidates == old(db.candidates)[id - 1 := saved]
      && mail == (if u.Some? then Some(InterviewMail(u.value.email, u.value.name, date)) else None)
      && outcome == (if u.Some? && mailDelivered then ReplyAfterMail(saved, u.value, loaded)
                     else BadRequest(MailFailed))
  {
    mail := None;
    var k := FirstIndex(db.candidates, (c: Candidate) => c.id == id);
    if k.None? {
      outcome := BadRequest(SelectFailed);
      return;
    }
    var candidate := db.candidates[k.value];
    if candidate.selectedForInterview {
      outcome := BadRequest(AlreadySelected);
      return;
    }
    var interviewDate := CalculateInterviewDate(now);
    candidate := candidate.(selectedForInterview := true, interviewDate := Some(interviewDate), notified := false);
    db.Save(candidate);
    var u := FindUser(users, candidate.userId);
    if u.None? {
      outcome := BadRequest(MailFailed);
      return;
    }
    mail := Some(InterviewMail(u.value.email, u.value.name, interviewDate));
    if !mailDelivered {
      outcome := BadRequest(MailFailed);
      return;
    }
    outcome := ReplyAfterMail(candidate, u.value, loaded);
  }

  /** `selectForInterview` as written: the query preloads only the user, so no
      request is ever answered with the selected candidate; a stored selection
      whose notification went out is answered with the generic error. */
  method SelectForInterviewAsWritten(db: CandidateTable, users: seq<User>, id: int, now: DateTime,
                                     mailDelivered: bool)
    returns (outcome: SelectOutcome, mail: Option<InterviewMail>)
    requires db.Valid()
    modifies db
    ensures db.Valid()
    ensures !outcome.Selected?
    ensures 1 <= id <= |old(db.candidates)| && !old(db.candidates)[id - 1].selectedForInterview ==>
      var c := old(db.candidates)[id - 1];
      var date := RoutedInterviewDate(now);
      && db.candidates == old(db.candidates)[id - 1 := c.(selectedForInterview := true,
                                                         interviewDate := Some(date), notified := false)]
      && (FindUser(users, c.userId).Some? && mailDelivered ==> outcome == BadRequest(SelectFailed))
  {
    outcome, mail := SelectForInterview(db, users, id, now, mailDelivered, None);
  }
}
