/** The candidate-side controller of the backend: profile creation and merge
    update, adding and removing educations, and its own (unrouted) variant of
    select-for-interview with a calendar-day scheduling rule. */
module CandidatesController {
  import opened Common
  import opened Calendar
  import opened CandidateModel
  import RecruitersController
  import CandidateValidator

  // ---------------------------------------------------------------------------
  // selectForInterview (CandidatesController variant)

  /** The scheduling rule of this variant: three calendar days after `now`, moved
      to Monday when that is a Saturday (+2) or a Sunday (+1), at 14:00:00.000. */
  function ThreeDayInterviewDate(now: DateTime): (r: DateTime)
  {
    var d := PlusDays(now, 3);
    var shifted := if Weekday(d.day) == Saturday then PlusDays(d, 2)
                   else if Weekday(d.day) == Sunday then PlusDays(d, 1)
                   else d;
    AtHour(shifted, 14)
  }

  /** The result is the first business day on or after the day three days from
      now, at exactly 14:00, and is later than `now`. */
  lemma ThreeDayInterviewDateProperties(now: DateTime)
    requires ValidTime(now)
    ensures var r := ThreeDayInterviewDate(now);
      && IsBusinessDay(r.day)
      && r.day == now.day + 3 + DaysToBusinessDay(now.day + 3)
      && (forall d :: now.day + 3 <= d < r.day ==> !IsBusinessDay(d))
      && r.hour == 14 && r.minute == 0 && r.second == 0 && r.millisecond == 0
      && Before(now, r)
  {
    var r := ThreeDayInterviewDate(now);
    var d := now.day + 3;
    WeekdayNext(d);
    WeekdayNext(d + 1);
    LaterDayIsLater(now, r);
  }

  /** The two scheduling rules disagree: on a Wednesday (day 6) at 09:00 this one
      gives Monday (day 11), the routed one Friday (day 8). */
  lemma SchedulingRulesDisagree()
    ensures Weekday(6) == 3 && Weekday(11) == 1
    ensures ThreeDayInterviewDate(DateTime(6, 9, 0, 0, 0)) == DateTime(11, 14, 0, 0, 0)
    ensures RecruitersController.RoutedInterviewDate(DateTime(6, 9, 0, 0, 0)) == DateTime(8, 14, 0, 0, 0)
  {
    RecruitersController.RoutedWednesdayMorning();
  }

  const AlreadySelected := "Este candidato já foi selecionado para entrevista"
  const SelectedMessage := "Candidato selecionado para entrevista"
  const SelectFailed := "Erro ao selecionar candidato para entrevista"

  /** `selectForInterview` of this controller: an unknown id is a server error,
      an already selected candidate is refused untouched, otherwise the
      candidate is stored as selected, not yet notified, with the date of
      ThreeDayInterviewDate. */
  method SelectForInterview(db: CandidateTable, id: int, now: DateTime)
    returns (reply: Reply, interviewDate: Option<DateTime>)
    requires db.Valid()
    modifies db
    ensures db.Valid()
    ensures db.educations == old(db.educations) && db.nextEducationId == old(db.nextEducationId)
    ensures !(1 <= id <= |old(db.candidates)|) ==>
      reply == Reply(InternalServerError, "", SelectFailed) && interviewDate == None
      && db.candidates == old(db.candidates)
    ensures 1 <= id <= |old(db.candidates)| && old(db.candidates)[id - 1].selectedForInterview ==>
      reply == Reply(BadRequest, "", AlreadySelected) && interviewDate == None
      && db.candidates == old(db.candidates)
    ensures 1 <= id <= |old(db.candidates)| && !old(db.candidates)[id - 1].selectedForInterview ==>
      var date := ThreeDayInterviewDate(now);
      && reply == Reply(Ok, "", SelectedMessage) && interviewDate == Some(date)
      && db.candidates == old(db.candidates)[id - 1 := old(db.candidates)[id - 1].(
           selectedForInterview := true, interviewDate := Some(date), notified := false)]
  {
    interviewDate := None;
    var k := FirstIndex(db.candidates, (c: Candidate) => c.id == id);
    if k.None? {
      reply := Reply(InternalServerError, "", SelectFailed);
      return;
    }
    var candidate := db.candidates[k.value];
    if candidate.selectedForInterview {
      reply := Reply(BadRequest, "", AlreadySelected);
      return;
    }
    var date := ThreeDayInterviewDate(now);
    candidate := candidate.(selectedForInterview := true, interviewDate := Some(date), notified := false);
    db.Save(candidate);
    reply, interviewDate := Reply(Ok, "", SelectedMessage), Some(date);
  }

  // ---------------------------------------------------------------------------
  // update

  /** `data.f || candidate.f`. */
  function OrExisting(given: Option<string>, existing: Option<string>): (r: Option<string>) {
    if Truthy(given) then given else existing
  }

  /** `data.f || candidate.f || ''`. */
  function OrExistingOrBlank(given: Option<string>, existing: Option<string>): (r: Option<string>) {
    if Truthy(given) then given else if Truthy(existing) then existing else Some("")
  }

  /** The `mappedData` of `update`: each field of the request replaces the stored
      one when it is non-empty; birth date, phone and zip code otherwise keep the
      stored value, the address fields keep it or become ''. */
  function Merge(current: Profile, data: Profile): (r: Profile) {
    Profile(
      birthDate := OrExisting(data.birthDate, current.birthDate),
      phone := OrExisting(data.phone, current.phone),
      zipCode := OrExisting(data.zipCode, current.zipCode),
      street := OrExistingOrBlank(data.street, current.street),
      number := OrExistingOrBlank(data.number, current.number),
      complement := OrExistingOrBlank(data.complement, current.complement),
      neighborhood := OrExistingOrBlank(data.neighborhood, current.neighborhood),
      city := OrExistingOrBlank(data.city, current.city),
      state := OrExistingOrBlank(data.state, current.state))
  }

  /** Every non-empty value of the request ends up stored. */
  lemma MergeRequestWins(current: Profile, data: Profile)
    ensures var m := Merge(current, data);
      && (Truthy(data.birthDate) ==> m.birthDate == data.birthDate)
      && (Truthy(data.phone) ==> m.phone == data.phone)
      && (Truthy(data.zipCode) ==> m.zipCode == data.zipCode)
      && (Truthy(data.street) ==> m.street == data.street)
      && (Truthy(data.number) ==> m.number == data.number)
      && (Truthy(data.complement) ==> m.complement == data.complement)
      && (Truthy(data.neighborhood) ==> m.neighborhood == data.neighborhood)
      && (Truthy(data.city) ==> m.city == data.city)
      && (Truthy(data.state) ==> m.state == data.state)
  {
  }

  /** An update never erases a stored value: a field that was filled in stays
      filled in (with the stored value unless the request brings a new one), and
      the address fields are never null afterwards. */
  lemma MergeNeverErases(current: Profile, data: Profile)
    ensures var m := Merge(current, data);
      && (Truthy(current.birthDate) ==> Truthy(m.birthDate))
      && (Truthy(current.phone) ==> Truthy(m.phone))
      && (Truthy(current.zipCode) ==> Truthy(m.zipCode))
      && (Truthy(current.street) ==> Truthy(m.street))
      && (Truthy(current.number) ==> Truthy(m.number))
      && (Truthy(current.complement) ==> Truthy(m.complement))
      && (Truthy(current.neighborhood) ==> Truthy(m.neighborhood))
      && (Truthy(current.city) ==> Truthy(m.city))
      && (Truthy(current.state) ==> Truthy(m.state))
      && (!Truthy(data.phone) ==> m.phone == current.phone)
      && (!Truthy(data.zipCode) ==> m.zipCode == current.zipCode)
      && (!Truthy(data.birthDate) ==> m.birthDate == current.birthDate)
      && m.street.Some? && m.number.Some? && m.complement.Some?
      && m.neighborhood.Some? && m.city.Some? && m.state.Some?
  {
  }

  /** Sending the same update twice stores the same profile as sending it once. */
  lemma MergeIdempotent(current: Profile, data: Profile)
    ensures Merge(Merge(current, data), data) == Merge(current, data)
  {
  }

  const UpdatedMessage := "Perfil atualizado com sucesso"
  const UpdateFailed := "Erro ao atualizar perfil"

  /** `DateTime.fromISO` (`fromIso`, `None` for an invalid DateTime) reads the
      `yyyy-MM-dd` form as the calendar date it names, and text of that form
      naming no date as invalid. */
  ghost predicate ReadsIsoDates(fromIso: string -> Option<CivilDate>) {
    forall s :: CandidateValidator.IsIsoDateText(s) ==> fromIso(s) == CandidateValidator.ParseIsoDate(s)
  }

  /** A given birth date that `DateTime.fromISO` cannot read: the invalid
      DateTime goes into the date column, which refuses it when the row is
      saved. */
  predicate BirthDateRefused(birthDate: Option<string>, fromIso: string -> Option<CivilDate>) {
    Truthy(birthDate) && fromIso(birthDate.value).None?
  }

  /** `update`: the caller's candidate (the first row owned by `userId`) gets the
      merged profile. A caller without a candidate, or a request whose birth
      date the save refuses, gets badRequest and nothing is stored. */
  method Update(db: CandidateTable, userId: int, data: Profile, fromIso: string -> Option<CivilDate>)
    returns (reply: Reply)
    requires db.Valid()
    modifies db
    ensures db.Valid()
    ensures db.educations == old(db.educations) && db.nextEducationId == old(db.nextEducationId)
    ensures match FirstIndex(old(db.candidates), OwnedBy(userId))
      case None =>
        reply == Reply(BadRequest, "", UpdateFailed) && db.candidates == old(db.candidates)
      case Some(k) =>
        if BirthDateRefused(data.birthDate, fromIso) then
          reply == Reply(BadRequest, "", UpdateFailed) && db.candidates == old(db.candidates)
        else
          var c := old(db.candidates)[k];
          reply == Reply(Ok, "", UpdatedMessage)
          && db.candidates == old(db.candidates)[k := c.(profile := Merge(c.profile, data))]
  {
    var k := FirstIndex(db.candidates, OwnedBy(userId));
    if k.None? {
      reply := Reply(BadRequest, "", UpdateFailed);
      return;
    }
    var candidate := db.candidates[k.value];
    candidate := candidate.(profile := Merge(candidate.profile, data));
    if BirthDateRefused(data.birthDate, fromIso) {
      reply := Reply(BadRequest, "", UpdateFailed);
      return;
    }
    db.Save(candidate);
    reply := Reply(Ok, "", UpdatedMessage);
  }

  /** `yyyy-MM-dd` text naming no calendar date, such as 2023-02-31, is refused
      by the update; a real date in that form is stored. */
  lemma UpdateRefusesImpossibleDates(fromIso: string -> Option<CivilDate>, birthDate: string)
    requires ReadsIsoDates(fromIso)
    requires CandidateValidator.IsIsoDateText(birthDate)
    ensures BirthDateRefused(Some(birthDate), fromIso) <==> CandidateValidator.ParseIsoDate(birthDate).None?
    ensures BirthDateRefused(Some("2023-02-31"), fromIso)
  {
    CandidateValidator.ParseIsoDateChecksTheCalendar();
    assert birthDate != "" by {
      assert |birthDate| == 10;
    }
  }

  // ---------------------------------------------------------------------------
  // addEducation

  const FieldsRequired := "Todos os campos são obrigatórios: course_name, institution_name, completion_date"
  const EducationAdded := "Formação adicionada com sucesso"
  const AddEducationFailed := "Erro ao adicionar formação"

  /** The guard of `addEducation`: all three fields present and non-empty. */
  predicate EducationFieldsPresent(courseName: Option<string>, institutionName: Option<string>,
                                   completionDate: Option<string>)
  {
    Truthy(courseName) && Truthy(institutionName) && Truthy(completionDate)
  }

  /** `addEducation`: a caller without a candidate, or a request missing one of
      the three fields, creates nothing; otherwise one education is appended for
      the caller's candidate. */
  method AddEducation(db: CandidateTable, userId: int, courseName: Option<string>,
                      institutionName: Option<string>, completionDate: Option<string>)
    returns (reply: Reply, education: Option<Education>)
    requires db.Valid()
    modifies db
    ensures db.Valid()
    ensures db.candidates == old(db.candidates)
    ensures match FirstIndex(old(db.candidates), OwnedBy(userId))
      case None =>
        reply == Reply(BadRequest, "", AddEducationFailed) && education == None
        && db.educations == old(db.educations) && db.nextEducationId == old(db.nextEducationId)
      case Some(k) =>
        if !EducationFieldsPresent(courseName, institutionName, completionDate) then
          reply == Reply(BadRequest, "", FieldsRequired) && education == None
          && db.educations == old(db.educations) && db.nextEducationId == old(db.nextEducationId)
        else
          var e := Education(old(db.nextEducationId), old(db.candidates)[k].id, courseName.value,
                             institutionName.value, completionDate.value);
          reply == Reply(Created, "", EducationAdded) && education == Some(e)
          && db.educations == old(db.educations) + [e]
  {
    education := None;
    var k := FirstIndex(db.candidates, OwnedBy(userId));
    if k.None? {
      reply := Reply(BadRequest, "", AddEducationFailed);
      return;
    }
    var candidate := db.candidates[k.value];
    if !Truthy(courseName) || !Truthy(institutionName) || !Truthy(completionDate) {
      reply := Reply(BadRequest, "", FieldsRequired);
      return;
    }
    var e := db.CreateEducation(candidate.id, courseName.value, institutionName.value, completionDate.value);
    reply, education := Reply(Created, "", EducationAdded), Some(e);
  }

  // ---------------------------------------------------------------------------
  // removeEducation

  const EducationRemoved := "Formação removida com sucesso"
  const RemoveEducationFailed := "Erro ao remover formação"

  /** The query of `removeEducation`: the education with that id that belongs to
      the given candidate. */
  function OwnedEducation(candidateId: int, educationId: int): (r: Education -> bool) {
    (e: Education) => e.id == educationId && e.candidateId == candidateId
  }

  /** `removeEducation`: deletes the education with id `educationId` only when
      it belongs to the caller's candidate; then exactly the rows with that id
      are gone. In every other case nothing is deleted. */
  method RemoveEducation(db: CandidateTable, userId: int, educationId: int) returns (reply: Reply)
    requires db.Valid()
    modifies db
    ensures db.Valid()
    ensures db.candidates == old(db.candidates) && db.nextEducationId == old(db.nextEducationId)
    ensures reply.status == Ok <==>
      match FirstIndex(old(db.candidates), OwnedBy(userId))
      case None => false
      case Some(k) =>
        exists i :: 0 <= i < |old(db.educations)|
          && OwnedEducation(old(db.candidates)[k].id, educationId)(old(db.educations)[i])
    ensures reply.status == Ok ==>
      reply.message == EducationRemoved
      && db.educations == Filter(old(db.educations), IdIsNot(educationId))
      && |db.educations| == |old(db.educations)| - 1
    ensures reply.status != Ok ==>
      reply == Reply(BadRequest, "", RemoveEducationFailed) && db.educations == old(db.educations)
  {
    var k := FirstIndex(db.candidates, OwnedBy(userId));
    if k.None? {
      reply := Reply(BadRequest, "", RemoveEducationFailed);
      return;
    }
    var candidate := db.candidates[k.value];
    var j := FirstIndex(db.educations, OwnedEducation(candidate.id, educationId));
    if j.None? {
      reply := Reply(BadRequest, "", RemoveEducationFailed);
      return;
    }
    RemoveAtIsFilterById(db.educations, j.value, educationId);
    db.DeleteEducation(j.value);
    reply := Reply(Ok, "", EducationRemoved);
  }

  // ---------------------------------------------------------------------------
  // store

  const ProfileExists := "Você já possui um perfil de candidato"
  const ProfileCreated := "Perfil criado com sucesso"

  /** `store`: a user who already owns a candidate gets 409 and no second one;
      otherwise a candidate with the given profile is created, not selected and
      not notified. */
  method Store(db: CandidateTable, userId: int, data: Profile) returns (reply: Reply, created: Option<Candidate>)
    requires db.Valid()
    modifies db
    ensures db.Valid()
    ensures db.educations == old(db.educations) && db.nextEducationId == old(db.nextEducationId)
    ensures FirstIndex(old(db.candidates), OwnedBy(userId)).Some? ==>
      reply == Reply(Conflict, "", ProfileExists) && created == None && db.candidates == old(db.candidates)
    ensures FirstIndex(old(db.candidates), OwnedBy(userId)).None? ==>
      && reply == Reply(Created, "", ProfileCreated) && created.Some?
      && created.value == Candidate(|old(db.candidates)| + 1, userId, NextCode(old(db.candidates)),
                                    data, false, None, false)
      && db.candidates == old(db.candidates) + [created.value]
    ensures created.Some? ==> Filter(db.candidates, OwnedBy(userId)) == [created.value]
  {
    var existing := FirstIndex(db.candidates, OwnedBy(userId));
    if existing.Some? {
      reply, created := Reply(Conflict, "", ProfileExists), None;
      return;
    }
    var before := db.candidates;
    var c := db.Create(userId, data);
    FilterAppend(before, [c], OwnedBy(userId));
    FilterNone(before, OwnedBy(userId));
    reply, created := Reply(Created, "", ProfileCreated), Some(c);
  }
}
