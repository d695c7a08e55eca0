/** The education section of the candidate profile page: the add form with its
    date guard, and the cache updates after an education is added or removed.
    The date helpers are those of the personal data form, which this component
    repeats verbatim except for its display `formatDate`, which is not modelled. */
module EducationComponent {
  import opened Common
  import opened Calendar
  import opened ProfileCache
  import opened PersonalInfo
  import CandidateValidator

  /** The body of `POST /candidates/education`. */
  datatype AddPayload = AddPayload(courseName: string, institutionName: string, completionDate: string)

  /** The mutation function before the request: the names as typed and the
      completion date converted to ISO. */
  function AddRequest(courseName: string, institutionName: string, completionDate: string): (r: AddPayload)
  {
    AddPayload(courseName, institutionName, ConvertToISODate(completionDate))
  }

  // ---------------------------------------------------------------------------
  // Cache updaters

  /** The updater of a successful add: the old entry spread, with the returned
      education appended. `None` is the updater throwing, which happens when
      the entry or its `educations` is missing. */
  function WithAddedEducation(cached: Option<CachedProfile>, added: CachedEducation): (r: Option<CachedProfile>)
    ensures r.Some? <==> cached.Some? && cached.value.educations.Some?
    ensures r.Some? ==> r.value.educations.Some?
    ensures r.Some? ==>
      var es := r.value.educations.value;
      && |es| == |cached.value.educations.value| + 1
      && es[|es| - 1] == added
      && es[..|es| - 1] == cached.value.educations.value
      && r.value == cached.value.(educations := r.value.educations)
  {
    match cached
    case None => None
    case Some(p) =>
      match p.educations
      case None => None
      case Some(es) => Some(p.(educations := Some(es + [added])))
  }

  function IdIsNot(id: int): (r: CachedEducation -> bool) {
    (e: CachedEducation) => e.id != id
  }

  /** The updater of a successful remove: the old entry spread, with the
      educations whose id differs from the removed one. `None` is the updater
      throwing on a missing entry or `educations`. */
  function WithoutEducation(cached: Option<CachedProfile>, educationId: int): (r: Option<CachedProfile>)
    ensures r.Some? <==> cached.Some? && cached.value.educations.Some?
    ensures r.Some? ==> r.value == cached.value.(educations := r.value.educations) && r.value.educations.Some?
  {
    match cached
    case None => None
    case Some(p) =>
      match p.educations
      case None => None
      case Some(es) => Some(p.(educations := Some(Filter(es, IdIsNot(educationId)))))
  }

  /** After a remove no cached education carries the removed id, every other one
      is still there, and their order is kept. */
  lemma WithoutEducationDropsExactlyThatId(cached: Option<CachedProfile>, educationId: int)
    requires cached.Some? && cached.value.educations.Some?
    ensures var es := cached.value.educations.value;
      var rs := WithoutEducation(cached, educationId).value.educations.value;
      && (forall i :: 0 <= i < |rs| ==> rs[i].id != educationId)
      && (forall i :: 0 <= i < |es| && es[i].id != educationId ==> es[i] in rs)
      && IsSubsequence(rs, es)
  {
    var es := cached.value.educations.value;
    var rs := Filter(es, IdIsNot(educationId));
    FilterIsSubsequence(es, IdIsNot(educationId));
    forall i | 0 <= i < |rs|
      ensures rs[i].id != educationId
    {
      assert IdIsNot(educationId)(rs[i]);
    }
    forall i | 0 <= i < |es| && es[i].id != educationId
      ensures es[i] in rs
    {
      assert IdIsNot(educationId)(es[i]);
    }
  }

  /** Removing an education that was just added, under an id no cached one
      had, gives back the cache as it was. */
  lemma {:induction false} RemoveUndoesAdd(cached: Option<CachedProfile>, added: CachedEducation)
    requires cached.Some? && cached.value.educations.Some?
    requires forall i :: 0 <= i < |cached.value.educations.value| ==>
      cached.value.educations.value[i].id != added.id
    ensures WithoutEducation(WithAddedEducation(cached, added), added.id) == cached
  {
    var es := cached.value.educations.value;
    var keep := IdIsNot(added.id);
    FilterAppend(es, [added], keep);
    forall i | 0 <= i < |es|
      ensures keep(es[i])
    {
    }
    FilterKeepsAll(es, keep);
    assert !keep(added);
    FilterNone([added], keep);
    assert Filter(es + [added], keep) == es;
    var p := cached.value;
    assert WithAddedEducation(cached, added) == Some(p.(educations := Some(es + [added])));
    assert p.(educations := Some(es)) == p;
  }

  // ---------------------------------------------------------------------------
  // The component

  /** The state of the `Education` component. */
  class EducationForm {
    var courseName: string
    var institutionName: string
    var completionDate: string
    var showForm: bool

    constructor ()
      ensures courseName == "" && institutionName == "" && completionDate == "" && !showForm
    {
      courseName, institutionName, completionDate := "", "", "";
      showForm := false;
    }

    /** The "Adicionar Formação" button. */
    method ToggleForm()
      modifies this
      ensures showForm == !old(showForm)
      ensures courseName == old(courseName) && institutionName == old(institutionName)
      ensures completionDate == old(completionDate)
    {
      showForm := !showForm;
    }

    /** `onChange` of the course field: the text as typed. */
    method TypeCourseName(value: string)
      modifies this
      ensures courseName == value
      ensures institutionName == old(institutionName) && completionDate == old(completionDate)
      ensures showForm == old(showForm)
    {
      courseName := value;
    }

    /** `onChange` of the institution field: the text as typed. */
    method TypeInstitutionName(value: string)
      modifies this
      ensures institutionName == value
      ensures courseName == old(courseName) && completionDate == old(completionDate)
      ensures showForm == old(showForm)
    {
      institutionName := value;
    }

    /** `onChange` of the completion date: the input through the typing mask. */
    method TypeCompletionDate(value: string)
      modifies this
      ensures completionDate == FormatDateWhileTyping(value) && |completionDate| <= 10
      ensures courseName == old(courseName) && institutionName == old(institutionName)
      ensures showForm == old(showForm)
    {
      completionDate := FormatDateWhileTyping(value);
    }

    /** `onSubmit`: a malformed date or one after today raises an alert and sends
        nothing; otherwise the add request is sent. The form is left as is. */
    method Submit(today: CivilDate) returns (alert: Option<string>, sent: Option<AddPayload>)
      requires ValidCivil(today)
      ensures !IsValidDate(completionDate) ==> alert == Some(InvalidDateMessage) && sent == None
      ensures IsValidDate(completionDate) && !IsNotFutureDate(completionDate, today) ==>
        alert == Some(FutureDateMessage) && sent == None
      ensures IsValidDate(completionDate) && IsNotFutureDate(completionDate, today) ==>
        alert == None && sent == Some(AddRequest(courseName, institutionName, completionDate))
      ensures sent.Some? ==>
        && CandidateValidator.IsIsoDateText(sent.value.completionDate)
        && FormatDate(sent.value.completionDate) == completionDate
    {
      if !IsValidDate(completionDate) {
        return Some(InvalidDateMessage), None;
      }
      if !IsNotFutureDate(completionDate, today) {
        return Some(FutureDateMessage), None;
      }
      ConvertToISODateRoundTrip(completionDate);
      alert, sent := None, Some(AddRequest(courseName, institutionName, completionDate));
    }

    /** `onSuccess` of the add: the cache entry gets the returned education at
        the end, then the form is hidden and cleared. When the updater throws,
        neither the cache nor the form changes. */
    method OnAddSuccess(client: QueryClient, added: CachedEducation) returns (threw: bool)
      modifies this, client
      ensures threw <==> WithAddedEducation(old(client.profile), added).None?
      ensures threw ==>
        && client.profile == old(client.profile)
        && courseName == old(courseName) && institutionName == old(institutionName)
        && completionDate == old(completionDate) && showForm == old(showForm)
      ensures !threw ==>
        && client.profile == WithAddedEducation(old(client.profile), added)
        && courseName == "" && institutionName == "" && completionDate == "" && !showForm
    {
      var updated := WithAddedEducation(client.profile, added);
      if updated.None? {
        return true;
      }
      client.profile := updated;
      showForm := false;
      courseName, institutionName, completionDate := "", "", "";
      threw := false;
    }
  }

  /** `onSuccess` of the remove: the cache entry loses the educations with that
      id; a missing entry or list makes the updater throw and nothing changes. */
  method OnRemoveSuccess(client: QueryClient, educationId: int) returns (threw: bool)
    modifies client
    ensures threw <==> WithoutEducation(old(client.profile), educationId).None?
    ensures threw ==> client.profile == old(client.profile)
    ensures !threw ==> client.profile == WithoutEducation(old(client.profile), educationId)
  {
    var updated := WithoutEducation(client.profile, educationId);
    if updated.None? {
      return true;
    }
    client.profile := updated;
    threw := false;
  }
}
