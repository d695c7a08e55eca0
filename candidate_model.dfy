/** The Candidate and Education models and their tables. A candidate row holds
    the profile fields a candidate fills in, the interview selection state, and
    the `code` that the `beforeCreate` hook stamps on every new row. */
module CandidateModel {
  import opened Common
  import opened Calendar

  /** The profile columns that `store` and `update` take from the request. The
      birth date is held as `yyyy-MM-dd` text, as the date column reads back
      with `toFormat('yyyy-MM-dd')`. */
  datatype Profile = Profile(
    birthDate: Option<string>,
    phone: Option<string>,
    zipCode: Option<string>,
    street: Option<string>,
    number: Option<string>,
    complement: Option<string>,
    neighborhood: Option<string>,
    city: Option<string>,
    state: Option<string>)

  const EmptyProfile := Profile(None, None, None, None, None, None, None, None, None)

  datatype Candidate = Candidate(
    id: int,
    userId: int,
    code: int,
    profile: Profile,
    selectedForInterview: bool,
    interviewDate: Option<DateTime>,
    notified: bool)

  datatype Education = Education(
    id: int,
    candidateId: int,
    courseName: string,
    institutionName: string,
    completionDate: string)

  /** The largest code in a non-empty table (`orderBy('code', 'desc').first()`). */
  function MaxCode(rows: seq<Candidate>): (m: int)
    requires rows != []
    ensures forall i :: 0 <= i < |rows| ==> rows[i].code <= m
    ensures exists i :: 0 <= i < |rows| && rows[i].code == m
  {
    if |rows| == 1 then rows[0].code
    else
      var rest := MaxCode(rows[1..]);
      assert forall i :: 1 <= i < |rows| ==> rows[i] == rows[1..][i - 1];
      if rows[0].code >= rest then rows[0].code else rest
  }

  /** The code the `generateCode` hook gives a new candidate: one more than the
      largest existing code, or 1 for the first candidate. */
  function NextCode(rows: seq<Candidate>): (r: int) {
    if rows == [] then 1 else MaxCode(rows) + 1
  }

  /** A new code exceeds every existing one; an empty table starts at 1. */
  lemma NextCodeIsFresh(rows: seq<Candidate>)
    ensures rows == [] ==> NextCode(rows) == 1
    ensures rows != [] ==> exists i :: 0 <= i < |rows| && NextCode(rows) == rows[i].code + 1
    ensures forall i :: 0 <= i < |rows| ==> rows[i].code < NextCode(rows)
  {
    if rows != [] {
      var i :| 0 <= i < |rows| && rows[i].code == MaxCode(rows);
      assert NextCode(rows) == rows[i].code + 1;
    }
  }

  /** Predicate over candidate rows: owned by the given user. */
  function OwnedBy(userId: int): (r: Candidate -> bool) {
    (c: Candidate) => c.userId == userId
  }

  /** The filter `education.id !== id`. */
  function IdIsNot(id: int): (r: Education -> bool) {
    (e: Education) => e.id != id
  }

  /** With ids distinct, deleting the row that holds `id` is the same as keeping
      every row whose id differs from it. */
  lemma RemoveAtIsFilterById(xs: seq<Education>, k: nat, id: int)
    requires k < |xs| && xs[k].id == id
    requires forall i :: 0 <= i < |xs| && i != k ==> xs[i].id != id
    ensures xs[..k] + xs[k + 1..] == Filter(xs, IdIsNot(id))
  {
    FilterRemovesOne(xs, k, IdIsNot(id));
  }

  class CandidateTable {
    var candidates: seq<Candidate>
    var educations: seq<Education>
    var nextEducationId: int

    /** Candidate ids are positions; codes grow strictly in creation order (so
        they are distinct); education ids are distinct and below the counter. */
    ghost predicate Valid()
      reads this
    {
      && (forall i :: 0 <= i < |candidates| ==> candidates[i].id == i + 1)
      && (forall i, j :: 0 <= i < j < |candidates| ==> candidates[i].code < candidates[j].code)
      && nextEducationId >= 1
      && (forall i :: 0 <= i < |educations| ==> 1 <= educations[i].id < nextEducationId)
      && (forall i, j :: 0 <= i < j < |educations| ==> educations[i].id != educations[j].id)
    }

    constructor ()
      ensures Valid() && candidates == [] && educations == [] && nextEducationId == 1
    {
      candidates, educations, nextEducationId := [], [], 1;
    }

    /** The `beforeCreate` hook `generateCode`: stamps the next code on the
        candidate about to be inserted and changes no existing row. */
    method GenerateCode(c: Candidate) returns (stamped: Candidate)
      ensures stamped == c.(code := NextCode(candidates))
      ensures candidates == [] ==> stamped.code == 1
      ensures forall i :: 0 <= i < |candidates| ==> candidates[i].code < stamped.code
    {
      NextCodeIsFresh(candidates);
      var code := if candidates == [] then 1 else MaxCode(candidates) + 1;
      stamped := c.(code := code);
    }

    /** `Candidate.create(...)`: runs the hook, then inserts with the next id. */
    method Create(userId: int, profile: Profile) returns (c: Candidate)
      requires Valid()
      modifies this
      ensures Valid()
      ensures c == Candidate(|old(candidates)| + 1, userId, NextCode(old(candidates)), profile, false, None, false)
      ensures candidates == old(candidates) + [c]
      ensures educations == old(educations) && nextEducationId == old(nextEducationId)
    {
      var blank := Candidate(|candidates| + 1, userId, 0, profile, false, None, false);
      c := GenerateCode(blank);
      candidates := candidates + [c];
    }

    /** `candidate.save()` for a row that keeps its id and code. */
    method Save(c: Candidate)
      requires Valid()
      requires 1 <= c.id <= |candidates| && c.code == candidates[c.id - 1].code
      modifies this
      ensures Valid()
      ensures candidates == old(candidates)[c.id - 1 := c]
      ensures educations == old(educations) && nextEducationId == old(nextEducationId)
    {
      candidates := candidates[c.id - 1 := c];
    }

    /** `candidate.related('educations').create(...)`. */
    method CreateEducation(candidateId: int, courseName: string, institutionName: string,
                           completionDate: string) returns (e: Education)
      requires Valid()
      modifies this
      ensures Valid()
      ensures e == Education(old(nextEducationId), candidateId, courseName, institutionName, completionDate)
      ensures educations == old(educations) + [e]
      ensures nextEducationId == old(nextEducationId) + 1
      ensures candidates == old(candidates)
    {
      e := Education(nextEducationId, candidateId, courseName, institutionName, completionDate);
      educations := educations + [e];
      nextEducationId := nextEducationId + 1;
    }

    /** `education.delete()` of the row at position k. */
    method DeleteEducation(k: nat)
      requires Valid() && k < |educations|
      modifies this
      ensures Valid()
      ensures educations == old(educations[..k] + educations[k + 1..])
      ensures candidates == old(candidates) && nextEducationId == old(nextEducationId)
    {
      educations := educations[..k] + educations[k + 1..];
    }
  }
}
