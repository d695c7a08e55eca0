/** The manager's candidate card: selecting a candidate for an interview
    updates the cached candidate list and the card's own candidate, and the
    card tracks whether a selection is in flight and the last error. The
    request itself is an outcome passed in. */
module CandidateCard {
  import opened Common
  import opened CandidatesList
  import Calendar
  import Accounts
  import CandidateModel
  import RecruitersController

  /** The cache entry `['candidates']`: never fetched, something that is not
      an array, or a list of candidates. */
  datatype CachedList = Absent | NotAList | Listed(candidates: seq<ListedCandidate>)

  /** The query client restricted to that entry. */
  class CandidatesCache {
    var data: CachedList

    constructor (data: CachedList)
      ensures this.data == data
    {
      this.data := data;
    }
  }

  /** One entry of the updater's `map`. */
  function MarkOne(c: ListedCandidate, id: int, interviewDate: Option<string>): (r: ListedCandidate) {
    if c.id == id then c.(selectedForInterview := true, interviewDate := interviewDate) else c
  }

  /** The updater of `confirmSelection`: a missing or non-array entry is given
      back as it is; in a list, the entries with the selected id are marked
      selected with the returned interview date, and the others stay. */
  function MarkSelected(data: CachedList, id: int, interviewDate: Option<string>): (r: CachedList)
    ensures !data.Listed? ==> r == data
    ensures data.Listed? ==> r.Listed? && |r.candidates| == |data.candidates|
    ensures data.Listed? ==> forall i :: 0 <= i < |r.candidates| ==>
      var before, after := data.candidates[i], r.candidates[i];
      if before.id == id
      then after == before.(selectedForInterview := true, interviewDate := interviewDate)
      else after == before
  {
    match data
    case Listed(cs) =>
      Listed(seq(|cs|, i requires 0 <= i < |cs| => MarkOne(cs[i], id, interviewDate)))
    case _ => data
  }

  /** Marking again with the same date changes nothing, and after marking the
      selected candidate shows as selected in every entry that holds it. */
  lemma MarkSelectedIdempotent(data: CachedList, id: int, interviewDate: Option<string>)
    ensures MarkSelected(MarkSelected(data, id, interviewDate), id, interviewDate) == MarkSelected(data, id, interviewDate)
    ensures var r := MarkSelected(data, id, interviewDate);
      r.Listed? ==> forall c :: c in r.candidates && c.id == id ==>
        c.selectedForInterview && c.interviewDate == interviewDate
  {
    var once := MarkSelected(data, id, interviewDate);
    if data.Listed? {
      var twice := MarkSelected(once, id, interviewDate);
      assert twice.candidates == once.candidates;
    }
  }

  /** The outcome of the card's selection request as the card reads it: the
      top-level `interviewDate` of a 2xx body (`None` when the body has none),
      or a failure with the reply's `message` if any. As written the request
      goes to a path no route serves (Routes.CardPathUnrouted), so only the
      failure branch occurs. Sent to the select route instead, the reply holds
      no top-level `interviewDate` (SelectRouteReplyAsRead), so a success only
      carries a date once the card reads the nested `candidate.interviewDate`. */
  datatype SelectResponse = Succeeded(interviewDate: Option<string>) | Failed(message: Option<string>)

  const DefaultSelectError := "Erro ao selecionar candidato. Tente novamente."

  /** A reply of the recruiter select route read through
      `response.data.interviewDate`: the 200 body is `{message, candidate}`, so
      the field is undefined; a 400 rejects the request and its `message` is
      shown. */
  function ReadTopLevelDate(outcome: RecruitersController.SelectOutcome): (r: SelectResponse)
  {
    match outcome
    case Selected(_) => Succeeded(None)
    case BadRequest(message) => Failed(Some(message))
  }

  /** The same reply read through `response.data.candidate.interviewDate`,
      where `toJSON` (passed in as `iso`) has written the view's date. */
  function ReadNestedDate(outcome: RecruitersController.SelectOutcome,
                          iso: Calendar.DateTime -> string): (r: SelectResponse)
  {
    match outcome
    case Selected(view) =>
      Succeeded(if view.interviewDate.Some? then Some(iso(view.interviewDate.value)) else None)
    case BadRequest(message) => Failed(Some(message))
  }

  /** What the card would get from the select route after the selection was
      stored and the mail delivered. With only `user` preloaded it shows the
      route's generic error. With the relations loaded it succeeds, but the
      top-level read yields no date, so the cache and the card store the
      candidate as selected with no interview date; only the nested read gives
      back the stored date. */
  lemma SelectRouteReplyAsRead(saved: CandidateModel.Candidate, u: Accounts.User,
                               loaded: Option<RecruitersController.Relations>,
                               iso: Calendar.DateTime -> string)
    ensures loaded.None? ==>
      ReadTopLevelDate(RecruitersController.ReplyAfterMail(saved, u, loaded))
        == Failed(Some(RecruitersController.SelectFailed))
    ensures loaded.Some? ==>
      ReadTopLevelDate(RecruitersController.ReplyAfterMail(saved, u, loaded)) == Succeeded(None)
    ensures loaded.Some? && saved.interviewDate.Some? ==>
      ReadNestedDate(RecruitersController.ReplyAfterMail(saved, u, loaded), iso)
        == Succeeded(Some(iso(saved.interviewDate.value)))
  {
    if loaded.Some? {
      RecruitersController.ReplyAfterMailLoaded(saved, u, loaded.value);
    }
  }

  /** `disabled` of the select button. */
  predicate SelectDisabled(selectedForInterview: bool, isSelecting: bool) {
    selectedForInterview || isSelecting
  }

  /** The state of one card. */
  class Card {
    var candidate: ListedCandidate
    var isSelecting: bool
    var error: string
    var showModal: bool

    constructor (candidate: ListedCandidate)
      ensures this.candidate == candidate && !isSelecting && error == "" && !showModal
    {
      this.candidate := candidate;
      isSelecting, error, showModal := false, "", false;
    }

    /** `handleSelect`: opens the confirmation modal. */
    method HandleSelect()
      modifies this
      ensures showModal
      ensures candidate == old(candidate) && isSelecting == old(isSelecting) && error == old(error)
    {
      showModal := true;
    }

    /** `confirmSelection` with the outcome of its request. On success the cache
        entry is marked, the card's candidate becomes selected with the
        returned date and the modal closes; on failure the error is the
        reply's message or the default and nothing else changes. Either way
        no selection is in flight afterwards. */
    method ConfirmSelection(cache: CandidatesCache, response: SelectResponse)
      modifies this, cache
      ensures !isSelecting
      ensures response.Succeeded? ==>
        && cache.data == MarkSelected(old(cache.data), old(candidate.id), response.interviewDate)
        && candidate == old(candidate).(selectedForInterview := true, interviewDate := response.interviewDate)
        && error == "" && !showModal
        && SelectDisabled(candidate.selectedForInterview, isSelecting)
      ensures response.Failed? ==>
        && cache.data == old(cache.data) && candidate == old(candidate)
        && error == (if Truthy(response.message) then response.message.value else DefaultSelectError)
        && showModal == old(showModal)
    {
      isSelecting := true;
      error := "";
      match response {
        case Succeeded(date) =>
          cache.data := MarkSelected(cache.data, candidate.id, date);
          candidate := candidate.(selectedForInterview := true, interviewDate := date);
          showModal := false;
        case Failed(message) =>
          error := if Truthy(message) then message.value else DefaultSelectError;
      }
      isSelecting := false;
    }
  }

  /** The skills line: the first three skills joined by `, `, then `...` when
      there are more. */
  function SkillSummary(skills: seq<string>): (r: string) {
    Join(skills[..if |skills| < 3 then |skills| else 3], ", ") + (if |skills| > 3 then "..." else "")
  }

  lemma {:induction false} JoinThree(a: string, b: string, c: string)
    ensures Join([a, b, c], ", ") == a + ", " + b + ", " + c
  {
    assert [a, b, c][1..] == [b, c] && [b, c][1..] == [c];
    assert Join([c], ", ") == c;
    assert Join([b, c], ", ") == b + ", " + c;
  }

  /** The line lists every skill when there are at most three, and otherwise
      exactly the first three followed by `...`. */
  lemma {:induction false} SkillSummaryCases(skills: seq<string>)
    ensures |skills| <= 3 ==> SkillSummary(skills) == Join(skills, ", ")
    ensures |skills| > 3 ==>
      SkillSummary(skills) == skills[0] + ", " + skills[1] + ", " + skills[2] + "..."
  {
    if |skills| > 3 {
      assert skills[..3] == [skills[0], skills[1], skills[2]];
      JoinThree(skills[0], skills[1], skills[2]);
    } else {
      assert skills[..|skills|] == skills;
    }
  }
}
