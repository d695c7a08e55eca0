/** The manager's candidate list page: the fetched candidates are normalised so
    that `selectedForInterview` is a boolean, and the search box filters them in
    the browser by a case-insensitive substring of name, e-mail or a skill. */
module CandidatesList {
  import opened Common

  /** A candidate as the list page keeps it; fields it only displays are left out. */
  datatype ListedCandidate = ListedCandidate(
    id: int,
    code: int,
    name: string,
    email: string,
    skills: seq<string>,
    selectedForInterview: bool,
    interviewDate: Option<string>)

  /** A candidate as `GET /candidates` returns it: `selectedForInterview` may be
      missing or null (`None`). */
  datatype FetchedCandidate = FetchedCandidate(
    id: int,
    code: int,
    name: string,
    email: string,
    skills: seq<string>,
    selectedForInterview: Option<bool>,
    interviewDate: Option<string>)

  /** `{ ...candidate, selectedForInterview: candidate.selectedForInterview || false }`. */
  function Normalise(c: FetchedCandidate): (r: ListedCandidate) {
    ListedCandidate(c.id, c.code, c.name, c.email, c.skills,
                    c.selectedForInterview == Some(true), c.interviewDate)
  }

  /** The `map` of the query function: one entry per fetched candidate, in order,
      selected exactly when the server said `true`. */
  function NormaliseAll(fetched: seq<FetchedCandidate>): (r: seq<ListedCandidate>)
    ensures |r| == |fetched|
    ensures forall i :: 0 <= i < |r| ==>
      && r[i].selectedForInterview == (fetched[i].selectedForInterview == Some(true))
      && r[i].id == fetched[i].id && r[i].code == fetched[i].code && r[i].name == fetched[i].name
      && r[i].email == fetched[i].email && r[i].skills == fetched[i].skills
      && r[i].interviewDate == fetched[i].interviewDate
  {
    seq(|fetched|, i requires 0 <= i < |fetched| => Normalise(fetched[i]))
  }

  /** Some skill contains the (lower-cased) term. */
  predicate SomeSkillMatches(skills: seq<string>, term: string) {
    exists i :: 0 <= i < |skills| && Contains(Lower(skills[i]), Lower(term))
  }

  /** The filter's test for one candidate. */
  predicate Matches(c: ListedCandidate, term: string) {
    || Contains(Lower(c.name), Lower(term))
    || Contains(Lower(c.email), Lower(term))
    || SomeSkillMatches(c.skills, term)
  }

  function MatchesTerm(term: string): (r: ListedCandidate -> bool) {
    c => Matches(c, term)
  }

  /** `filteredCandidates`. */
  function FilterCandidates(candidates: seq<ListedCandidate>, term: string): (r: seq<ListedCandidate>) {
    Filter(candidates, MatchesTerm(term))
  }

  /** A candidate is shown exactly when it is in the list and matches the term,
      and the shown list keeps the order of the fetched one. */
  lemma FilterCandidatesIff(candidates: seq<ListedCandidate>, term: string)
    ensures forall c :: c in FilterCandidates(candidates, term) <==> c in candidates && Matches(c, term)
    ensures IsSubsequence(FilterCandidates(candidates, term), candidates)
  {
    var r := FilterCandidates(candidates, term);
    forall c | c in r
      ensures c in candidates && Matches(c, term)
    {
      var i :| 0 <= i < |r| && r[i] == c;
      assert MatchesTerm(term)(r[i]);
    }
    forall c | c in candidates && Matches(c, term)
      ensures c in r
    {
      var i :| 0 <= i < |candidates| && candidates[i] == c;
      assert MatchesTerm(term)(candidates[i]);
    }
    FilterIsSubsequence(candidates, MatchesTerm(term));
  }

  /** The empty search term shows every candidate. */
  lemma EmptyTermShowsAll(candidates: seq<ListedCandidate>)
    ensures FilterCandidates(candidates, "") == candidates
  {
    forall i | 0 <= i < |candidates|
      ensures MatchesTerm("")(candidates[i])
    {
      ContainsEmpty(Lower(candidates[i].name));
      assert Lower("") == "";
    }
    FilterKeepsAll(candidates, MatchesTerm(""));
  }

  lemma LowerCharIdempotent(c: char)
    ensures LowerChar(LowerChar(c)) == LowerChar(c)
  {
  }

  lemma LowerIdempotent(s: string)
    ensures Lower(Lower(s)) == Lower(s)
  {
    forall i | 0 <= i < |s|
      ensures Lower(Lower(s))[i] == Lower(s)[i]
    {
      LowerCharIdempotent(s[i]);
    }
  }

  /** Two terms that differ only in letter case show the same candidates. */
  lemma CaseDoesNotMatter(candidates: seq<ListedCandidate>, t1: string, t2: string)
    requires Lower(t1) == Lower(t2)
    ensures FilterCandidates(candidates, t1) == FilterCandidates(candidates, t2)
  {
    forall i | 0 <= i < |candidates|
      ensures MatchesTerm(t1)(candidates[i]) == MatchesTerm(t2)(candidates[i])
    {
    }
    FilterSamePredicate(candidates, MatchesTerm(t1), MatchesTerm(t2));
  }

  /** In particular, searching for the lower-cased term is the same search. */
  lemma LowerCasedTermSameSearch(candidates: seq<ListedCandidate>, term: string)
    ensures FilterCandidates(candidates, Lower(term)) == FilterCandidates(candidates, term)
  {
    LowerIdempotent(term);
    CaseDoesNotMatter(candidates, Lower(term), term);
  }
}
