/** The route table of the API: each route's verb, path, handler and the
    middleware that runs before the handler, outermost first, plus the pipeline
    those middleware form. */
module Routes {
  import opened Common
  import opened Accounts
  import AuthMiddleware
  import RoleMiddleware

  datatype Verb = Get | Post | Put | Delete

  datatype Middleware = Auth | Role(roles: seq<string>)

  /** A route: its verb, its path as the segments between the slashes (a
      segment `:name` is a parameter), its handler and its middleware. */
  datatype Route = Route(verb: Verb, path: seq<string>, controller: string, action: string, middleware: seq<Middleware>)

  const CandidateOnly: seq<Middleware> := [Auth, Role([CandidateRole])]
  const ManagerOnly: seq<Middleware> := [Auth, Role([ManagerRole])]

  /** `start/routes.ts`. Group prefixes are folded into the paths; the `auth` of
      the outer protected group runs before the `role` of an inner group. The
      root `/` is the path with one empty segment. */
  const Table: seq<Route> := [
    Route(Get, [""], "", "root", []),
    Route(Post, ["api", "register"], "AuthController", "register", []),
    Route(Post, ["api", "login"], "AuthController", "login", []),
    Route(Post, ["api", "verify-email"], "AuthController", "verifyEmail", []),
    Route(Post, ["api", "logout"], "AuthController", "logout", [Auth]),
    Route(Get, ["api", "skills"], "SkillsController", "index", CandidateOnly),
    Route(Post, ["api", "candidates"], "CandidatesController", "store", CandidateOnly),
    Route(Get, ["api", "candidates", "profile"], "CandidatesController", "show", CandidateOnly),
    Route(Put, ["api", "candidates", "profile"], "CandidatesController", "update", CandidateOnly),
    Route(Get, ["api", "candidates", "skills"], "CandidatesController", "getSkills", CandidateOnly),
    Route(Post, ["api", "candidates", "skills"], "CandidatesController", "addSkill", CandidateOnly),
    Route(Delete, ["api", "candidates", "skills", ":id"], "CandidatesController", "removeSkill", CandidateOnly),
    Route(Get, ["api", "candidates", "education"], "CandidatesController", "getEducation", CandidateOnly),
    Route(Post, ["api", "candidates", "education"], "CandidatesController", "addEducation", CandidateOnly),
    Route(Put, ["api", "candidates", "education", ":id"], "CandidatesController", "updateEducation", CandidateOnly),
    Route(Delete, ["api", "candidates", "education", ":id"], "CandidatesController", "removeEducation", CandidateOnly),
    Route(Get, ["api", "candidates"], "RecruitersController", "listCandidates", ManagerOnly),
    Route(Get, ["api", "candidates", ":id"], "RecruitersController", "showCandidate", ManagerOnly),
    Route(Post, ["api", "candidates", ":id", "skills"], "RecruitersController", "addCandidateSkill", ManagerOnly),
    Route(Delete, ["api", "candidates", ":id", "skills", ":skillId"], "RecruitersController", "removeCandidateSkill", ManagerOnly),
    Route(Post, ["api", "candidates", ":id", "select"], "RecruitersController", "selectForInterview", ManagerOnly)
  ]

  predicate IsPublic(path: seq<string>) {
    path in {[""], ["api", "register"], ["api", "login"], ["api", "verify-email"]}
  }

  /** The account routes are under `/api` and run no middleware; every other
      `/api` route runs `auth` first. */
  lemma PublicAndGuarded()
    ensures forall i :: 0 <= i < |Table| && IsPublic(Table[i].path) ==> Table[i].middleware == []
    ensures forall i :: 0 <= i < |Table| && !IsPublic(Table[i].path) ==>
      |Table[i].middleware| >= 1 && Table[i].middleware[0] == Auth
  {
  }

  /** Logout needs a session but no role. */
  lemma LogoutIsAuthOnly()
    ensures forall i :: 0 <= i < |Table| && Table[i].path == ["api", "logout"] ==>
      Table[i].action == "logout" && Table[i].middleware == [Auth]
  {
  }

  const SelectPath: seq<string> := ["api", "candidates", ":id", "select"]

  /** Every candidate self-service handler runs behind `auth` and `role:candidate`,
      every recruiter handler behind `auth` and `role:manager`, and POST
      `/api/candidates/:id/select` is the recruiters' selectForInterview. */
  lemma RoleGroups()
    ensures forall i :: 0 <= i < |Table| && Table[i].controller == "CandidatesController" ==>
      Table[i].middleware == CandidateOnly
    ensures forall i :: 0 <= i < |Table| && Table[i].controller == "RecruitersController" ==>
      Table[i].middleware == ManagerOnly
    ensures Route(Post, SelectPath, "RecruitersController", "selectForInterview", ManagerOnly) in Table
    ensures forall i :: 0 <= i < |Table| && Table[i].verb == Post && Table[i].path == SelectPath ==>
      Table[i] == Route(Post, SelectPath, "RecruitersController", "selectForInterview", ManagerOnly)
  {
    assert Table[20] == Route(Post, SelectPath, "RecruitersController", "selectForInterview", ManagerOnly);
  }

  // ---------------------------------------------------------------------------
  // Matching a request URL

  /** A non-empty piece of text without a slash, as a parameter takes. */
  predicate IsSegment(s: string) {
    s != [] && forall i :: 0 <= i < |s| ==> s[i] != '/'
  }

  /** A pattern segment matches a URL segment: a parameter takes any non-empty
      segment, any other segment only itself. */
  predicate SegmentMatches(pattern: string, segment: string) {
    if |pattern| > 0 && pattern[0] == ':' then segment != "" else pattern == segment
  }

  /** The router's test: the URL starts with `/` and its segments match the
      route's one by one. */
  predicate PathMatches(pattern: seq<string>, url: string) {
    var s := Split(url, '/');
    s[0] == "" && |s| == |pattern| + 1
    && forall i :: 0 <= i < |pattern| ==> SegmentMatches(pattern[i], s[i + 1])
  }

  /** `/api/candidates/<id>/<last>` splits into its five pieces. */
  lemma CandidateUrlPieces(id: string, last: string)
    requires IsSegment(id) && IsSegment(last)
    ensures Split("/api/candidates/" + id + "/" + last, '/') == ["", "api", "candidates", id, last]
  {
    var tail := id + ['/'] + last;
    var url := "" + ['/'] + ("api" + ['/'] + ("candidates" + ['/'] + tail));
    assert "/api/candidates/" + id + "/" + last == url;
    assert Split(tail, '/') == [id, last] by {
      SplitAtFirstSeparator(id, '/', last);
      SplitNoSeparator(last, '/');
    }
    SplitAtFirstSeparator("candidates", '/', tail);
    SplitAtFirstSeparator("api", '/', "candidates" + ['/'] + tail);
    SplitAtFirstSeparator("", '/', "api" + ['/'] + ("candidates" + ['/'] + tail));
  }

  /** A candidate id as the frontend writes it into a URL: decimal digits. */
  predicate IsDecimal(s: string) {
    s != [] && forall i :: 0 <= i < |s| ==> '0' <= s[i] <= '9'
  }

  /** The URL the manager's candidate card posts to, under the same `/api` base
      as the other calls of the frontend. */
  function CardRequestUrl(id: string): (r: string) {
    "/api/candidates/" + id + "/interview"
  }

  /** The URL of the selection route for one candidate. */
  function SelectRequestUrl(id: string): (r: string) {
    "/api/candidates/" + id + "/select"
  }

  /** No POST route matches the card's request URL, whatever the id; and for a
      decimal id no route of any verb does. A selection made from the card
      never reaches a handler. */
  lemma CardPathUnrouted(id: string)
    requires IsSegment(id)
    ensures forall i :: 0 <= i < |Table| && Table[i].verb == Post ==> !PathMatches(Table[i].path, CardRequestUrl(id))
    ensures IsDecimal(id) ==> forall i :: 0 <= i < |Table| ==> !PathMatches(Table[i].path, CardRequestUrl(id))
  {
    assert CardRequestUrl(id) == "/api/candidates/" + id + "/" + "interview";
    CandidateUrlPieces(id, "interview");
    forall i | 0 <= i < |Table| && PathMatches(Table[i].path, CardRequestUrl(id))
      ensures Table[i].verb != Post && !IsDecimal(id)
    {
      var p := Table[i].path;
      assert |p| == 4 && SegmentMatches(p[3], "interview");
      assert p[3][0] == ':';
      assert SegmentMatches(p[2], id);
    }
  }

  /** For a decimal id, the selection URL matches exactly the routes whose
      pattern is `/api/candidates/:id/select`. */
  lemma SelectUrlRouted(id: string)
    requires IsDecimal(id)
    ensures forall i :: 0 <= i < |Table| ==>
      (PathMatches(Table[i].path, SelectRequestUrl(id)) <==> Table[i].path == SelectPath)
  {
    assert SelectRequestUrl(id) == "/api/candidates/" + id + "/" + "select";
    CandidateUrlPieces(id, "select");
  }

  // ---------------------------------------------------------------------------
  // The pipeline

  /** The outcome of running a route's middleware on a request: the handler is
      reached with the authenticated user (if any), or a middleware answers. */
  datatype Dispatch = Reached(action: string, user: Option<User>) | Rejected(status: int, code: string)

  /** Runs the middleware in order. `auth` replaces the request's user by the
      admitted one; `role` decides on whatever user the request carries. */
  function RunMiddleware(ms: seq<Middleware>, action: string, user: Option<User>,
                         header: Option<string>, verify: string -> Option<int>, users: seq<User>): (r: Dispatch)
  {
    if ms == [] then Reached(action, user)
    else match ms[0]
      case Auth =>
        (match AuthMiddleware.Decide(header, verify, users)
         case Missing => Rejected(401, AuthMiddleware.TokenMissing)
         case Invalid => Rejected(401, AuthMiddleware.InvalidToken)
         case Admit(u) => RunMiddleware(ms[1..], action, Some(u), header, verify, users))
      case Role(roles) =>
        (match RoleMiddleware.Decide(user, roles)
         case Proceed => RunMiddleware(ms[1..], action, user, header, verify, users)
         case Reject(status, code, _) => Rejected(status, code))
  }

  /** A request for a registered route, starting with no user on it. */
  function DispatchRequest(rt: Route, header: Option<string>, verify: string -> Option<int>,
                           users: seq<User>): (r: Dispatch)
  {
    RunMiddleware(rt.middleware, rt.action, None, header, verify, users)
  }

  /** Interview selection is reached exactly by a request whose token admits a
      stored user with role manager, and that user is the one it sees. */
  lemma SelectOnlyForManagers(rt: Route, header: Option<string>, verify: string -> Option<int>, users: seq<User>)
    requires rt in Table && rt.verb == Post && rt.path == SelectPath
    ensures var d := DispatchRequest(rt, header, verify, users);
      var a := AuthMiddleware.Decide(header, verify, users);
      && (d.Reached? <==> a.Admit? && a.user.role == ManagerRole)
      && (d.Reached? ==> d.user == Some(a.user) && d.action == "selectForInterview")
      && (a.Admit? && a.user.role != ManagerRole ==> d == Rejected(403, RoleMiddleware.Forbidden))
  {
    RoleGroups();
    var i :| 0 <= i < |Table| && Table[i] == rt;
    assert rt == Route(Post, SelectPath, "RecruitersController", "selectForInterview", ManagerOnly);
    var rest := ManagerOnly[1..];
    assert rest == [Role([ManagerRole])] && rest[1..] == [];
    var a := AuthMiddleware.Decide(header, verify, users);
    if a.Admit? {
      var u := a.user;
      assert DispatchRequest(rt, header, verify, users)
          == RunMiddleware(rest, rt.action, Some(u), header, verify, users);
      RoleMiddleware.ProceedIff(Some(u), [ManagerRole]);
      if u.role == ManagerRole {
        assert RunMiddleware(rest, rt.action, Some(u), header, verify, users)
            == RunMiddleware(rest[1..], rt.action, Some(u), header, verify, users);
      }
    } else {
      assert DispatchRequest(rt, header, verify, users).Rejected?;
    }
  }

  /** On a guarded route the handler only ever sees an authenticated, stored user. */
  lemma GuardedRoutesSeeAUser(i: nat, header: Option<string>, verify: string -> Option<int>, users: seq<User>)
    requires i < |Table| && !IsPublic(Table[i].path)
    ensures var d := DispatchRequest(Table[i], header, verify, users);
      d.Reached? ==> d.user.Some? && d.user.value in users
  {
    PublicAndGuarded();
    var ms := Table[i].middleware;
    if AuthMiddleware.Decide(header, verify, users).Admit? {
      AuthMiddleware.AdmitIff(header, verify, users, AuthMiddleware.Decide(header, verify, users).user);
      RunKeepsUser(ms[1..], Table[i].action, AuthMiddleware.Decide(header, verify, users).user,
                   header, verify, users);
    }
  }

  /** After `auth` has admitted `u`, the remaining `role` checks keep `u`. */
  lemma {:induction false} RunKeepsUser(ms: seq<Middleware>, action: string, u: User,
                                        header: Option<string>, verify: string -> Option<int>, users: seq<User>)
    requires AuthMiddleware.Decide(header, verify, users) == AuthMiddleware.Admit(u)
    ensures var d := RunMiddleware(ms, action, Some(u), header, verify, users);
      d.Reached? ==> d.user == Some(u)
  {
    if ms != [] {
      RunKeepsUser(ms[1..], action, u, header, verify, users);
    }
  }
}
