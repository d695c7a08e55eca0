# Talent Pool — a Dafny model of its rules

Talent Pool is a recruiting application. Candidates register, confirm their
e-mail, set a password and fill in a profile (personal data, address, skills,
educations). Managers browse the candidates and select one for an interview,
which schedules a date and mails the candidate. The backend is an AdonisJS
HTTP API and the frontend a React single-page application.

This project models the rules of that application as Dafny code and proves
properties of them:

- **Backend authentication.** The `auth` and `role` middleware, the route table
  that decides which of them guards each route, and the account lifecycle of
  `AuthController`: register, login and e-mail verification.
- **Candidate records.** The candidate and education table with the `code`
  hook, and the controller operations on it: create, merge update, add and
  remove an education, and select for interview.
- **Interview scheduling.** There are two rules. The routed one counts three
  business days. The unrouted one adds three calendar days and skips a weekend.
- **Validation.** The candidate validation schema.
- **Frontend rules.** The phone and date masks and the date conversions of the
  profile forms, their submit guards, the cache updates after a save, an add
  or a remove, the manager's search filter and the candidate card's selection
  update.

Dates are integer day numbers; day 0 is 1970-01-01, a Thursday. Weekdays use
luxon's numbering, 1 = Monday to 7 = Sunday. The current time ("now" or
"today") is always a parameter.

These are parameters or abstract values:

- the mail service: whether delivery succeeded;
- `jwt.verify`: a partial function from token to user id;
- `Hash.verify`: a predicate;
- `uuidv4`: the value it returned.

The database is in memory, as sequences of records. Row `i` has id `i + 1`.

Files, one module each:

- `common.dfy`: `Option`, `Reply` and the JavaScript string operations used
  throughout, namely `replace(/\D/g, '')`, `split`, `includes`, `trim`,
  `join`, `filter` and ASCII `toLowerCase`.
- `calendar.dfy`: days, weekdays, business days and civil dates.
- `accounts.dfy`: `User` and the users table.
- `candidate_model.dfy`: `Candidate`, `Education` and their table.
- `auth_middleware.dfy`, `role_middleware.dfy`, `routes.dfy`: the request
  pipeline.
- `auth_controller.dfy`, `candidates_controller.dfy`,
  `recruiters_controller.dfy`: the controllers.
- `candidate_validator.dfy`: the validation schema.
- `frontend_cache.dfy`: the cached profile entry.
- `personal_info.dfy`, `education.dfy`, `candidates_list.dfy`,
  `candidate_card.dfy`: the frontend components.

Modelling choices:

- The validator's `required` on a trimmed string means present and not empty
  after trimming.
- `isValidDate` is the shape check alone, because `new Date(y, m - 1, d)`
  rolls over and never yields an invalid date for such input.
- The two interview-date rules both exist and disagree. They are modelled
  side by side.

## Model

| member | source | states |
|---|---|---|
| AuthMiddleware.StripBearerRoundTrip | backend/app/Middleware/Auth.ts:18 | the header `Bearer <token>` that the frontend builds strips back to exactly `<token>` |
| AuthMiddleware.StripBearerWithoutPrefix | backend/app/Middleware/Auth.ts:18 | a header without `Bearer ` anywhere is used as the token unchanged |
| AuthMiddleware.AdmitIff | backend/app/Middleware/Auth.ts:11-28 | a request is admitted iff the header is truthy, the stripped token verifies and the decoded id names a stored user, who is the one admitted |
| AuthMiddleware.Handle | backend/app/Middleware/Auth.ts:7-41 | missing header gives TOKEN_MISSING; a failed verify or user lookup gives INVALID_TOKEN, with `next` not run and `request.user` untouched; otherwise `request.user` is the admitted user and `next` runs once; an exception from `next` also gives INVALID_TOKEN; AUTH_ERROR is never answered |
| AuthMiddleware.Request.constructor | backend/app/Middleware/Auth.ts:26 | the request object carries the user the gate writes |
| RoleMiddleware.ProceedIff | backend/app/Middleware/Role.ts:9-25 | `next` runs iff a user is present and its role is in the allow-list |
| RoleMiddleware.UnauthorizedFirst | backend/app/Middleware/Role.ts:9-23 | no user is 401 UNAUTHORIZED whatever the list; FORBIDDEN iff a user is present with a role outside the list; rejections are 401 or 403 |
| Routes.PublicAndGuarded | backend/start/routes.ts:29-62 | the root and register, login and verify-email run no middleware; every other route runs `auth` first |
| Routes.LogoutIsAuthOnly | backend/start/routes.ts:37 | logout runs `auth` and no role check |
| Routes.RoleGroups | backend/start/routes.ts:40-61 | every CandidatesController route is behind `auth` and `role:candidate`, every RecruitersController route behind `auth` and `role:manager`; POST `/api/candidates/:id/select` is the recruiters' selectForInterview |
| Routes.CardPathUnrouted | frontend/src/components/manager/CandidateCard.tsx:55 | matching URL segments one by one, a `:param` taking any non-empty segment: for every id, no POST route matches `/api/candidates/<id>/interview`, and for a decimal id no route of any verb does |
| Routes.SelectUrlRouted | backend/start/routes.ts:55-62 | for a decimal id, `/api/candidates/<id>/select` matches exactly the routes whose pattern is `/api/candidates/:id/select` |
| Routes.SelectOnlyForManagers | backend/start/routes.ts:55-62 | the select handler is reached iff the token admits a stored manager, who is the user it sees; an admitted non-manager gets 403 FORBIDDEN |
| Routes.GuardedRoutesSeeAUser | backend/start/routes.ts:36-62 | on every guarded route the handler only sees an authenticated user that is in the users table |
| Routes.RunKeepsUser | backend/start/routes.ts:36-62 | after `auth` admitted a user, the later `role` checks keep that user on the request |
| AuthController.GenerateToken | backend/app/Controllers/Http/AuthController.ts:12-22 | the signed payload is the user's id, e-mail and role, and the token lives 86400 seconds, the `24h` of `expiresIn` |
| AuthController.IssuedTokenAdmits | backend/app/Controllers/Http/AuthController.ts:12-22 | a token that verifies to the id signed into it, sent as `Bearer <token>`, is admitted by `auth` as that same user |
| AuthController.RoleOrDefault | backend/app/Controllers/Http/AuthController.ts:42 | the stored role is the requested one when truthy, else `candidate` |
| AuthController.Register | backend/app/Controllers/Http/AuthController.ts:24-71 | a body without an e-mail gives 500 and stores nothing; a duplicate e-mail gives 409 and changes nothing; otherwise an unverified user with the fresh token and next id is appended; a candidate profile is created only when the role sent was literally `candidate`; a mail failure gives 500 with both rows kept; both tables stay valid |
| AuthController.RoleDefaultWithoutProfile | backend/app/Controllers/Http/AuthController.ts:42-54 | omitting the role registers a `candidate` user without a candidate profile |
| AuthController.LoginIff | backend/app/Controllers/Http/AuthController.ts:73-116 | login succeeds iff the first user with that e-mail is verified and the password matches; the token it returns names that user |
| AuthController.UnverifiedBeforePassword | backend/app/Controllers/Http/AuthController.ts:81-89 | an unverified user gets EMAIL_NOT_VERIFIED whatever password and hash check are used |
| AuthController.UnknownEmailLooksLikeWrongPassword | backend/app/Controllers/Http/AuthController.ts:91-115 | an unknown e-mail and a wrong password are answered identically |
| AuthController.Received | backend/app/Controllers/Http/AuthController.ts:119 | an empty token arrives as `null`; any other token arrives as sent |
| AuthController.FindByTokenAsWritten | backend/app/Controllers/Http/AuthController.ts:123 | an absent token finds nobody; a `null` token finds a user holding no pending token, and finds nobody only when every user holds one; a text finds a user within the table |
| AuthController.FindByPendingToken | backend/app/Controllers/Http/AuthController.ts:123 | only a token text finds a user, and that user holds exactly that token; finding nobody means no user holds it |
| AuthController.CompleteVerification | backend/app/Controllers/Http/AuthController.ts:125-160 | the reply, the issued claims and the new table are those of the verification of the row found, and the table stays valid |
| AuthController.VerifyEmailAsWritten | backend/app/Controllers/Http/AuthController.ts:118-161 | the outcome is the verification of the row that the as-written lookup finds for the received token; the table stays valid |
| AuthController.NullTokenSelectsVerifiedUser | backend/app/Controllers/Http/AuthController.ts:119-153 | as written, a `null` or empty token reaches the first user holding no pending token: within 24 h of that user's creation the user's password becomes the request's and a JWT for that user is issued; later the reply is TOKEN_EXPIRED |
| AuthController.VerifyEmail | backend/app/Controllers/Http/AuthController.ts:118-161 | the outcome is the verification of the row that holds the received token text, and no row for any other token; the table stays valid |
| AuthController.VerifyEmailMeans | backend/app/Controllers/Http/AuthController.ts:118-161 | an absent, `null`, empty or unknown token is INVALID_TOKEN with nothing changed; a user older than 24 h gets TOKEN_EXPIRED and is unchanged; otherwise exactly the holder becomes verified, takes the password, is issued a JWT, and no user holds the token afterwards |
| AuthController.TokenHeldOnce | backend/app/Controllers/Http/AuthController.ts:136-140 | with pending tokens distinct, clearing the token at its one holder leaves no holder, so a token works once |
| Accounts.FindUser | backend/app/Middleware/Auth.ts:23 | a found user is in the table with that id; none found means no row has it |
| Accounts.UserTable.constructor | backend/app/Controllers/Http/AuthController.ts:38-45 | an empty table is valid |
| Accounts.UserTable.Create | backend/app/Controllers/Http/AuthController.ts:38-45 | the new unverified user is appended with the next id, keeping ids, e-mails and tokens distinct |
| Accounts.UserTable.SaveVerified | backend/app/Controllers/Http/AuthController.ts:136-140 | the saved row replaces the user's row and the table stays valid |
| Calendar.Weekday | backend/app/Controllers/Http/RecruitersController.ts:195 | luxon's weekday is between 1 and 7 |
| Calendar.WeekdayNext | backend/app/Controllers/Http/RecruitersController.ts:193-200 | each next day advances the weekday by one, Sunday wrapping to Monday |
| Calendar.NthBusinessDayCounts | backend/app/Controllers/Http/RecruitersController.ts:193-201 | the n-th business day from a start day is a business day on or after it with exactly n - 1 business days before it |
| Calendar.NthBusinessDayUnique | backend/app/Controllers/Http/RecruitersController.ts:193-201 | a business day with n - 1 business days before it, counted from the start day, is the n-th business day |
| Calendar.CivilOrderIsDayOrder | frontend/src/components/candidate/PersonalInfo.tsx:71-74 | on real calendar dates, one date is earlier exactly when its day number is smaller, so comparing `Date` values compares dates |
| CandidateModel.MaxCode | backend/app/Models/Candidate.ts:82 | the result is the code of some row and no row has a larger code |
| CandidateModel.NextCodeIsFresh | backend/app/Models/Candidate.ts:80-84 | the first code is 1, a later code is one more than an existing one, and a new code is larger than every existing code |
| CandidateModel.RemoveAtIsFilterById | backend/app/Controllers/Http/CandidatesController.ts:355-359 | with ids distinct, deleting the row with that id is the same as keeping every row with another id |
| CandidateModel.CandidateTable.constructor | backend/app/Models/Candidate.ts:80-84 | an empty table is valid and education ids start at 1 |
| CandidateModel.CandidateTable.GenerateCode | backend/app/Models/Candidate.ts:80-84 | the hook stamps the next code: 1 on an empty table, larger than every existing code otherwise |
| CandidateModel.CandidateTable.Create | backend/app/Models/Candidate.ts:80-84 | the new candidate is appended with the next id and next code, unselected and unnotified; codes keep increasing in creation order |
| CandidateModel.CandidateTable.Save | backend/app/Controllers/Http/CandidatesController.ts:162-163 | the saved row replaces the candidate's row and nothing else changes |
| CandidateModel.CandidateTable.CreateEducation | backend/app/Controllers/Http/CandidatesController.ts:208-212 | a new education with a fresh id is appended for the candidate |
| CandidateModel.CandidateTable.DeleteEducation | backend/app/Controllers/Http/CandidatesController.ts:359 | exactly the row at that position is removed, the others keep their order |
| CandidatesController.ThreeDayInterviewDateProperties | backend/app/Controllers/Http/CandidatesController.ts:262-272 | the date is the first business day on or after three days from now, at 14:00:00.000, and later than now |
| CandidatesController.SchedulingRulesDisagree | backend/app/Controllers/Http/CandidatesController.ts:262-272 | on a Wednesday at 09:00 this rule gives Monday while the routed rule gives Friday |
| CandidatesController.SelectForInterview | backend/app/Controllers/Http/CandidatesController.ts:249-306 | an unknown id is 500; an already selected candidate is 400 and unchanged; otherwise it is saved selected, unnotified, with the three-day date, which is returned |
| CandidatesController.MergeRequestWins | backend/app/Controllers/Http/CandidatesController.ts:149-159 | every truthy field of the request is the stored value afterwards |
| CandidatesController.MergeNeverErases | backend/app/Controllers/Http/CandidatesController.ts:149-159 | a filled-in field stays filled in; birth date, phone and zip code keep the stored value when not sent; the address fields are never null afterwards |
| CandidatesController.MergeIdempotent | backend/app/Controllers/Http/CandidatesController.ts:149-162 | applying the same update twice stores the same profile as once |
| CandidatesController.Update | backend/app/Controllers/Http/CandidatesController.ts:131-191 | a caller without a candidate, or a given birth date that `DateTime.fromISO` cannot read, gets 400 and nothing changes; otherwise exactly the caller's candidate gets the merged profile |
| CandidatesController.UpdateRefusesImpossibleDates | backend/app/Controllers/Http/CandidatesController.ts:150-163 | on `yyyy-MM-dd` text the update refuses exactly the text that names no calendar date; `2023-02-31` is refused |
| CandidatesController.AddEducation | backend/app/Controllers/Http/CandidatesController.ts:194-224 | no candidate or a missing field creates nothing, with the matching 400; otherwise one education with a fresh id is appended for the caller's candidate and returned with 201 |
| CandidatesController.RemoveEducation | backend/app/Controllers/Http/CandidatesController.ts:349-367 | the reply is 200 iff an education with that id belongs to the caller's candidate; then exactly that row is gone and the rest keep their order; otherwise 400 and nothing is deleted |
| CandidatesController.Store | backend/app/Controllers/Http/CandidatesController.ts:370-409 | a user who owns a candidate gets 409 and nothing is created; otherwise one candidate is appended, and afterwards it is the only one the user owns |
| RecruitersController.FormatPhoneNumberCases | backend/app/Controllers/Http/RecruitersController.ts:8-26 | falsy gives `Não informado`; 11 digits give `(AB) CDEFG-HIJK` and 10 digits give `(AB) CDEF-GHIJ`, each keeping exactly the digits given; any other count returns the input unchanged |
| RecruitersController.FormatPhoneNumberIdempotent | backend/app/Controllers/Http/RecruitersController.ts:8-26 | formatting an already formatted number changes nothing |
| RecruitersController.EducationViews | backend/app/Controllers/Http/RecruitersController.ts:44-49 | one view per education, in order, with its id, course name, institution name and completion date |
| RecruitersController.FormatCandidateDataFaithful | backend/app/Controllers/Http/RecruitersController.ts:28-53 | the view carries the candidate's id, code, birth date, address fields and selection state, its owner's name and e-mail, the skills as given, the stored phone after `formatPhoneNumber` (a form formatting leaves unchanged) and each education's id, course, institution and date, in order |
| RecruitersController.CalculateInterviewDate | backend/app/Controllers/Http/RecruitersController.ts:180-204 | the loop's result is the third business day counted from the start day, at 14:00 |
| RecruitersController.RoutedInterviewDateProperties | backend/app/Controllers/Http/RecruitersController.ts:180-204 | the date is a business day at 14:00:00.000, on or after the start day, with exactly three business days from the start day up to it, and later than now |
| RecruitersController.RoutedWednesdayMorning | backend/app/Controllers/Http/RecruitersController.ts:180-204 | Wednesday 09:00 gives Friday 14:00 |
| RecruitersController.RoutedFridayAfternoon | backend/app/Controllers/Http/RecruitersController.ts:180-204 | Friday 15:00 gives the next Wednesday 14:00 |
| RecruitersController.ReplyAfterMailLoaded | backend/app/Controllers/Http/RecruitersController.ts:167-171 | with skills and educations loaded the reply reports the same candidate, selected, with its interview date |
| RecruitersController.ReplyAfterMailUnloaded | backend/app/Controllers/Http/RecruitersController.ts:132-135 | with only `user` preloaded, the reply after a stored selection and a delivered mail is the generic 400 |
| RecruitersController.SelectForInterviewAsWritten | backend/app/Controllers/Http/RecruitersController.ts:130-178 | with only `user` preloaded no request is answered with the selected candidate: a new selection is stored and, with its mail delivered, answered with the generic 400 |
| RecruitersController.SelectForInterview | backend/app/Controllers/Http/RecruitersController.ts:130-178 | an unknown id or an already selected candidate changes nothing; otherwise the selection with the routed date is saved before the mail; the mail goes to the owner; a mail failure or a missing owner is 400 with the selection kept |
| CandidateValidator.ParseIsoDate | backend/app/Validators/CandidateValidator.ts:15 | a parsed date has the `yyyy-MM-dd` shape, is a real calendar date, and its fields are the digits at those places |
| CandidateValidator.DateBeforeTodayMeans | backend/app/Validators/CandidateValidator.ts:15-18 | an accepted date is a real date whose day number is smaller than today's |
| CandidateValidator.ParseIsoDateChecksTheCalendar | backend/app/Validators/CandidateValidator.ts:15 | `2023-02-29` and `2023-02-31` have the right shape but are refused; `2024-02-29` is accepted |
| CandidateValidator.AcceptedMeans | backend/app/Validators/CandidateValidator.ts:4-72 | an accepted request has a name of 3 to 100 characters, a phone with exactly 11 digits, an 8-digit zip code, a state of 1 or 2 characters, and birth and completion dates before today |
| CandidateValidator.MobilePhoneDigits | backend/app/Validators/CandidateValidator.ts:19-22 | a phone matching the mobile pattern carries exactly 11 digits |
| PersonalInfo.FormatPhone | frontend/src/components/candidate/PersonalInfo.tsx:23-32 | the masked phone has at most 15 characters, the field's maxLength |
| PersonalInfo.UnformatPhone | frontend/src/components/candidate/PersonalInfo.tsx:35-37 | the result is digits only |
| PersonalInfo.FormatPhoneKeepsDigits | frontend/src/components/candidate/PersonalInfo.tsx:23-37 | unmasking the masked phone gives the first min(11, n) digits typed |
| PersonalInfo.FormatPhoneIdempotent | frontend/src/components/candidate/PersonalInfo.tsx:23-32 | masking a masked phone changes nothing |
| PersonalInfo.FormatPhoneMobileIff | frontend/src/components/candidate/PersonalInfo.tsx:29-31 | the mask matches the backend's mobile pattern iff at least 11 digits were typed |
| PersonalInfo.FormatDateRoundTrip | frontend/src/components/candidate/PersonalInfo.tsx:40-51 | an ISO date is shown as a well-formed `DD/MM/YYYY` and converts back to the same ISO text |
| PersonalInfo.ConvertToISODateRoundTrip | frontend/src/components/candidate/PersonalInfo.tsx:40-57 | a well-formed `DD/MM/YYYY` converts to ISO text that is shown again as typed |
| PersonalInfo.ConvertersKeepEmpty | frontend/src/components/candidate/PersonalInfo.tsx:40-51 | both converters return '' exactly on '' |
| PersonalInfo.FormatDateWhileTyping | frontend/src/components/candidate/PersonalInfo.tsx:78-90 | the masked date has at most 10 characters |
| PersonalInfo.DateMaskKeepsDigits | frontend/src/components/candidate/PersonalInfo.tsx:78-90 | the masked date holds exactly the first min(8, n) digits typed |
| PersonalInfo.FormatDateWhileTypingIdempotent | frontend/src/components/candidate/Education.tsx:74-86 | retyping a masked date changes nothing |
| PersonalInfo.FormatDateWhileTypingValidIff | frontend/src/components/candidate/PersonalInfo.tsx:54-90 | the masked date passes `isValidDateFormat` iff at least 8 digits were typed |
| PersonalInfo.IsNotFutureDateMeans | frontend/src/components/candidate/PersonalInfo.tsx:68-75 | on a real date from year 100 on, the check passes iff the date is not after today |
| PersonalInfo.MalformedIsNotFuture | frontend/src/components/candidate/PersonalInfo.tsx:69 | text failing `isValidDate` passes the check |
| PersonalInfo.RolloverExample | frontend/src/components/candidate/PersonalInfo.tsx:60-75 | `31/02/2023` passes `isValidDate` and counts as 3 March 2023 |
| PersonalInfo.TodayPassesHereNotInTheSchema | frontend/src/components/candidate/PersonalInfo.tsx:68-75 | today's date passes the form's check but not the schema's `before('today')` |
| PersonalInfo.RolloverRefusedOnUpdate | frontend/src/components/candidate/PersonalInfo.tsx:115-125 | `31/02/2023` entered on 3 March 2023 passes the form and is sent as `2023-02-31`, whose save the profile update refuses |
| PersonalInfo.UpdateRequest | frontend/src/components/candidate/PersonalInfo.tsx:115-125 | a request is built iff the date field is non-empty, and its phone is digits only |
| PersonalInfo.SavedProfile | frontend/src/components/candidate/PersonalInfo.tsx:131-135 | the entry gets the saved birth date and phone and keeps its other fields; an entry never fetched keeps nothing else |
| PersonalInfo.PersonalInfoForm.constructor | frontend/src/components/candidate/PersonalInfo.tsx:15-20 | the form starts empty with an `info` notice |
| PersonalInfo.PersonalInfoForm.Load | frontend/src/components/candidate/PersonalInfo.tsx:93-111 | the form shows the stored birth date as `DD/MM/YYYY` and the stored phone masked, or '' for a falsy value |
| PersonalInfo.PersonalInfoForm.TypeBirthDate | frontend/src/components/candidate/PersonalInfo.tsx:189-192 | the field holds the masked input, at most 10 characters |
| PersonalInfo.PersonalInfoForm.TypePhone | frontend/src/components/candidate/PersonalInfo.tsx:209-212 | the field holds the masked input, at most 15 characters |
| PersonalInfo.PersonalInfoForm.Submit | frontend/src/components/candidate/PersonalInfo.tsx:165-178 | a malformed date shows `Data inválida`, a future date the future-date notice, both sending nothing; otherwise the ISO date and the phone digits are sent |
| PersonalInfo.PersonalInfoForm.OnUpdateSuccess | frontend/src/components/candidate/PersonalInfo.tsx:129-139 | the cache entry takes the saved values and a success notice shows |
| PersonalInfo.PersonalInfoForm.OnUpdateError | frontend/src/components/candidate/PersonalInfo.tsx:140-144 | the notice is the server's message when truthy, the default text otherwise |
| PersonalInfo.SentUpdateIsWellFormed | frontend/src/components/candidate/PersonalInfo.tsx:115-125 | a sent update carries ISO text that shows again as typed, and at most 11 phone digits from the mask |
| ProfileCache.QueryClient.constructor | frontend/src/components/candidate/PersonalInfo.tsx:14 | the client holds the given profile entry |
| EducationComponent.WithAddedEducation | frontend/src/components/candidate/Education.tsx:101-104 | the updater throws iff the entry or its educations is missing; otherwise the list gains the returned education at its end and all else is unchanged |
| EducationComponent.WithoutEducation | frontend/src/components/candidate/Education.tsx:118-121 | the updater throws iff the entry or its educations is missing; otherwise only the educations change |
| EducationComponent.WithoutEducationDropsExactlyThatId | frontend/src/components/candidate/Education.tsx:120 | after a remove no education has that id, every other one is kept, and the order is kept |
| EducationComponent.RemoveUndoesAdd | frontend/src/components/candidate/Education.tsx:99-121 | removing a just-added education whose id no cached one had restores the entry |
| EducationComponent.EducationForm.constructor | frontend/src/components/candidate/Education.tsx:22-27 | the form starts hidden with empty fields |
| EducationComponent.EducationForm.ToggleForm | frontend/src/components/candidate/Education.tsx:136 | the button flips the form's visibility |
| EducationComponent.EducationForm.TypeCourseName | frontend/src/components/candidate/Education.tsx:179 | the course holds the text as typed and the other fields are unchanged |
| EducationComponent.EducationForm.TypeInstitutionName | frontend/src/components/candidate/Education.tsx:194 | the institution holds the text as typed and the other fields are unchanged |
| EducationComponent.EducationForm.TypeCompletionDate | frontend/src/components/candidate/Education.tsx:209-212 | the date holds the input through the typing mask, at most 10 characters, and the other fields are unchanged |
| EducationComponent.EducationForm.Submit | frontend/src/components/candidate/Education.tsx:157-167 | a malformed date alerts `Data inválida`, a future date the future-date alert, both sending nothing; otherwise the request with the ISO date is sent, and that date shows again as typed |
| EducationComponent.EducationForm.OnAddSuccess | frontend/src/components/candidate/Education.tsx:99-107 | when the updater throws nothing changes; otherwise the entry gains the education and the form is hidden and cleared |
| EducationComponent.OnRemoveSuccess | frontend/src/components/candidate/Education.tsx:116-122 | when the updater throws nothing changes; otherwise the entry loses the educations with that id |
| CandidatesList.NormaliseAll | frontend/src/pages/manager/CandidatesList.tsx:41-44 | one entry per fetched candidate, in order, with its id, code, name, e-mail, skills and interview date kept and `selectedForInterview` true iff the server sent true |
| CandidatesList.FilterCandidatesIff | frontend/src/pages/manager/CandidatesList.tsx:49-53 | a candidate is shown iff it is in the list and the lower-cased term occurs in its lower-cased name, e-mail or some skill; the shown list is an order-preserving subsequence |
| CandidatesList.EmptyTermShowsAll | frontend/src/pages/manager/CandidatesList.tsx:49-53 | the empty term shows every candidate |
| CandidatesList.CaseDoesNotMatter | frontend/src/pages/manager/CandidatesList.tsx:50-52 | terms that differ only in letter case show the same candidates |
| CandidatesList.LowerCasedTermSameSearch | frontend/src/pages/manager/CandidatesList.tsx:50-52 | searching for the lower-cased term is the same search |
| CandidateCard.MarkSelected | frontend/src/components/manager/CandidateCard.tsx:58-70 | a missing or non-array entry is returned unchanged; otherwise the list keeps its length, entries with the id become selected with the returned date, the others are identical |
| CandidateCard.MarkSelectedIdempotent | frontend/src/components/manager/CandidateCard.tsx:58-70 | marking twice equals marking once, and every entry with the id shows as selected |
| CandidateCard.CandidatesCache.constructor | frontend/src/components/manager/CandidateCard.tsx:40 | the client holds the given list entry |
| CandidateCard.Card.constructor | frontend/src/components/manager/CandidateCard.tsx:41-44 | a card starts idle, without error, modal closed |
| CandidateCard.Card.HandleSelect | frontend/src/components/manager/CandidateCard.tsx:46-48 | the confirmation modal opens |
| CandidateCard.Card.ConfirmSelection | frontend/src/components/manager/CandidateCard.tsx:50-84 | on a 2xx reply the cache is marked, the card's candidate is selected with the reply's top-level `interviewDate` (none when the body has none), the modal closes and the button is disabled; on failure the error is the reply's message or the default; never selecting afterwards |
| CandidateCard.SelectRouteReplyAsRead | frontend/src/components/manager/CandidateCard.tsx:55-74 | a reply of the recruiter select route read as the card reads it: with only `user` preloaded, the route's generic error; with the relations loaded, a success with no date, since the 200 body `{message, candidate}` has no top-level `interviewDate`; reading `response.data.candidate.interviewDate` instead gives back the stored date |
| CandidateCard.SkillSummaryCases | frontend/src/components/manager/CandidateCard.tsx:174-175 | at most three skills are all listed; with more, exactly the first three joined by `, ` and then `...` |

## Left out

- Persistence: Lucid queries, pagination and `preload` are replaced by
  sequences in memory whose row `i` has id `i + 1`.
- Search and listing: the SQL search of CandidatesController `index`/`search`
  and RecruitersController `listCandidates`/`showCandidate` are not modelled.
- Skills: skill attach and detach, and the schema fact that a
  `(candidate_id, skill_id)` pair is unique, are not modelled.
- Dead routes: logout's handler (it only answers) and the routes to the
  methods `updateEducation` and `getSkills`, which do not exist in the
  controller, are not modelled.
- backend/app/Models/User.ts is not part of this model. The user record holds
  the fields the controllers use.
- Cryptography and identifiers: `jwt.sign`/`jwt.verify`, `Hash.verify` and
  `uuidv4` are opaque.
- Register (AuthController): requires that the drawn verification token is
  held by no user, as a uuid is in practice.
- Register (AuthController): an e-mail sent as JSON `null` is not told apart
  from an absent one, because the users migration is not part of this model
  and it alone decides whether such a row could be stored.
- Time zones, DST and locale formatting (`toISO`, `toFormat`,
  `toLocaleDateString`) are not modelled. The day of
  `new Date(birth_date).toISOString()` is an input to `PersonalInfoForm.Load`.
- The education list's display `formatDate` (Education.tsx:30-40) is display
  only and not modelled.
- Text: `toLowerCase` is modelled on ASCII letters only. Trimming removes the
  ASCII and Latin-1 white space.
- E-mail syntax, `unique` and `exists` in the validator are parameters
  (a predicate and two sets). The error messages of the schema are not
  modelled.
- Mail and I/O: mail delivery is a success flag; SMTP, logging and `console`
  are not modelled.
- Concurrency: two inserts racing in the `generateCode` hook are not modelled.
- ConfirmSelection: the card also changes its `candidate` prop in place
  (CandidateCard.tsx:73-74). That object is the one the list page's
  `['candidates', term]` data holds, so until the refetch the list sees the
  change through it. The model updates the card's own copy and does not
  capture this aliasing.
- Cache keys: the list page caches under `['candidates', term]` while the card
  writes `['candidates']`; the model treats the card's entry on its own, and
  the follow-up `invalidateQueries` refetch is not modelled.
- Update: an accepted birth date is stored as the request's text. The date
  column holds the day luxon read, which reads back as the same text when the
  request used the `yyyy-MM-dd` form the frontend sends. `DateTime.fromISO`
  itself is a parameter.
- Store: the request's birth date text goes straight into the date column.
  Whether the database refuses text that is not a date depends on
  `DB_CONNECTION` (config/database.ts:23), so the model stores the text and
  answers 201.
- AddEducation: the same holds for `completion_date`; the model stores the
  text and answers 201.
- FindByTokenAsWritten: the row that an `IS NULL` query returns first is up
  to the database; the model takes the first in id order.
- Received: config/bodyparser.ts is not part of this model; the framework's
  default, which turns an empty string into `null`, is assumed.
- AuthMiddleware.Handle: the outer AUTH_ERROR `catch` is unreachable here,
  because every step that can throw sits inside the inner `try`.
- React rendering, modals, navigation and the ViaCEP lookup are not
  modelled.

## Findings

| source | as written | input that shows it | evidently intended | confidence | as-written member | corrected member |
|---|---|---|---|---|---|---|
| backend/app/Controllers/Http/AuthController.ts:119-123 | `request.only` keeps a JSON `null` token, and the body parser turns `""` into `null`; `findByOrFail('verificationToken', null)` then queries `verification_token IS NULL`, which finds a user whose verification already cleared the token (line 138); within 24 h of that user's creation lines 136-153 set that user's password to the request's and return a JWT for that user | `{"token": null, "password": "p"}` while the first user holding no pending token was created less than 24 hours ago | refuse an absent, `null` or empty token with INVALID_TOKEN | medium, not executed | AuthController.NullTokenSelectsVerifiedUser | AuthController.VerifyEmailMeans |
| backend/app/Controllers/Http/RecruitersController.ts:132-135 | the query preloads only `user`, so `formatCandidateData` reads the unloaded `skills` and `educations` (lines 43-44) and throws after the selection is saved and the mail sent; the outer `catch` answers 400 `Erro ao selecionar candidato para entrevista` | any candidate not yet selected, with the mail delivered | preload `skills` and `educations` too and answer 200 with the formatted candidate | medium, not executed | RecruitersController.SelectForInterviewAsWritten | RecruitersController.ReplyAfterMailLoaded |
| frontend/src/components/manager/CandidateCard.tsx:55 | the card posts to `/candidates/${id}/interview`, a path that backend/start/routes.ts does not declare, so the selection request never reaches a handler and the card always shows an error | selecting any candidate from the manager's list | post to `/candidates/${id}/select`, which reaches `RecruitersController.selectForInterview` for managers (Routes.SelectOnlyForManagers), and read the date from `response.data.candidate.interviewDate`, with the preload of the previous row fixed too; the top-level `response.data.interviewDate` exists only in the reply of `CandidatesController.selectForInterview`, which no route serves | high, not executed | Routes.CardPathUnrouted | CandidateCard.SelectRouteReplyAsRead |
