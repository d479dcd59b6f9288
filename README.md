# rbrank-frontend core, modelled in Dafny

rbrank-frontend is the React client of a programming competition. Students
register with their academic ID (RA), solve problems, and send solutions.
Teachers log in to manage problems and grade submissions. The platform
opens only during fixed hours.

This project models the parts of the client that hold state or logic. It
does not model the rendering.

- **Cooldown lock.** `ProblemsPage.CooldownLock` is the anti-cheat lock of
  the problems page. Four global listeners trigger it: paste, Ctrl/Meta+V,
  the page becoming hidden, and window blur. While it counts down, it hides
  the solution form and disables the "Resolver" buttons.
  `ProblemsPage.ProblemsPage` holds the page state, including the inline
  solution submit.
- **Session store.** `AuthContext.AuthProvider` keeps the signed-in teacher
  in memory. It persists the teacher in `localStorage` under `professor`
  and `professorToken`. `WebStorage.LocalStorage` is the storage, a map
  field that the classes share.
- **HTTP gateway.** `Api.ApiClient` holds the request interceptor and the
  `token` write of `loginProfessor`. `Api.Outcome` states how each method
  of `apiService` unwraps the response body.
- **Availability gate.** `PlatformStatus.PlatformStatus` runs the status
  check and the `HH:MM:SS` countdown to the next opening. It also decides
  between the application and the "unavailable" screen.
- **Student sign-up.** `StudentRegister.StudentRegister` holds the form,
  the registration request, and the RA check.
- **Solution form.** `ProblemSubmitter.ProblemSubmitter` is the standalone
  solution form, with its guard against blank input.
- **Cross-file scenarios.** `Scenarios` models the teacher login sequence
  over the storage shared by the gateway and the session store.

Several JavaScript semantics are written out in `Js`:
- truthiness, and `||` as distinct from `??`;
- `String.prototype.trim` over the ECMAScript white-space set;
- `Number.prototype.toString`, `padStart` and `parseInt`.

`JsonText` is a JSON writer and reader for flat objects of string members.
It serves `JSON.stringify` and `JSON.parse` in the session store, and its
round trip is proved.

Each API call is given as a parameter: the way the server's answer
settles, `Fulfilled(value)` or `Rejected(reason)`. A rejection reason
carries an optional body with `message` and `error`. Each component logs
the `Api.Endpoint` values it calls in a `calls` field. Timers are explicit
method calls. Clock readings are given as a millisecond difference.

The proved consequences include some that a reader of the code might not
expect:
- The RA is checked only after `cadastrarAluno` succeeded
  (`StudentRegister.RaCheckedAfterRegistration`). A student with an RA the
  client refuses is therefore already registered on the server.
- `logout` removes `professor` and `professorToken`. The gateway's token
  lives under a different key, `token`, so after logout every request
  still carries `Authorization: Bearer …`
  (`Scenarios.BearerSurvivesLogout`).
- `login` with a teacher that has no token keeps an earlier
  `professorToken`. A restart then restores the new teacher with the old
  token (`AuthContext.LoginWithoutTokenRestoresOldToken`).
- The standalone form reports failures with `??`. A server `error` that is
  an empty string therefore leaves the alert hidden
  (`ProblemSubmitter.EmptyServerErrorIsSilent`). The other forms use `||`
  and fall back to their default text.

## Model

| member | source | states |
|---|---|---|
| ProblemsPage.TriggerAndTickKeepConsistent | src/pages/ProblemsPage.tsx:20-35 | Trigger and tick keep the lock consistent: it is locked exactly while an interval is pending, and an idle lock shows zero seconds |
| ProblemsPage.TriggerRule | src/pages/ProblemsPage.tsx:20-25 | Triggering a locked lock changes nothing, so the seconds are neither reset nor extended. Triggering an idle lock locks it for exactly the requested seconds, with one interval pending |
| ProblemsPage.Countdown | src/pages/ProblemsPage.tsx:20-35 | From a fresh lock of N ≥ 1 seconds, k < N ticks leave N−k seconds, still locked. The N-th tick unlocks, sets 0 and leaves no timer pending |
| ProblemsPage.IdleStaysIdle | src/pages/ProblemsPage.tsx:25-34 | Any number of ticks leaves an idle lock idle, because no interval fires |
| ProblemsPage.FourChannelsOneLock | src/pages/ProblemsPage.tsx:76-95 | Paste, `v` or `V` with Ctrl, Meta or both, the page becoming hidden and window blur each take an idle lock to the same ten-second lock. Other keys, `v` without a modifier and the page becoming visible change nothing. Only paste and the shortcut suppress the default action |
| ProblemsPage.NoStacking | src/pages/ProblemsPage.tsx:20-21 | No sequence of events changes a running lock |
| ProblemsPage.LockGatesForm | src/pages/ProblemsPage.tsx:160-244 | During the countdown the form is hidden and "Resolver" is disabled. After the last tick the form shows exactly when `showSolution && selectedProblem`, and "Resolver" is disabled exactly when `showSolution` |
| ProblemsPage.CooldownLock.constructor | src/pages/ProblemsPage.tsx:15-18 | The hook starts unlocked, at 0 seconds, with no timer and no live interval |
| ProblemsPage.CooldownLock.Trigger | src/pages/ProblemsPage.tsx:20-25 | The new state is `Triggered` of the old one. A locked lock keeps its interval and timer. An idle lock starts exactly one interval and stores its id in the timer ref |
| ProblemsPage.CooldownLock.Tick | src/pages/ProblemsPage.tsx:25-34 | While mounted, the new state is `Ticked` of the old one. At `secondsLeft <= 1` the interval is cleared and the ref is nulled |
| ProblemsPage.CooldownLock.Unmount | src/pages/ProblemsPage.tsx:38-42 | Cleanup leaves no live interval, whatever the lock state |
| ProblemsPage.ProblemsPage.constructor | src/pages/ProblemsPage.tsx:48-57 | The initial page state: loading, the starter code, an empty RA, and an idle ten-second lock |
| ProblemsPage.ProblemsPage.FetchProblemas | src/pages/ProblemsPage.tsx:63-72 | `listarProblemas` is called. Success stores the list; failure sets the load error. Loading ends either way |
| ProblemsPage.ProblemsPage.HandleEvent | src/pages/ProblemsPage.tsx:76-100 | A listener moves the lock by `AfterEvent` and prevents the default exactly on paste and the shortcut |
| ProblemsPage.ProblemsPage.ClickResolver | src/pages/ProblemsPage.tsx:238-244 | An enabled button selects the problem, opens the form and clears the error. A disabled one changes nothing |
| ProblemsPage.ProblemsPage.EditRa | src/pages/ProblemsPage.tsx:167 | The RA input sets `ra` |
| ProblemsPage.ProblemsPage.EditCode | src/pages/ProblemsPage.tsx:178 | The editor sets the code, or "" when it reports no value |
| ProblemsPage.ProblemsPage.SubmitSolution | src/pages/ProblemsPage.tsx:188-206 | An empty RA sets the RA error and makes no call. Otherwise `criarSubmissao` is called. Success sets the message, closes the form, clears the selection and RA and resets the code. Failure shows the server message or the default |
| ProblemsPage.ProblemsPage.Unmount | src/pages/ProblemsPage.tsx:38-42 | Leaving the page cancels the lock's interval |
| AuthContext.AuthProvider.constructor | src/contexts/AuthContext.tsx:25-26 | The provider starts with no teacher |
| AuthContext.AuthProvider.Restore | src/contexts/AuthContext.tsx:28-43 | If either key is missing or empty, nothing changes. A blob that parses gives the parsed `_id`/`nome` with the stored token. A blob that does not parse removes both keys and leaves the teacher as it was |
| AuthContext.AuthProvider.Login | src/contexts/AuthContext.tsx:45-54 | Sets the teacher, so `isAuthenticated` becomes true. The storage becomes `LoginItems` |
| AuthContext.AuthProvider.Logout | src/contexts/AuthContext.tsx:56-60 | Clears the teacher, so `isAuthenticated` becomes false. The storage becomes `LogoutItems` |
| AuthContext.BlobHoldsIdentityOnly | src/contexts/AuthContext.tsx:47-50 | The stored blob parses back to exactly `_id` and `nome`, and has no `token` |
| AuthContext.LoginWrites | src/contexts/AuthContext.tsx:45-54 | `login` writes the blob. It writes `professorToken` only for a truthy token, and otherwise keeps the previous value. No other key changes |
| AuthContext.LogoutClears | src/contexts/AuthContext.tsx:56-60 | Neither key remains and no other key changes. A second logout changes nothing, and a restart then restores nothing |
| AuthContext.LoginThenRestore | src/contexts/AuthContext.tsx:30-53 | Login with a truthy token followed by restore yields the same `_id`, `nome` and token |
| AuthContext.LoginWithoutTokenRestoresOldToken | src/contexts/AuthContext.tsx:30-53 | Login without a token, followed by restore, yields the new teacher with the token already stored |
| AuthContext.CorruptRestoreClears | src/contexts/AuthContext.tsx:37-41 | A corrupt restore means the blob exists and does not parse. After the clean-up, nothing is restored |
| AuthContext.RestoreNeedsBothKeys | src/contexts/AuthContext.tsx:33 | Restore acts if and only if both keys hold non-empty strings |
| Api.LastMember | src/services/api.ts:113-126 | Reading a member never throws. It is defined if and only if some member has the key |
| Api.LastMemberIsLast | src/services/api.ts:113-126 | A defined member read has the value of the last member with the key |
| Api.ApiClient.constructor | src/services/api.ts:6-11 | The client is bound to the shared storage and has sent nothing |
| Api.ApiClient.Intercept | src/services/api.ts:13-19 | The headers are `Intercepted(DefaultHeaders, storage)` |
| Api.ApiClient.Call | src/services/api.ts:21-127 | One request is sent with the intercepted headers. The promise settles as `Outcome`, and storage becomes `AfterReply` |
| Api.InterceptorBearer | src/services/api.ts:13-19 | `Authorization` is set to `"Bearer " + token` exactly when `token` holds a non-empty string. Otherwise the headers pass through unchanged |
| Api.InterceptorReadsOnlyToken | src/services/api.ts:13-19 | Storages that agree on `token` give the same headers |
| Api.LoginTokenWrite | src/services/api.ts:59-63 | Only `loginProfessor` with a fulfilled reply writes storage, and only `token`. A truthy token is stored as `String(token)`, a non-empty string as itself. An empty string, another falsy value, a missing token or a body that is not an object writes nothing |
| Api.SubmissionUnwrap | src/services/api.ts:111-127 | For every body: create and evaluate resolve to `data.submission`, and list to `data.submissions`. When that member is null or undefined, including for a bare array body, they resolve to `data`; falsy values are kept. A null body rejects, because reading the member throws |
| Api.OtherUnwraps | src/services/api.ts:22-109 | `cadastrarAluno` resolves to `data.aluno`, and `criarProblema` and `atualizarProblema` to `data.problema`. `deletarProblema` resolves to undefined. All other methods resolve to `data` |
| Api.RejectionPropagates | src/services/api.ts:21-127 | A rejected request rejects every method with the same reason and writes nothing |
| PlatformStatus.SplitBounds | src/components/PlatformStatus.tsx:43-45 | For d > 0, hours ≥ 0, and minutes and seconds each lie in 0..59. The parts rebuild d to within one second |
| PlatformStatus.MinuteRemainder | src/components/PlatformStatus.tsx:44-45 | Taking whole hours off d leaves its remainder modulo a minute unchanged |
| PlatformStatus.Pad2Reads | src/components/PlatformStatus.tsx:47 | The padded field is decimal digits that read back as the number. It is two digits below 100 and the full numeral from 100 up, never truncated |
| PlatformStatus.CountdownText | src/components/PlatformStatus.tsx:42-47 | For d > 0 there is no reload. The text is three colon-separated digit fields that read back as hours, minutes and seconds; minutes and seconds are exactly two wide |
| PlatformStatus.CountdownAtZero | src/components/PlatformStatus.tsx:42-52 | A difference that is not positive, or is NaN, shows 00:00:00 and reloads. A difference of 0 < d < 1000 shows 00:00:00 without reloading |
| PlatformStatus.ScreenFor | src/components/PlatformStatus.tsx:61-105 | The application is shown if and only if loading is over and the status says available. A missing status shows the unavailable screen |
| PlatformStatus.PlatformStatus.constructor | src/components/PlatformStatus.tsx:12-14 | No status, an empty countdown, and loading |
| PlatformStatus.PlatformStatus.UpdateCountdown | src/components/PlatformStatus.tsx:37-53 | The countdown text and reload flag follow `UpdateFor(difference)` |
| PlatformStatus.PlatformStatus.CheckStatus | src/components/PlatformStatus.tsx:16-59 | `getStatus` is called and loading ends either way. Failure keeps the previous status and countdown. Success stores the status, and the countdown runs exactly when the status is closed and names the next opening |
| PlatformStatus.PlatformStatus.CountdownTick | src/components/PlatformStatus.tsx:55-56 | Each second of a running countdown reruns `updateCountdown` |
| PlatformStatus.PlatformStatus.Unmount | src/components/PlatformStatus.tsx:58 | Cleanup stops the countdown |
| PlatformStatus.FailedFirstCheckBlocks | src/components/PlatformStatus.tsx:12-69 | A freshly mounted component whose first `getStatus` is rejected renders the unavailable screen, not the application |
| StudentRegister.RaAcceptedIff | src/pages/StudentRegister.tsx:40-47 | An RA is accepted if and only if it starts with "211" and its `length`, counted in UTF-16 code units, is at most 6 |
| StudentRegister.StartsWith211 | src/pages/StudentRegister.tsx:40-43 | The first three code units are `2`, `1`, `1` if and only if the first three characters are |
| StudentRegister.RaAcceptedPlain | src/pages/StudentRegister.tsx:40-47 | For an RA with no character above U+FFFF, it is accepted if and only if it has 3 to 6 characters and starts with "211" |
| StudentRegister.AstralCharactersCountTwice | src/pages/StudentRegister.tsx:44 | "211" followed by two emoji is refused: five characters, but seven code units |
| StudentRegister.SemestreSent | src/pages/StudentRegister.tsx:37 | Each semester 1 to 8 offered by the select is sent as its number. No choice is sent as null, which is how NaN serialises |
| StudentRegister.SubmitOutcomeMeaning | src/pages/StudentRegister.tsx:33-54 | Registration succeeds if and only if the call succeeded and the RA is accepted (starts with "211", at most six code units); it then navigates to `/aluno/` + RA. The outcome fails if and only if the call failed, with a non-empty message that is the server's when it has one |
| StudentRegister.RaCheckedAfterRegistration | src/pages/StudentRegister.tsx:33-47 | For an RA the check refuses, a successful call still ends in the RA error. A failed call reports the server's message whatever the RA |
| StudentRegister.StudentRegister.constructor | src/pages/StudentRegister.tsx:13-20 | Three empty fields, no error, no success, nothing scheduled |
| StudentRegister.StudentRegister.HandleInputChange | src/pages/StudentRegister.tsx:23-26 | Only the named field changes, and the error is cleared |
| StudentRegister.StudentRegister.HandleSubmit | src/pages/StudentRegister.tsx:28-58 | The call is always made first. The state then follows `SubmitOutcomeOf`: error text, or success plus the scheduled navigation. The confirmation shows afterwards if and only if it showed before or the submit was accepted, since `success` is never reset. Loading is false on every path |
| ProblemSubmitter.GuardIff | src/components/student/ProblemSubmitter.tsx:23 | The guard passes if and only if neither field is all white space |
| ProblemSubmitter.SubmitOutcomeMeaning | src/components/student/ProblemSubmitter.tsx:22-31 | The submit is refused exactly for blank input, and sent if and only if it passed the guard and the call succeeded. A failure shows the server `error` when present, otherwise the default |
| ProblemSubmitter.EmptyServerErrorIsSilent | src/components/student/ProblemSubmitter.tsx:30 | A server `error` of "" is kept by `??`, so the failure shows no message |
| ProblemSubmitter.ProblemSubmitter.constructor | src/components/student/ProblemSubmitter.tsx:13-18 | Bound to `problema._id`, with every field empty and not loading |
| ProblemSubmitter.ProblemSubmitter.SetRa | src/components/student/ProblemSubmitter.tsx:57 | The RA input sets `ra` |
| ProblemSubmitter.ProblemSubmitter.SetCode | src/components/student/ProblemSubmitter.tsx:61 | The code input sets `code` |
| ProblemSubmitter.ProblemSubmitter.HandleSubmit | src/components/student/ProblemSubmitter.tsx:20-34 | `ok` and `err` are cleared first. Blank input sets the input error with no call and leaves `loading` alone. Otherwise the untrimmed RA and code are sent. Success sets `ok` and clears the code; failure sets `err`. The RA is kept, loading ends, and an enabled button stays enabled |
| Scenarios.SignedInIffResolved | src/pages/TeacherLogin.tsx:39-40 | A teacher is signed in if and only if the `loginProfessor` promise resolves (a rejection propagates, a null body throws at `response.data.token`). The teacher is read from the value it resolves to |
| Scenarios.TeacherLoginSubmit | src/pages/TeacherLogin.tsx:33-48 | Storage ends as `TeacherLoginItems`. Navigation happens if and only if a teacher was signed in. A failure keeps the session and shows the server message or the default |
| Scenarios.LogoutKeepsBearer | src/contexts/AuthContext.tsx:56-60 | After logout, requests carry exactly the headers they carried before it |
| Scenarios.LoginStoresTokenTwice | src/services/api.ts:59-63 | A login whose body has a non-empty string token stores it under `token` and under `professorToken`, and a restart restores that teacher |
| Scenarios.BearerSurvivesLogout | src/contexts/AuthContext.tsx:56-60 | After login and logout, nothing is restored, but requests still carry `Bearer` with the login token |
| Scenarios.FailedLoginWritesNothing | src/pages/TeacherLogin.tsx:43-44 | A rejected login writes no key and signs nobody in |
| Js.OrElseVersusCoalesce | src/components/student/ProblemSubmitter.tsx:30 | A logical or replaces "" with the fallback and nullish coalescing keeps it. Both fall back on undefined |
| Js.TrimEmptyIff | src/components/student/ProblemSubmitter.tsx:23 | `trim()` gives "" if and only if every character is white space |
| Js.TrimStartSuffix | src/components/student/ProblemSubmitter.tsx:23 | Trimming the start drops exactly a leading run of white space: the result is a suffix of the input, and it is empty or starts with a non-space character |
| Js.TrimEndPrefix | src/components/student/ProblemSubmitter.tsx:23 | Trimming the end drops exactly a trailing run of white space: the result is a prefix of the input, and it is empty or ends with a non-space character |
| Js.CodeUnits | src/pages/StudentRegister.tsx:40-44 | A character below U+10000 is one code unit, its own value. From U+10000 it is a surrogate pair, a high surrogate in 0xD800..0xDBFF then a low one in 0xDC00..0xDFFF, which together encode the character |
| Js.Utf16Length | src/pages/StudentRegister.tsx:44 | `length` lies between the number of characters and twice it, and equals it when no character lies above U+FFFF |
| Js.Utf16Head | src/pages/StudentRegister.tsx:40-43 | For a character below the surrogates, `s[0]` is that character if and only if the first character is, and the remaining code units are those of the rest |
| Js.NatToString | src/components/PlatformStatus.tsx:47 | `toString` gives a non-empty run of decimal digits with no leading zero |
| Js.DecimalRoundTrip | src/components/PlatformStatus.tsx:47 | The decimal value of `toString(n)` is n |
| Js.PadStart | src/components/PlatformStatus.tsx:47 | `padStart` reaches the target width by filling on the left, keeps the whole string and never truncates |
| Js.ParseIntOfNumeral | src/pages/StudentRegister.tsx:37 | `parseInt` reads back every numeral `toString` writes |
| JsonText.ParseStringify | src/contexts/AuthContext.tsx:35-50 | Parsing what `JSON.stringify` writes for a flat object of strings returns the same members, whatever characters they contain |
| JsonText.ReadEscapedChar | src/contexts/AuthContext.tsx:35-36 | Every character, as `JSON.stringify` escapes it, reads back as itself, with the rest of the text untouched |
| JsonText.Lookup | src/contexts/AuthContext.tsx:35-36 | A parsed member is found if and only if it is present, and the value found belongs to a member with that key |
| JsonText.LookupFindsLast | src/contexts/AuthContext.tsx:35-36 | The value found is that of the last member with the key, so the last occurrence wins |

## Left out

- Rendering is not modelled: JSX, styling, icons and badge tables, routing, and the Monaco editor's options. A page's visible state appears only as the predicates above (`FormShown`, `ResolverDisabled`, `ScreenFor`, `ShowsConfirmation`, `SubmitEnabled`).
- Transport is not modelled: axios, the base URL, and the unused `resolverProblema`. Each call is given the way its answer settles.
- Member order in request bodies is not modelled: `Api.Body` lists the members of each request in one fixed order (for `criarSubmissao`: `challengeId`, `code`, `ra`), whatever order the calling page writes them in.
- An error response body is reduced to its `message` and `error` members as strings (`Js.ErrorBody`). A member of another type, such as `{error: 42}`, cannot be represented, although the forms would show it converted to text ("42").
- `console.error` is left out, since it has no effect on state.
- StudentRegister.StudentRegister.HandleSubmit: the contract does not state that `loading` is true while the request is in flight. Each handler is one atomic step, so only the final value is stated.
- ProblemSubmitter.ProblemSubmitter.HandleSubmit: the contract does not state that `loading` is true while the request is in flight, for the same reason.
- React scheduling is not modelled: state batching, closures captured by listeners, and the listener re-registration that `[triggerLock]` causes on every render. A `triggerLock` is assumed to see the latest `locked`, so two infractions before a re-render act as one.
- The 60-second status polling is left out. Each `CheckStatus` call is one poll.
- `new Date(...).getTime()` is left out. The countdown is given the difference `nextTime - now`, with `None` standing for NaN.
- `window.location.reload()` is a flag. The two-second `setTimeout` before navigation becomes a scheduled target.
- `JSON.parse` is modelled only for flat objects whose members are all strings. Any other text counts as unparseable, and restore then takes the corrupt path. The real `JSON.parse` accepts nested values, numbers, surrogate escapes (`\uD83D…`) and top-level non-objects.
- `parseInt` is modelled for decimal input only. A `0x` prefix and fractional or exponent forms are not covered; the select only offers "1" to "8".
- Numbers are integers. Fractional points and milliseconds that are not integers are not modelled.
- Scenarios.TeacherLoginSubmit: a fulfilled body that is a falsy primitive (`""`, `0`, `false`) signs in a teacher with no fields in the model, so `IsAuthenticated` holds. In the source `login` then stores that primitive, and `!!professor` stays false. Bodies are modelled as the teacher record they are read as, not as arbitrary JavaScript values.
- Scenarios.ProfessorOf: `_id`, `nome` and `token` members of the login body that are not strings are read as absent. The gateway still stores a truthy non-string token under `token`, as `String(value)`.
- The browser's `required` check on the registration form is not modelled. The model also accepts submits with an empty name or RA, which the browser would block.
- The teacher dashboard, ranking, home and submission-panel pages, and the `src/types/index.ts` interfaces (used here as datatypes), have no behaviour of their own to model.
