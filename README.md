# Physics II study site: a verified model of its core logic

This project models the parts of the Physics II study site (a Next.js site
with notes, formulas and access gates for a second-year physics course) that
are more than rendering, and proves properties about them. The parts are:

- **Content store and formula search.** The constant table of twenty
  chapters (ids "15" to "34") and their 65 formulas, `getChapterById`,
  `getAllFormulas` and the formula sheet's search.
  - The search is case-insensitive.
  - A blank query shows every row.
  - The search also computes the "N formula(s) found" label.
- **Login/signup page.** The form's fields and error strings as a class
  (`LoginPage.Form`). Its methods are the validators, the effects that run
  them when an input changes, the pre-network part of `handleSubmit`, the dot
  that opens and closes the form, and the CREATE/RETURN mode toggle.
  - The validators for e-mail, nickname and password are pure functions in
    `FormRules`.
  - The e-mail pattern `^[^\s@]+@[^\s@]+\.[^\s@]+$` is computed by
    `IsEmailFormat`. It is proved equal to a direct reading of the pattern.
- **Sign-up page.** `handleSignUp` runs a chain of early-return checks:
  - a Lakehead address;
  - then a nickname that is unique after lower-casing;
  - then the authentication service's sign-up;
  - then the profile insert, made into a `profiles` table that is changed in
    place (`Profiles.ProfileTable`).
- **Access gates.**
  - The `/study` middleware.
  - The site-password action, which sets or deletes the `auth_token` cookie
    in a cookie jar.
  - The station's access-code action, which sets `is_physics_unlocked` on
    the caller's profile rows.
  - The password-login API route: its status mapping, and the session cookie
    it names `sb-<projectRef>-auth-token`.
- **Sidebar.** The chapter and section tables, the per-section filter, the
  active-link test and `handleClick`.

External services are not called. Each one is an input of the model:

- the authentication service's answers;
- whether a database write fails;
- whether the cookie store throws;
- the environment variables `SITE_PASSWORD`, `PHYSICS_PASSWORD`,
  `NEXT_PUBLIC_SUPABASE_URL` and `NODE_ENV`.

Lower-casing is ASCII-only. `\s` is the ECMAScript white-space and
line-terminator set, the Unicode space separators included
(`Strings.IsSpace`). A string's `length` counts UTF-16 code units, so a
character outside the Basic Multilingual Plane counts twice
(`Strings.Utf16Length`).

Two tables are written in a different form from the source, with the same
values:

- each chapter title is written as `"Ch NN. " + topic`;
- each sidebar path is written as `"/study/chapter/" + "NN"`.

Run every `.dfy` file through `dafny verify` together. No module includes
another file.

## Model

| member | source | states |
|---|---|---|
| PhysicsData.FindChapter | data/physicsData.ts:326-328 | `find` by id: `None` exactly when no chapter has the id; otherwise the first chapter with that id, and no earlier chapter has it |
| PhysicsData.GetChapterByIdFindsEach | data/physicsData.ts:326-328 | `getChapterById` returns the chapter holding the id, and undefined when no chapter holds it |
| PhysicsData.FindChapterOwnId | data/physicsData.ts:326-328 | in a table with distinct ids, looking up a chapter's own id returns that chapter |
| PhysicsData.LookupScenario | data/physicsData.ts:25-82 | id "15" finds the Oscillations chapter; "99" finds nothing |
| PhysicsData.PhysicsTableIds | data/physicsData.ts:26-313 | the table has 20 chapters, and chapter i has id "15"+i written in decimal ("15" … "34" in order) |
| PhysicsData.NumberedIdsDistinct | data/physicsData.ts:26-313 | ids numbered consecutively in decimal are pairwise distinct |
| PhysicsData.NumberedIdsMiss | data/physicsData.ts:26-313 | an id whose decimal value is outside the numbered range matches no chapter |
| PhysicsData.PhysicsTableDistinctIds | data/physicsData.ts:26-313 | no two chapters share an id, so at most one chapter matches any id |
| PhysicsData.PhysicsTableTitles | data/physicsData.ts:27-314 | every chapter title starts with "Ch ", the chapter's id, then ". " |
| PhysicsData.ChapterRows | data/physicsData.ts:333 | one row per formula of the chapter, in order; each keeps the formula's name and LaTeX and carries the chapter's id and title |
| PhysicsData.FlattenLength | data/physicsData.ts:331-335 | the number of flattened rows is the sum of the per-chapter formula counts |
| PhysicsData.FlattenAt | data/physicsData.ts:332-333 | formula k of chapter c sits at position (formulas before c) + k: chapter order and formula order are kept |
| PhysicsData.FlattenOrigin | data/physicsData.ts:332-333 | every flattened row comes from some formula of some chapter |
| PhysicsData.FormulaCountUpTo | data/physicsData.ts:331-335 | the formula count of a prefix of the table equals the running count up to that chapter |
| PhysicsData.FormulaCountSnoc | data/physicsData.ts:331-335 | appending a chapter adds its formula count |
| PhysicsData.PhysicsTableFormulaCount | data/physicsData.ts:24-323 | the table holds 65 formulas in total |
| PhysicsData.CountIn0 | data/physicsData.ts:25-159 | chapters 15-19 hold 22 formulas |
| PhysicsData.CountIn5 | data/physicsData.ts:160-210 | chapters 15-24 hold 33 formulas |
| PhysicsData.CountIn10 | data/physicsData.ts:211-267 | chapters 15-29 hold 50 formulas |
| PhysicsData.CountIn15 | data/physicsData.ts:268-323 | chapters 15-34 hold 65 formulas |
| PhysicsData.GetAllFormulasLength | data/physicsData.ts:331-335 | `getAllFormulas()` has as many rows as the table has formulas, 65 |
| PhysicsData.SpringPeriodRowScenario | data/physicsData.ts:331-335 | the spring-period formula of chapter 15 appears among all rows, with chapter id "15" and chapter 15's title |
| FormulaSearch.FilterRowsExact | app/study/formulas/page.tsx:16-21 | the filter's rows are an order-preserving subsequence of the input; every kept row matches; each matching row is kept as often as it occurs, and no other row is kept |
| FormulaSearch.SearchBlank | app/study/formulas/page.tsx:14 | a query that is empty or white space only shows all rows, in their original order |
| FormulaSearch.SearchNonBlank | app/study/formulas/page.tsx:14-21 | any other query shows exactly the rows whose lowered name, LaTeX or chapter title contains the lowered query, as a subsequence of the rows, never more rows than the full list |
| FormulaSearch.SearchIgnoresCase | app/study/formulas/page.tsx:16-20 | a query and its lower-cased form show the same rows |
| FormulaSearch.FilterSameMatches | app/study/formulas/page.tsx:17-21 | two queries that match the same rows filter any list identically |
| FormulaSearch.LeadingSpaceIsMatched | app/study/formulas/page.tsx:14-16 | a non-blank query is matched untrimmed: " " + q never finds a row with no space in its fields |
| FormulaSearch.CountLabelPlural | app/study/formulas/page.tsx:65 | the label starts with the count and " formula", and ends in "s found" exactly when the count is not 1 |
| Strings.ToLowerIdempotent | app/study/formulas/page.tsx:16 | lower-casing twice is lower-casing once |
| Strings.TrimEmptyIff | app/study/formulas/page.tsx:14 | `trim()` gives the empty string exactly when every character is white space |
| Strings.Split | app/api/auth/login/route.ts:46 | `split` yields at least one piece; the pieces joined with the separator give the text back; no piece contains the separator; every cut is at the leftmost occurrence after the previous cut |
| Strings.SplitLeftmostExample | app/api/auth/login/route.ts:46 | "a///b" split at "//" gives "a" and "/b" |
| Strings.NatToStringInjective | components/Sidebar.tsx:16-44 | different numbers are written as different decimal strings |
| Strings.Utf16Length | app/page.tsx:103 | `length` lies between the number of characters and twice that, and equals the number of characters when none lies outside the Basic Multilingual Plane |
| FormRules.EmailFormatMatchesPattern | app/page.tsx:36-40 | the computed format test accepts exactly the strings of the regular expression: a non-empty local part, '@', a non-empty label, '.', a non-empty rest, with no white space and no second '@' |
| FormRules.EmailError | app/page.tsx:29-57 | no message exactly when the value is empty, or matches the pattern and has a suffix the mode allows ("@lakeheadu.ca" in sign-up mode; that or "@gmail.com" at login); a value off the pattern gets "Invalid email format" before any domain check; a value on the pattern with a suffix the mode refuses gets "Lakehead University email required" in sign-up mode and "Invalid email domain" at login |
| FormRules.ClearLocalNicknameError | app/page.tsx:62-68 | the functional update removes the length and character messages and keeps every other message |
| FormRules.NicknameLocalOk | app/page.tsx:60-94 | `validateNicknameLocal` returns true exactly for 2 to 10 UTF-16 code units, all characters in [A-Za-z0-9_]; the empty nickname gives false |
| FormRules.NicknameErrorAfterLocal | app/page.tsx:60-94 | an empty or acceptable nickname clears only the local messages; a length outside 2 to 10 UTF-16 code units gives the length message before any character check; a good length with a bad character gives the character message |
| FormRules.NicknameErrorAfterRemote | app/page.tsx:152-161 | "taken" sets "Nickname already in use"; "free" clears only that message and keeps any other |
| FormRules.DuplicateCheckQuery | app/page.tsx:124-150 | the duplicate query is scheduled exactly in sign-up mode for a nickname that is locally valid (length in UTF-16 code units), and asks for the lower-cased nickname |
| FormRules.TakenMessageSurvivesLocalCheck | app/page.tsx:86-92 | passing the local rules leaves "Nickname already in use" in place |
| FormRules.LocalMessagesSurviveRemoteCheck | app/page.tsx:155-160 | a "free" answer leaves the length and character messages in place |
| FormRules.PasswordError | app/page.tsx:97-109 | no message exactly for the empty password or one of at least 6 UTF-16 code units; otherwise "Password too short (min 6)" |
| FormRules.AstralCharactersCountTwice | app/page.tsx:73-83 | a character outside the Basic Multilingual Plane counts twice toward `length`: three emoji make a long enough password, one emoji passes the length rule and fails the character rule, while "a" fails the length rule |
| LoginPage.Form.constructor | app/page.tsx:11-21 | the form starts hidden in login mode, with every input and error string empty |
| LoginPage.Form.ValidateEmail | app/page.tsx:29-57 | the e-mail error field becomes the rule's message for the value in the current mode |
| LoginPage.Form.ValidateNicknameLocal | app/page.tsx:60-94 | returns whether the nickname is locally valid, and updates the field from its previous message as the rule says |
| LoginPage.Form.ValidatePassword | app/page.tsx:97-109 | the password error field becomes the rule's message |
| LoginPage.Form.EditEmail | app/page.tsx:112-114 | typing an e-mail stores it and re-validates it under the current mode; no other field changes |
| LoginPage.Form.EditNickname | app/page.tsx:117-139 | typing a nickname stores it, runs the local rules only in sign-up mode, and returns the duplicate query (if any); with no query the "checking" indicator is off |
| LoginPage.Form.SendDuplicateQuery | app/page.tsx:141-150 | when the debounced query fires, the "checking" indicator turns on and the query asks for the lower-cased nickname |
| LoginPage.Form.ReceiveDuplicateAnswer | app/page.tsx:152-163 | the server's answer updates only the "already in use" message, and the "checking" indicator ends off |
| LoginPage.Form.EditPassword | app/page.tsx:170-174 | typing a password stores it and validates it in sign-up mode or when non-empty; otherwise its error is kept |
| LoginPage.Form.EditConfirmPassword | app/page.tsx:188 | typing the confirmation only stores it |
| LoginPage.Form.Revalidate | app/page.tsx:181-185 | the e-mail and password validators run again, and the nickname validator in sign-up mode |
| LoginPage.Form.Submit | app/page.tsx:176-197 | clears the general error and re-validates; in sign-up mode a mismatched confirmation sets "Passwords do not match" and stops; the page goes on (and becomes pending) exactly when there is no mismatch and the error fields as they were before the submit are empty (the nickname one only in sign-up mode); no input changes |
| LoginPage.Form.ClickDot | app/page.tsx:275-288 | toggles the form; closing it empties the four inputs and the four error strings, and turns the "checking" indicator off when a nickname was typed (the duplicate effect sees an empty nickname); opening it changes nothing else; the mode and the pending flag never change |
| LoginPage.Form.ToggleMode | app/page.tsx:505-511 | flips the mode, empties the general error and the confirmation, keeps e-mail, password and nickname; after the effects the mode change triggers, the e-mail error is the new mode's rule, the nickname error is the local rule in sign-up mode and empty at login, the password error is the rule when in sign-up mode or non-empty and empty otherwise, and the duplicate query is the one the new mode schedules |
| LoginPage.Form.ModeEffects | app/page.tsx:112-174 | the effects that depend on the mode: the e-mail is re-validated under the mode's domain rule, and the nickname, duplicate-check and password effects run as their conditions say |
| LoginPage.SignUpNeedsLakeheadAfterToggle | app/page.tsx:112-114 | a "@gmail.com" address typed at login, then a switch to sign-up mode, keeps the page from submitting |
| SignUpPage.Decide | app/signup/page.tsx:14-70 | a non-Lakehead address stops first; then the nickname counts as in use exactly when the query answers and exactly one row has its lower-cased form (`maybeSingle`); an authentication error carries its message; a reply without a user, or a failed insert, ends with no alert; registration happens exactly for a Lakehead address, a nickname not found, a reply carrying a user and an insert that succeeds |
| SignUpPage.CallsMade | app/signup/page.tsx:21-53 | no external call for a non-Lakehead address; one call (the query) exactly when the nickname is found in use; two exactly when the sign-up fails or returns no user; all three exactly when the insert is attempted |
| SignUpPage.Page.constructor | app/signup/page.tsx:8-11 | the page starts with empty inputs, not loading |
| SignUpPage.Page.EditEmail | app/signup/page.tsx:89 | typing an e-mail stores it and changes nothing else |
| SignUpPage.Page.EditNickname | app/signup/page.tsx:101 | typing a nickname stores it and changes nothing else |
| SignUpPage.Page.EditPassword | app/signup/page.tsx:113 | typing a password stores it and changes nothing else |
| SignUpPage.Page.HandleSignUp | app/signup/page.tsx:14-70 | the outcome is the decision on the table as it was, with the query failing or not as given; the calls made are, in order, a prefix of query, sign-up, insert; only a registration appends exactly one row (id, nickname as typed, lowered nickname, e-mail); `loading` ends false on every path; nicknames stay unique when they were unique before and the query answered |
| SignUpPage.RegisteredNicknameBlocksCaseVariants | app/signup/page.tsx:28-38 | in a table with unique nicknames and a query that answers, once a nickname is registered any nickname with the same lower-cased form is refused as in use |
| SignUpPage.AliceThenAlice | app/signup/page.tsx:28-38 | with an empty table and a query that answers, after "Alice" is registered, "alice" is taken |
| SignUpPage.FailedQueryRegistersTakenNickname | app/signup/page.tsx:28-38 | when the query fails, a nickname already registered is registered again, and two rows then share its lower-cased form |
| SignUpPage.DuplicatedNicknameGoesUnseen | app/signup/page.tsx:28-38 | once two rows share a lower-cased nickname, `maybeSingle` finds none, so that nickname is never refused as in use |
| Profiles.NewProfile | app/signup/page.tsx:53-60 | the inserted row keeps id, nickname as typed and e-mail, stores the lower-cased nickname, and starts locked |
| Profiles.Unlocked | app/actions/station.ts:32-35 | the update sets the flag on every row with the id and leaves every other row as it was |
| Profiles.UnlockedNeverResets | app/actions/station.ts:34 | the update never clears a flag |
| Profiles.UnlockedIdempotent | app/actions/station.ts:32-35 | running the update twice gives the same table as once |
| Profiles.UnlockedKeepsNicknames | app/actions/station.ts:32-35 | the update keeps lower-cased nicknames, and so their uniqueness |
| Profiles.AppendKeepsUnique | app/signup/page.tsx:51-60 | inserting a row whose lower-cased nickname is not yet present keeps nicknames unique |
| Profiles.CountPositiveIff | app/signup/page.tsx:28-32 | some row has the lower-cased nickname exactly when the number of such rows is positive |
| Profiles.CountAppend | app/signup/page.tsx:53-60 | an appended row adds one to the count of its own lower-cased nickname and leaves every other count as it was |
| Profiles.UniqueCountAtMostOne | app/signup/page.tsx:28-32 | with unique nicknames at most one row matches, so `maybeSingle` never meets two rows |
| Profiles.ProfileTable.constructor | app/signup/page.tsx:28-32 | an empty table, with unique nicknames |
| Profiles.ProfileTable.Insert | app/signup/page.tsx:53-60 | the insert appends exactly the given row |
| Profiles.ProfileTable.SetPhysicsUnlocked | app/actions/station.ts:32-35 | the update replaces the rows with the unlocked rows, and keeps nicknames unique when they were |
| Middleware.Gate | middleware.ts:4-16 | the answer is "next" or a redirect to "/"; it redirects exactly for a path starting with "/study" with no `auth_token` cookie |
| Middleware.Route | middleware.ts:19-21 | a request is redirected exactly when the matcher "/study/:path*" applies and there is no `auth_token` cookie |
| Middleware.GateIgnoresCookieValue | middleware.ts:7-15 | any `auth_token` value lets every path through, and two values get the same answer |
| Middleware.StudyXIsGatedButNotMatched | middleware.ts:6-20 | "/studyX" passes the character prefix test but not the matcher, so it is served |
| Cookies.RequestCookies | middleware.ts:7 | a later request carries the name and value of exactly those stored cookies the browser delivers to it: before `maxAge` runs out, a `secure` one only over HTTPS, a `Strict` one only from the site itself, a `Lax` one also on a top-level navigation from another site |
| Cookies.CookieJar.constructor | app/actions/auth.ts:15 | the jar starts with the given cookies |
| Cookies.CookieJar.Set | app/actions/auth.ts:16-22 | `set` stores the cookie under its name and keeps every other cookie |
| Cookies.CookieJar.Delete | app/actions/auth.ts:42 | `delete` removes only that name |
| AuthActions.ExpectedSecret | app/actions/auth.ts:9 | `SITE_PASSWORD` when it is set and non-empty, otherwise "default_password"; never empty |
| AuthActions.EmptyPasswordRejected | app/actions/auth.ts:9-13 | neither an empty password nor a missing field ever authenticates |
| AuthActions.SessionCookie | app/actions/auth.ts:16-22 | value "authenticated", httpOnly, sameSite strict, max age 604800, path "/", secure exactly in production |
| AuthActions.AuthenticateUser | app/actions/auth.ts:6-38 | a wrong password returns the wrong-password error; a right one redirects to "/study" after setting exactly the `auth_token` cookie, or returns the generic error when the cookie store throws; a failure writes no cookie |
| AuthActions.Logout | app/actions/auth.ts:40-44 | removes only `auth_token` and redirects to "/" |
| AuthActions.LoginOpensStudy | app/actions/auth.ts:13-25 | after a successful login a "/study" path is let through exactly when the request comes within seven days, from the site itself, and over HTTPS in production; other paths always pass |
| AuthActions.LogoutClosesStudy | app/actions/auth.ts:40-44 | after logout every "/study" path redirects to "/", whatever other cookies remain and however the request is made |
| AuthActions.RepeatLoginAndLogout | app/actions/auth.ts:13-44 | a second login with the same password leaves the jar as the first did (the `auth_token` cookie set once a password is accepted, nothing changed otherwise); a second logout leaves it as the first, without `auth_token` |
| StationActions.ExpectedCode | app/actions/station.ts:17 | `PHYSICS_PASSWORD` when set and non-empty, otherwise "1234"; never empty |
| StationActions.Verdict | app/actions/station.ts:10-45 | no user, or a user error, gives "Not authenticated" before the code is looked at; "Invalid access code" exactly for a signed-in user with a wrong code; "Failed to update profile" exactly for a signed-in user with the right code whose update fails; success exactly when that update succeeds |
| StationActions.EmptyCodeNeverMatches | app/actions/station.ts:17-27 | the empty code never unlocks |
| StationActions.VerifyAccessCode | app/actions/station.ts:6-46 | the result is the verdict; success unlocks the caller's rows; every other answer leaves the table unchanged; unique nicknames stay unique |
| StationActions.OnlyCallerUnlocked | app/actions/station.ts:32-35 | a call changes only the unlock flag, only on the caller's rows, and never clears one |
| StationActions.RepeatIsIdempotent | app/actions/station.ts:34 | a repeated correct call succeeds again and changes nothing more; the caller's flag is set |
| LoginRoute.ProjectRef | app/api/auth/login/route.ts:46 | defined exactly when the URL contains "//"; never contains '.'; it is the text after the first "//" up to a '.', the next "//" or the end, and no '.' or "//" starts inside it |
| LoginRoute.PieceBoundary | app/api/auth/login/route.ts:46 | the first piece of a split is a prefix that ends at the end of the text or right before the separator |
| LoginRoute.PieceIsPlain | app/api/auth/login/route.ts:46 | the first piece of the host, cut at its first '.', holds no '.' and no start of a "//" |
| LoginRoute.PieceDetermined | app/api/auth/login/route.ts:46 | only one text starting at a given place ends at the first '.', "//" or the end, with neither inside it, so the project reference is unique |
| LoginRoute.ProjectRefOfHost | app/api/auth/login/route.ts:46 | when the first "//" is followed by characters other than '.' and '/' up to a '.', the project reference is exactly those characters |
| LoginRoute.ProjectRefExample | app/api/auth/login/route.ts:46 | "https://abc.supabase.co" gives the project reference "abc" |
| LoginRoute.ExampleCookieName | app/api/auth/login/route.ts:46-47 | "https://abc.supabase.co" gives the cookie name "sb-abc-auth-token" |
| LoginRoute.AuthCookieName | utils/supabase/client.ts:11 | the name is "sb-" + project reference + "-auth-token", defined exactly when the URL contains "//"; the browser's storage key is derived the same way |
| LoginRoute.SessionCookie | app/api/auth/login/route.ts:62-68 | path "/", max age 604800, httpOnly, sameSite lax, secure exactly in production |
| LoginRoute.Post | app/api/auth/login/route.ts:4-73 | a sign-in error answers 401 with its message and no cookie; a missing session answers 500 "No session created" and no cookie; a session throws exactly when the URL has no "//" or the session's JSON text holds a character above U+00FF, which `btoa` refuses; otherwise it answers 200 `{success:true}` with exactly one cookie under the derived name |
| LoginRoute.KoreanDisplayNameThrows | app/api/auth/login/route.ts:48-55 | a session whose user carries the display name "민수" makes the route throw, so that user gets no session cookie |
| Sidebar.ChaptersInExact | components/Sidebar.tsx:94-96 | a section shows, in table order, exactly the chapters whose number it lists |
| Sidebar.AdjacentIncreasingSuffices | components/Sidebar.tsx:16-44 | numbers that rise from each entry to the next rise through the whole table |
| Sidebar.ChapterNumbersIncreasing | components/Sidebar.tsx:16-44 | 20 chapters, with strictly increasing (so unique) numbers |
| Sidebar.ChapterPaths | components/Sidebar.tsx:18-43 | each path is "/study/chapter/" followed by the chapter's number |
| Sidebar.SectionOf | components/Sidebar.tsx:46-51 | the section index a number falls in, or -1 |
| Sidebar.SectionsByRange | components/Sidebar.tsx:46-51 | a section lists a number exactly when the number's range is that section's, so the lists are pairwise disjoint |
| Sidebar.ChaptersByRange | components/Sidebar.tsx:16-51 | the table's numbers are exactly the numbers the sections list |
| Sidebar.ChapterNumbersInRanges | components/Sidebar.tsx:16-51 | every chapter's number is listed by some section |
| Sidebar.EachChapterUnderOneSection | components/Sidebar.tsx:46-51 | every chapter is shown under exactly one section header |
| Sidebar.DistinctPaths | components/Sidebar.tsx:16-44 | chapter paths differ pairwise and from the formula sheet's path |
| Sidebar.AtMostOneActiveLink | components/Sidebar.tsx:79 | no path highlights two chapter links, or a chapter link and the formula sheet link |
| Sidebar.Navigator.constructor | components/Sidebar.tsx:53 | a navigation callback not yet invoked |
| Sidebar.Navigator.Navigate | components/Sidebar.tsx:57 | invoking the callback counts one call |
| Sidebar.HandleClick | components/Sidebar.tsx:56-58 | `onNavigate` is invoked once exactly when it is provided |

## Left out

- Chapter `summary`, `problems`, `difficulty` and `votes`, and formula `votes`: display-only content with no logic over it. `youtubeId` is kept.
- All JSX rendering, KaTeX and markdown display, animations and the star field of the void page.
- The 500 ms debounce of the duplicate nickname check and the 1.5 s redirect delay. Only the condition under which the query is scheduled is modelled (`FormRules.DuplicateCheckQuery`). The answer arrives as a separate method (`LoginPage.Form.ReceiveDuplicateAnswer`).
- `handleSubmit` after `setIsPending(true)`: the sign-in and sign-up calls, the signup-error branch, the redirect and the pending reset. This network part is app/page.tsx:199-272. The e-mail field may still hold the message "⚠ Email already registered" that this part writes, so the form's invariant allows it.
- LoginPage.Form: React renders are not modelled. A handler's `set…` calls take effect at once, and the effects that re-run validators are folded into the handler that changes their inputs (`ToggleMode` runs every effect that depends on the mode). An effect is run even when the value typed equals the old one, where React would skip it; the validators give the same result then. The one exception is `Submit`: its gate reads the error fields as they were before the submit, as React's batching makes it.
- Full Unicode case mapping: `toLowerCase` is modelled on ASCII letters only.
- The login page's own profile insert in its network part (app/page.tsx:234-242), made without waiting for or re-running the duplicate check (its gate reads only the last answer the debounced check left in the nickname error). It can put two rows with the same lower-cased nickname into the table; the sign-up page's handling of such a table (no row found) is modelled by `SignUpPage.Decide` and `SignUpPage.DuplicatedNicknameGoesUnseen`.
- The login page's duplicate check treats a failed query and several matching rows as "free", like the sign-up page; `ReceiveDuplicateAnswer` takes the answer as an input. A stale answer may arrive after the nickname changed, since the method can be called at any time.
- The race between the nickname check and the insert when two sign-ups run at once: one request at a time is modelled.
- All `console.log`/`console.error` output, including the logging of the expected access code.
- The `alert` messages and `router.push('/')` of the sign-up page. The outcome (`SignUpPage.Outcome`) names which alert is shown.
- The cookie value `btoa(JSON.stringify(session))` of the login route: the session is given as its JSON text, and the base64 text itself is not computed. The throw of `btoa` on a character above U+00FF is modelled.
- The insert's database default for `is_physics_unlocked` is assumed to be false.
- `redirect` and `revalidatePath` are results (`AuthActions.ActionResult`), not thrown signals. The re-throw of redirect signals in `authenticateUser` is thereby covered. Any other exception there is the `storeFails` input.
- LoginRoute.ProjectRef: a configured URL without "//" makes the source throw; the model returns `None` and `Post` returns no response. The framework's error answer to a thrown route handler is not modelled.
- Cookies.RequestCookies: all cookies of a jar are taken as set at the same moment, `elapsed` seconds before the request. The `path` attribute is not matched (every cookie here has path "/"), nor is the cookie's domain. The browsers' exception that lets a `secure` cookie travel to `http://localhost` is not modelled.
- The browser's own checks on the sign-up form (`required` fields and `type="email"`), which can keep `handleSignUp` from running: `HandleSignUp` is modelled for any inputs.
- The e-mail sender route, the thin sign-up API route, `proxy.ts` session refresh and the browser or server Supabase client set-up, except for the storage-key name. These are service plumbing with no decisions of their own.
- UI-only components (mobile menu, signal widget, contact form, course cards, study layout): they hold only open/close flags.
- Agreement between the sidebar and the content table. They do not agree:
  - sidebar 23 is "Gauss' Law", while chapter "23" of the content is "Electric Potential";
  - sidebar 35 and 36 have no content;
  - the formula page links elsewhere.

  Each table is modelled as written.
