# Interview platform core, modelled in Dafny

This project models the client-side core of a small interview platform built with Next.js and React. It covers the following pieces:

- **Route guard** (`Middleware`). It decides, from the request path and the presence of a `user` cookie, whether a page is served or redirected. The `config.matcher` list chooses the paths it runs on.
- **Session store** (`AuthProvider`).
  - `login` accepts any non-empty address and password and names the user after the part of the address before "@". `register` always succeeds.
  - Both keep the identity in browser storage and ask the router for `/dashboard`. `logout` removes the identity and asks for `/`.
  - On mount the stored identity is restored. `useAuth` throws outside a provider.
- **Shared form validator** (`FormValidation`).
  - `validateField` checks, in order: required, minimum length, maximum length, pattern, then a custom callback. The first failing check wins, and a zero length bound is falsy, so it is skipped.
  - `validateForm` collects every non-empty message.
  - The email pattern is written out by hand as a character-class matcher.
  - `validatePasswordStrength` lists the unmet requirements in a fixed order.
- **Sign-in and sign-up forms** (`LoginForm`, `RegisterForm`). Each validates with the shared validator and clears a field's error as the user types. It calls the store only when validation passes, then shows a banner when that call is rejected.
- **Assessment questionnaire** (`QuestionnaireForm`). Five fixed questions, of kind multiple choice, free text or checkbox. Checkbox selections toggle. A submission is blocked unless every question is answered in the way its kind requires.
- **Question bank editor** (`QuestionnaireManager`).
  - It holds three lists of questions and a draft with four option slots.
  - Adding a question: a blank draft text is ignored. A multiple-choice question with fewer than two filled options raises an alert. Otherwise the question is appended and the draft is reset.
  - The duration field parses an integer and falls back to 60 seconds.
- **Interview countdown** (`InterviewTimer`). A one-second interval decrements the count. `onComplete` is called when the effect runs at zero. The clock renders as `MM:SS` and its badge has three urgency bands.
- **Video interview** (`VideoInterview`). Starting mounts a 30-minute countdown, and ending switches to the assessment tab. While started, an effect asks the browser for camera and microphone streams. Its cleanup stops the stream that its run captured. Mute and camera toggles enable or disable the tracks on screen.

`Strings` holds the string helpers these share:
- JavaScript `trim`.
- Integer to decimal and back, as with `Number.parseInt` in base 10.
- `split(sep)[0]`.
- `join`.

State that the source changes in place is modelled with classes, one per component instance:
- `Countdown`, `Interview`, `Session`, `Assessment` and `Manager`.
- The two form `Controller`s.

Each React state setter becomes a field assignment. Each event handler, effect run or settled promise becomes a method, and `Valid()` states the invariant the component keeps. The decision logic behind those methods is written as pure functions, and the lemmas are stated about those functions.

Where the intended behaviour and the code disagree, the model follows the code:
- Nothing in the questionnaire's state is frozen once it is submitted. The component then renders only its confirmation view, so no input handler can run any more; the model does not encode that view and leaves the handlers callable.
- An interview can be started again after it has ended.
- A stored identity is restored without any check on its contents.
- Concurrent logins are not ordered: the last one to settle wins, whichever began last.
- `register` performs no check of its own. Only the sign-up form validates.

## Model

| member | source | states |
|---|---|---|
| Strings.TrimEmptyIffBlank | src/app/components/questionnaire/questionnaire-form.tsx:108 | `trim()` yields the empty string exactly when every character is whitespace |
| Strings.Trim | src/app/components/questionnaire/questionnaire-form.tsx:108 | definition of `trim()`: whitespace removed at both ends; TrimEmptyIffBlank states when it is empty |
| Strings.IntToString | src/app/components/interview/interview-timer.tsx:33 | definition of `toString()` on an integer: a minus sign for negatives, then the decimal digits; NatToStringRoundTrip and ParseIntRoundTrip state that it reads back |
| Strings.NatToStringRoundTrip | src/app/components/interview/interview-timer.tsx:33 | the decimal rendering of a natural number reads back as that number |
| Strings.LeadingDigits | src/app/components/questionnaire/questionnaire-manager.tsx:213 | `parseInt` reads the longest run of digits at the front: a digit-only prefix followed by a non-digit or the end |
| Strings.ParseIntRoundTrip | src/app/components/questionnaire/questionnaire-manager.tsx:213 | base-10 `parseInt` of an integer's rendering gives that integer back |
| Strings.ParseInt | src/app/components/questionnaire/questionnaire-manager.tsx:213 | definition of base-10 `parseInt`: leading whitespace skipped, an optional sign, then LeadingDigits; no digit gives `NaN` (None); ParseIntRoundTrip states it inverts IntToString |
| Strings.Join | src/app/lib/form-validation.ts:78 | definition of `join(sep)`: the parts with the separator between neighbours; WeakPasswordPhrases shows it on the message |
| Strings.BeforeFirst | src/app/providers/auth-provider.tsx:49 | `split("@")[0]` is a prefix of the input that contains no "@" and is followed by "@" whenever it is shorter than the input |
| FormValidation.ValidateField | src/app/lib/form-validation.ts:13-41 | the verdict is the first complaint in the order required, min, max, pattern, validate; it is null exactly when no check fails |
| FormValidation.FirstComplaintInCheckOrder | src/app/lib/form-validation.ts:14-40 | the ordered search gives the message of each check in its source order, with `0` bounds skipped and `true` verdicts passing |
| FormValidation.FirstComplaint | src/app/lib/form-validation.ts:13-41 | definition: the message of the first failing check of a list, or none; FirstComplaintInCheckOrder and FirstComplaintStopsAt state its behaviour |
| FormValidation.FirstComplaintStopsAt | src/app/lib/form-validation.ts:13-41 | checks after the first failing one are never consulted: rules that agree up to it give the same verdict |
| FormValidation.LaterPartsNotConsulted | src/app/lib/form-validation.ts:13-41 | the same early exit for `validateField` itself |
| FormValidation.ValidateForm | src/app/lib/form-validation.ts:43-57 | the errors name exactly the ruled fields whose verdict is a non-empty message, each with that message, and no other key |
| FormValidation.FormErrors | src/app/lib/form-validation.ts:43-57 | definition: every ruled field with a non-empty verdict, mapped to it; ValidateForm's loop is proved equal to it |
| FormValidation.EmailHasLocalPart | src/app/lib/form-validation.ts:59 | an address matching the email pattern has a non-empty part before its first "@" and an "@" after it |
| FormValidation.EmailSplit | src/app/lib/form-validation.ts:59 | definition of one match of the email pattern: letters/digits/`._%+-` before the "@", letters/digits/`.-` up to the last dot, at least two letters after it |
| FormValidation.MatchesEmail | src/app/lib/form-validation.ts:59 | definition: the anchored pattern matches iff some split of that shape exists; EmailHasLocalPart states its consequence for the user's name |
| Strings.BeforeFirstIsPrefix | src/app/providers/auth-provider.tsx:49 | when the separator first occurs at position k, `split(sep)[0]` is exactly the first k characters |
| FormValidation.Phrases | src/app/lib/form-validation.ts:78 | each unmet requirement maps to its own phrase, position for position |
| FormValidation.UnmetExactly | src/app/lib/form-validation.ts:74 | filtering keeps exactly the unmet requirements and keeps them in check order |
| FormValidation.Met | src/app/lib/form-validation.ts:66-72 | definition of the five checks: length at least 8, an uppercase letter, a lowercase letter, a digit, one of `@$!%*?&` |
| FormValidation.Unmet | src/app/lib/form-validation.ts:74 | definition of the `filter`: the failed requirements in list order; UnmetExactly and StrengthNamesEveryFailure state what it keeps |
| FormValidation.ValidatePasswordStrength | src/app/lib/form-validation.ts:63-79 | null exactly when the password is empty or meets all five requirements; otherwise "Password must contain " followed by the unmet phrases joined by ", " |
| FormValidation.StrengthNamesEveryFailure | src/app/lib/form-validation.ts:66-78 | for a non-empty password the message lists every failed requirement, no met one, in check order |
| FormValidation.StrongPasswordExample | src/app/lib/form-validation.ts:63-79 | "Abcdef1!" draws no message |
| FormValidation.WeakPasswordUnmet | src/app/lib/form-validation.ts:66-74 | "abc" fails length, uppercase, number and special character, in that order |
| FormValidation.WeakPasswordPhrases | src/app/lib/form-validation.ts:78 | those four failures are phrased and joined as the source's message text |
| FormValidation.WeakPasswordExample | src/app/lib/form-validation.ts:63-79 | the complete message for "abc" |
| Middleware.Decide | middleware.ts:4-23 | redirect to `/dashboard` iff the path is public and the cookie is present; redirect to `/` iff neither; pass through iff exactly one holds |
| Middleware.NoRedirectLoop | middleware.ts:14-20 | under the same cookies, the target of a redirect is itself let through |
| Middleware.PagesServedByAuthentication | middleware.ts:14-22 | a passed-through protected page always carries the cookie, a passed-through public page never |
| Middleware.ProtectedTreesNeedCookie | middleware.ts:14-28 | every page under `/dashboard`, `/interview` and `/questionnaire` is served exactly when the cookie is present, and otherwise redirected home |
| Middleware.InTree | middleware.ts:27 | definition: a `base/:path*` entry matches the base itself and every path below it; used by the three lemmas above |
| Middleware.Matched | middleware.ts:27 | definition: the paths on which the guard runs; its consequences are stated by RouteHasNoRedirectLoop, ForgotPasswordNeverGuarded and ProtectedTreesNeedCookie |
| Middleware.RouteHasNoRedirectLoop | middleware.ts:14-28 | both redirect targets are matched and are let through on the next navigation |
| Middleware.ForgotPasswordNeverGuarded | middleware.ts:8 | "/forgot-password" is on the allow-list but missing from the matcher, so it is served with or without the cookie |
| Middleware.DecisionExamples | middleware.ts:14-22 | a protected page without cookie goes home, home with cookie goes to the dashboard, registration without cookie is served |
| InterviewTimer.JsRemainder60 | src/app/components/interview/interview-timer.tsx:32 | `%` takes the dividend's sign: equals Dafny's remainder for non-negative counts, lies in (-60, 0] for negative ones |
| InterviewTimer.PadStart2 | src/app/components/interview/interview-timer.tsx:33 | `padStart(2, "0")` leaves long strings alone and left-fills short ones with zeros to length two |
| InterviewTimer.FormatTime | src/app/components/interview/interview-timer.tsx:30-34 | definition of `formatTime`: floored minutes and truncating remainder seconds, each padded to two, joined by a colon; FormatTimeRoundTrip states its shape and inverse |
| InterviewTimer.ParseClock | src/app/components/interview/interview-timer.tsx:33 | independent reader of the `MM:SS` format, used as the inverse in FormatTimeRoundTrip |
| InterviewTimer.ClockReadsBack | src/app/components/interview/interview-timer.tsx:30-34 | the four digits of `m` minutes and `s` seconds around a colon read back as `60 * m + s` |
| InterviewTimer.ClockFace | src/app/components/interview/interview-timer.tsx:30-34 | `m` minutes and `s` seconds show as their four digits around a colon and read back as `60 * m + s` |
| InterviewTimer.FormatTimeRoundTrip | src/app/components/interview/interview-timer.tsx:30-34 | under 100 minutes the clock is five characters `MM:SS` with the minute and second digits, and reads back as the count |
| InterviewTimer.GetVariant | src/app/components/interview/interview-timer.tsx:37-41 | destructive iff under 60 s, default iff 60 to 299 s, secondary iff 300 s or more |
| InterviewTimer.VariantMonotone | src/app/components/interview/interview-timer.tsx:37-41 | as the count goes down the badge never becomes less urgent |
| InterviewTimer.Countdown.constructor | src/app/components/interview/interview-timer.tsx:14-27 | mounting starts at the given duration; a non-positive duration completes at once |
| InterviewTimer.Countdown.Tick | src/app/components/interview/interview-timer.tsx:22-24 | a pending interval decrements by one and completion fires once, when zero is reached; with none pending nothing changes; never below zero |
| InterviewTimer.Countdown.RerunEffect | src/app/components/interview/interview-timer.tsx:16-27 | re-running the effect keeps the count and calls `onComplete` again exactly when mounted at or below zero |
| InterviewTimer.Countdown.Unmount | src/app/components/interview/interview-timer.tsx:26 | the cleanup leaves no pending interval and no further completion |
| QuestionnaireForm.OrderListsEveryQuestion | src/app/components/questionnaire/questionnaire-form.tsx:16-53 | the iteration order lists exactly the catalog's questions |
| QuestionnaireForm.QuestionError | src/app/components/questionnaire/questionnaire-form.tsx:105-113 | definition of one question's check: no truthy answer requires an answer, a whitespace-only text asks for a response, an empty checkbox list asks for a selection |
| QuestionnaireForm.AssessmentErrors | src/app/components/questionnaire/questionnaire-form.tsx:102-116 | definition: every catalog question with a failing check, mapped to its message; CollectErrors' loop is proved equal to it |
| QuestionnaireForm.Complete | src/app/components/questionnaire/questionnaire-form.tsx:102-116 | independent definition of a complete assessment, in terms of blank strings rather than trim; PassesIffComplete ties it to AssessmentErrors |
| QuestionnaireForm.PassesIffComplete | src/app/components/questionnaire/questionnaire-form.tsx:102-117 | no errors exactly when every question has a truthy answer, every text answer has a non-whitespace character and every checkbox answer a selection |
| QuestionnaireForm.AnsweringClearsOnlyThatError | src/app/components/questionnaire/questionnaire-form.tsx:105-113 | giving one question a valid answer removes that question's error and no other |
| QuestionnaireForm.CollectErrors | src/app/components/questionnaire/questionnaire-form.tsx:103-113 | the loop collects an error for exactly the questions whose answer fails its kind's test |
| QuestionnaireForm.Without | src/app/components/questionnaire/questionnaire-form.tsx:88 | `filter(i => i !== index)` keeps every other selection and drops the index |
| QuestionnaireForm.Toggle | src/app/components/questionnaire/questionnaire-form.tsx:86-89 | a click flips the clicked index's membership and leaves every other index as it was |
| QuestionnaireForm.ToggleTwice | src/app/components/questionnaire/questionnaire-form.tsx:86-89 | two clicks on the same box restore the selection set, and the exact list when the box was clear |
| QuestionnaireForm.WithoutKeepsNoDuplicates | src/app/components/questionnaire/questionnaire-form.tsx:88 | removing an index keeps a selection duplicate-free |
| QuestionnaireForm.ToggleKeepsNoDuplicates | src/app/components/questionnaire/questionnaire-form.tsx:86-89 | clicking never puts an index into the selection twice |
| QuestionnaireForm.Assessment.constructor | src/app/components/questionnaire/questionnaire-form.tsx:56-59 | no answers, no errors, neither submitting nor submitted |
| QuestionnaireForm.Assessment.ClearError | src/app/components/questionnaire/questionnaire-form.tsx:64-70 | the question's error is removed, others stay |
| QuestionnaireForm.Assessment.HandleTextChange | src/app/components/questionnaire/questionnaire-form.tsx:61-71 | the answer is stored, that question's error cleared, nothing else changes |
| QuestionnaireForm.Assessment.HandleRadioChange | src/app/components/questionnaire/questionnaire-form.tsx:73-83 | the choice is stored, that question's error cleared, nothing else changes |
| QuestionnaireForm.Assessment.HandleCheckboxChange | src/app/components/questionnaire/questionnaire-form.tsx:85-100 | the selection becomes the toggle of the current one (or of none), that question's error cleared |
| QuestionnaireForm.Assessment.ValidateForm | src/app/components/questionnaire/questionnaire-form.tsx:102-117 | the errors become those of the current answers, and the result is true iff the assessment is complete |
| QuestionnaireForm.Assessment.BeginSubmit | src/app/components/questionnaire/questionnaire-form.tsx:119-126 | submission starts iff the assessment is complete, and then sends the current answers |
| QuestionnaireForm.Assessment.SettleSubmit | src/app/components/questionnaire/questionnaire-form.tsx:128-140 | submitting ends; submitted becomes true unless the call failed |
| QuestionnaireManager.KeepNonBlank | src/app/components/questionnaire/questionnaire-manager.tsx:85 | the filter keeps exactly the options with a non-empty trim, never adds any |
| QuestionnaireManager.KeepNonBlankAppend | src/app/components/questionnaire/questionnaire-manager.tsx:85 | the filter preserves order: filtering a concatenation concatenates the filtered parts |
| QuestionnaireManager.KeepNonBlankExactly | src/app/components/questionnaire/questionnaire-manager.tsx:85 | an option survives iff it has a non-whitespace character |
| QuestionnaireManager.DurationFromInput | src/app/components/questionnaire/questionnaire-manager.tsx:213 | `parseInt(v) \|\| 60` is never zero |
| QuestionnaireManager.DurationFromInputRoundTrip | src/app/components/questionnaire/questionnaire-manager.tsx:213 | typing a non-zero number sets that duration; typing 0 gives 60 |
| QuestionnaireManager.DurationFallbacks | src/app/components/questionnaire/questionnaire-manager.tsx:213 | an empty or non-numeric field gives 60 |
| QuestionnaireManager.FirstChar | src/app/components/questionnaire/questionnaire-manager.tsx:64 | `charAt(0)` is a prefix of length one, or empty for the empty string |
| QuestionnaireManager.InitialCatalogValid | src/app/components/questionnaire/questionnaire-manager.tsx:22-49 | the sample questions have non-blank texts and the choice questions four non-blank options |
| QuestionnaireManager.Manager.constructor | src/app/components/questionnaire/questionnaire-manager.tsx:52-59 | the sample catalog, "general" selected, an empty draft with four slots and 60 s, dialog closed |
| QuestionnaireManager.Manager.SetQuestionType | src/app/components/questionnaire/questionnaire-manager.tsx:131 | the selected category changes and the invariant holds |
| QuestionnaireManager.Manager.SetDialogOpen | src/app/components/questionnaire/questionnaire-manager.tsx:173 | the dialog opens or closes and the invariant holds |
| QuestionnaireManager.Manager.SetDraftText | src/app/components/questionnaire/questionnaire-manager.tsx:196 | the draft text changes and the invariant holds |
| QuestionnaireManager.Manager.SetDraftDuration | src/app/components/questionnaire/questionnaire-manager.tsx:210-214 | the draft duration becomes the parsed value with the 60 s fallback |
| QuestionnaireManager.Manager.HandleOptionChange | src/app/components/questionnaire/questionnaire-manager.tsx:115-121 | only the chosen slot is rewritten; the slot count stays four |
| QuestionnaireManager.Manager.ResetDraft | src/app/components/questionnaire/questionnaire-manager.tsx:106-112 | the draft is back to empty text, 60 s and four blank slots, and the dialog closes |
| QuestionnaireManager.Manager.AddQuestion | src/app/components/questionnaire/questionnaire-manager.tsx:61-113 | blank text changes nothing; a choice question with under two filled options only raises the alert; otherwise the question (id from the category's first letter, filtered options) is appended to its list only, the draft reset, the dialog closed; every stored question stays non-blank with at least two non-blank options |
| AuthProvider.LoginOutcome | src/app/providers/auth-provider.tsx:38-64 | rejected with "Invalid credentials" iff address or password is empty; otherwise id "1", the address, and a name that is the address up to its first "@" |
| AuthProvider.LoginNameExamples | src/app/providers/auth-provider.tsx:45-56 | "jane@example.com" is named "jane", an address without "@" names itself, an empty password is rejected |
| AuthProvider.UseAuthSeesSession | src/app/providers/auth-provider.tsx:96-105 | a consumer under a mounted provider gets that provider's current user and loading flag, never the error, and the user it sees is the identity kept in storage; outside a provider the hook throws its fixed message |
| AuthProvider.Session.constructor | src/app/providers/auth-provider.tsx:25-26 | nobody signed in, loading, storage as found |
| AuthProvider.Session.Restore | src/app/providers/auth-provider.tsx:29-36 | the stored identity, if any, becomes the user; loading ends |
| AuthProvider.Session.BeginCall | src/app/providers/auth-provider.tsx:39 | a login or registration sets loading |
| AuthProvider.Session.SignIn | src/app/providers/auth-provider.tsx:52-54 | the identity is stored under "user", becomes the user, and `/dashboard` is requested |
| AuthProvider.Session.FinishLogin | src/app/providers/auth-provider.tsx:42-63 | fails with "Invalid credentials" iff a field is empty, then changing nothing but loading; otherwise signs in the login outcome's identity |
| AuthProvider.Session.FinishRegister | src/app/providers/auth-provider.tsx:66-88 | always signs in id "1" with the given name and address |
| AuthProvider.Session.Logout | src/app/providers/auth-provider.tsx:90-94 | the stored identity and the user go, `/` is requested, other storage stays |
| LoginForm.LoginErrors | src/app/components/auth/login-form.tsx:27-35 | the address errs iff empty ("required") or not an address ("Invalid format"); the password errs iff empty |
| LoginForm.LoginRules | src/app/components/auth/login-form.tsx:27-35 | definition of the rules: address required and matching the pattern, password required; LoginErrors states the messages they give |
| LoginForm.PassingLoginSignsIn | src/app/components/auth/login-form.tsx:58-61 | a form that passes validation is always signed in by the store, with a non-empty name |
| LoginForm.Controller.constructor | src/app/components/auth/login-form.tsx:18-24 | empty fields, no errors, no banner, not submitting |
| LoginForm.Controller.HandleChange | src/app/components/auth/login-form.tsx:37-49 | the field takes the value and loses its error; other errors stay |
| LoginForm.Controller.BeginSubmit | src/app/components/auth/login-form.tsx:51-61 | the banner clears, errors become the validation result, and `login` is called with the two fields iff there are none |
| LoginForm.Controller.SettleSubmit | src/app/components/auth/login-form.tsx:62-66 | any rejection shows the one fixed banner; submitting ends |
| RegisterForm.PasswordValidation | src/app/components/auth/register-form.tsx:31-34 | passes iff the strength check gives no message; otherwise the verdict is that message |
| RegisterForm.ConfirmValidation | src/app/components/auth/register-form.tsx:51 | definition of the confirmation callback: passes iff equal to the password, else the mismatch message; MismatchMessage and PassesIff state its effect |
| RegisterForm.RegisterRules | src/app/components/auth/register-form.tsx:36-53 | definition of the four rules, rebuilt from the current password; FieldMessages states the message each gives |
| RegisterForm.FieldMessages | src/app/components/auth/register-form.tsx:36-53 | each field's message: name required / minimum length 2; email required / format; password required / strength message; confirmation required / "Passwords do not match" |
| RegisterForm.RegisterErrors | src/app/components/auth/register-form.tsx:73-74 | the errors name exactly the failing fields, with their messages |
| RegisterForm.PassesIff | src/app/components/auth/register-form.tsx:36-53 | the form passes iff the name has two characters, the address matches, the password meets all five requirements and the confirmation repeats it |
| RegisterForm.MismatchMessage | src/app/components/auth/register-form.tsx:51 | a non-empty confirmation different from the password draws "Passwords do not match" |
| RegisterForm.Controller.constructor | src/app/components/auth/register-form.tsx:18-26 | four empty fields, no errors, no banner, not submitting |
| RegisterForm.Controller.HandleChange | src/app/components/auth/register-form.tsx:55-67 | the field takes the value and loses its error; other errors stay |
| RegisterForm.Controller.BeginSubmit | src/app/components/auth/register-form.tsx:69-79 | the banner clears, errors become the validation result, and `register` is called with name, address and password iff there are none |
| RegisterForm.Controller.SettleSubmit | src/app/components/auth/register-form.tsx:80-88 | an `Error` rejection shows its own message, any other the fixed one; submitting ends |
| VideoInterview.SetEnabled | src/app/components/interview/video-interview.tsx:66-71 | exactly the tracks of that kind in the stream get the flag; every other track is unchanged |
| VideoInterview.StopAll | src/app/components/interview/video-interview.tsx:57-59 | exactly the stream's tracks stop; every other track is unchanged |
| VideoInterview.Enable | src/app/components/interview/video-interview.tsx:66-71 | enabling or disabling tracks keeps every track, its kind and its liveness, so a muted track still holds its device |
| VideoInterview.Stop | src/app/components/interview/video-interview.tsx:58 | definition: the tracks once a stream's tracks are all stopped; StopAll computes it |
| VideoInterview.Cleanup | src/app/components/interview/video-interview.tsx:56-60 | definition of the effect's cleanup: the captured stream, if any, is stopped; RunMediaEffect, End and the toggles state their new tracks through it |
| VideoInterview.OnScreen | src/app/components/interview/video-interview.tsx:66-71 | definition: the tracks of one kind in the stream on screen, if any, get a flag; EnableOnScreen computes it |
| VideoInterview.NewStream | src/app/components/interview/video-interview.tsx:35-38 | a granted stream has an audio track iff audio was asked for and a video track iff video was |
| VideoInterview.NewTracks | src/app/components/interview/video-interview.tsx:35-38 | adding a stream's tracks keeps every existing track and gives each new one the requested liveness |
| VideoInterview.Interview.constructor | src/app/components/interview/video-interview.tsx:12-15 | not started, unmuted, camera on, video tab, no requests or tracks |
| VideoInterview.Interview.RunMediaEffect | src/app/components/interview/video-interview.tsx:30-61 | the new tracks are the cleanup of the old ones: the previous run's cleanup stops exactly the stream it captured and nothing else; when started a request for the current devices is made; if no track was leaked before, none is live after |
| VideoInterview.Interview.Start | src/app/components/interview/video-interview.tsx:85-87 | started, a fresh 30-minute countdown mounted, the effect re-run; no track changes; when already started, nothing changes (same countdown, no request, same captured stream); a leak-free state stays leak-free |
| VideoInterview.Interview.End | src/app/components/interview/video-interview.tsx:89-92 | stopped, countdown unmounted, assessment tab shown; the new tracks are the cleanup of the old ones, so only the captured stream is stopped; if no track was leaked before, none is live afterwards |
| VideoInterview.Interview.SetActiveTab | src/app/components/interview/video-interview.tsx:96 | the tab changes; bookkeeping and leak status are unchanged |
| VideoInterview.Interview.EnableOnScreen | src/app/components/interview/video-interview.tsx:66-71 | exactly the tracks of the given kind in the stream on screen get the flag; no track's liveness changes |
| VideoInterview.Interview.ToggleMute | src/app/components/interview/video-interview.tsx:63-72 | the flag flips; audio tracks of the stream on screen get the old flag; the effect re-runs and stops only the captured stream; a leak-free state stays leak-free |
| VideoInterview.Interview.ToggleVideo | src/app/components/interview/video-interview.tsx:74-83 | the flag flips; video tracks of the stream on screen get the old flag; the effect re-runs and stops only the captured stream; a leak-free state stays leak-free |
| VideoInterview.Interview.RecordStream | src/app/components/interview/video-interview.tsx:35-38 | a settled request records its stream and tracks and leaves older ones as they were |
| VideoInterview.Interview.Arrive | src/app/components/interview/video-interview.tsx:35-53 | a granted stream is booked with fresh tracks, shown and captured exactly as asked; a track live afterwards was live before or belongs to the new stream |
| VideoInterview.Interview.SettleAsWritten | src/app/components/interview/video-interview.tsx:40-53 | a granted stream stays live, goes on screen when started, and is captured only by the run that asked for it |
| VideoInterview.Interview.Settle | src/app/components/interview/video-interview.tsx:40-60 | corrected settle: a stream is live and on screen only for the current run, and no live track is ever left uncaptured |
| VideoInterview.Interview.TimerTick | src/app/components/interview/video-interview.tsx:118 | a tick counts the countdown down; the tick that reaches zero ends the interview with End's effect: the captured stream is stopped (the new tracks are the cleanup of the old ones), nothing is captured or shown, no request is made, and the assessment tab opens; any other tick leaves the tracks, requests, captured and shown streams, tab and started flag unchanged; a leak-free state stays leak-free |
| VideoInterview.LeakAsWritten | src/app/components/interview/video-interview.tsx:51-60 | start, end, then the stream arrives: it stays live with nothing to stop it |
| VideoInterview.LeakOutlivesRestart | src/app/components/interview/video-interview.tsx:51-60 | after such a leak, starting, muting and ending again all still work and none of them stops the leaked stream |
| VideoInterview.NoLeakCorrected | src/app/components/interview/video-interview.tsx:51-60 | the same events with the corrected settle leave no track live |

## Left out

- Rendering, styling, icons, the dialog and tab widgets, and the social-login buttons, which only raise alerts.
- Timers and real time. Each timer callback, settled promise and effect run is a separate method call, and the caller chooses their order. React's batching of state updates is not modelled, and neither are stale closures beyond the two cases that follow.
- `handleCheckboxChange` reads selections from the rendered `answers`, not from the updater's `prev`. Consecutive clicks are modelled as if each saw the previous one's result.
- The remote sample video effect (video-interview.tsx:20-27) only starts playback of a fixed URL.
- `Date.now()` in a new question's id is a `stamp` parameter of `AddQuestion`.
- The email regular expression is written out as an explicit matcher (`EmailSplit`, `MatchesEmail`). No general regex engine is modelled. The unused `passwordStrengthPattern` is also not modelled.
- Browser storage holds `User` values directly. `JSON.stringify`/`JSON.parse` are not modelled, so a malformed stored entry, which would make the restore effect throw, cannot occur in the model.
- String lengths count Dafny characters, not UTF-16 code units.
- `parseInt` is modelled for optional whitespace, an optional sign and decimal digits, stopping at the first other character (so "1.5" and "1e3" read as 1). The duration field is a `type="number"` input, which never hands over hexadecimal strings such as "0x1A"; JavaScript would read those as base 16, and the model does not. An empty or non-numeric value gives `NaN`, and so the fallback to 60.
- Strings.NatToStringRoundTrip, Strings.ParseIntRoundTrip and QuestionnaireManager.DurationFromInputRoundTrip hold for every integer. JavaScript numbers lose integer precision beyond 2^53, and `toString` switches to exponent notation from 1e21, so in the browser these round trips hold only below those bounds.
- Numeric rule bounds are integers. Fractional or `NaN` bounds are not modelled.
- FormValidation.ValidateForm and FormValidation.FormErrors: require a value for every rule key. Both forms pass a value for each of their rule keys. In JavaScript a missing key would be read as `undefined`, which the model does not represent.
- The route guard's cookie and the store's storage entry are separate inputs. Nothing in this code sets the cookie.
- The `Tabs` component is not part of this model. Whether hidden tab content stays mounted is not modelled: the countdown and the local video element exist exactly while the interview is started.
- LoginForm.Controller.BeginSubmit: requires that no submission is in progress, because the submit button is disabled while one is.
- RegisterForm.Controller.BeginSubmit: requires that no submission is in progress, for the same reason.
- QuestionnaireForm.Assessment.BeginSubmit: requires that no submission is in progress, for the same reason.
- QuestionnaireForm.Assessment.HandleTextChange: requires a question of text kind. Each input handler is only wired to questions of its own kind.
- QuestionnaireForm.Assessment.HandleRadioChange: requires a multiple-choice question, for the same reason.
- QuestionnaireForm.Assessment.HandleCheckboxChange: requires a checkbox question, for the same reason.
- QuestionnaireManager.Manager.HandleOptionChange: requires an index inside the four draft slots, because inputs exist only for those slots.
- QuestionnaireManager.Manager.SetQuestionType: accepts any string, as the radio group's value does. A category other than the three known ones adds nothing, but the draft is still reset and the dialog closed.
- InterviewTimer.Countdown.Tick: a count that starts negative keeps its value. No interval is registered, so no tick arrives.
- VideoInterview.Interview.ToggleMute: the flag and the tracks are updated as in the source, but the re-run of the effect that follows is modelled as immediate. In the browser it runs after the render.
- The store's `login` and `register` are awaited as one step each (`BeginCall`, then `FinishLogin`/`FinishRegister`). A rejection is given to the forms as a parameter, not computed from the store.

## Findings

| source | as written | input that shows it | evidently intended | confidence | as-written member | corrected member |
|---|---|---|---|---|---|---|
| src/app/components/interview/video-interview.tsx:51-60 | `localStream` is set only when `getUserMedia` resolves. A cleanup that runs before then finds nothing to stop, and the stream that arrives afterwards is kept live and put on the video element. | Start the interview, then end it (or toggle mute or camera) before the browser grants the devices. The granted stream arrives after the cleanup, and its tracks stay live with no run holding them. | A stream that arrives after its effect run has been cleaned up is stopped on arrival and not shown, so no camera or microphone stays on after the interview ends. | not executed | VideoInterview.LeakAsWritten | VideoInterview.Interview.Settle |
