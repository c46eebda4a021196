# Wishline core logic in Dafny

Wishline is a React Native app for keeping a list of wishes (tasks with subtasks, a
category, a priority, a status and a target date). It talks to a REST backend. This
project models the parts of the app that hold logic of their own:

- the priority and status converters between the backend's and the form's spellings;
- the six-slot OTP code buffer and the verification screen;
- the wish form of the add/edit modal: subtask list editing, validation order, subtask
  filtering, the category default and the request it sends;
- the signup, set-password, forgot-password and login screens: their validators, the
  error-message remapping, and the local-storage keys each step sets or removes
  (`signupEmail`, `resetPasswordEmail`, `verifiedEmail`, `authToken`, `user`);
- the payload normalisation of the task and category services, and the `"NA"` parent
  sentinel;
- the REST client's interceptors: the bearer header, the error-message chain and the
  session clearing on HTTP 401;
- the bounded retry of the navigation helpers;
- the theme provider's preference and scheme state.

The modules are organised as follows:

- There is one module per source file. Three shared modules sit beside them:
  - `Js` holds the JavaScript semantics the code relies on: `||` truthiness, `??`, `trim`, `includes`, `split`, and filter-then-map.
  - `EmailPattern` holds the shape `^[^\s@]+@[^\s@]+\.[^\s@]+$` and its deterministic test.
  - `Storage` holds AsyncStorage, as a class over a `map<string, string>`.
- `AuthFlow` holds what the auth screens share: the backend requests and their outcomes, and the signup/reset flow flag.
- `AuthJourney` states how the screens hand over to each other through storage and route parameters.

Screens and the theme provider are classes. Their state cells are fields that
each handler updates as one atomic step. External effects are handled like this:

- The backend calls of the auth service and the wish service are not executed. Each call is
  appended to a `requests` (or `calls`) log, and its result is a parameter: `CallOutcome`,
  `LoginOutcome` or `SaveOutcome`.
- The router is an oracle, `succeeds(i)`, that says whether attempt `i` returns normally.
  Time is only the list of waits the helpers schedule.
- Navigations a screen asks for are appended to its `navigations` log.
- Routes are a path plus unencoded query pairs.

## Model

| member | source | states |
|---|---|---|
| TaskUtils.PriorityToFrontend | lib/utils/taskUtils.ts:6-15 | only NORMAL becomes Medium; HIGH and LOW keep a label of the same length (the case-only difference is `PriorityLabelsLowered`) |
| TaskUtils.PriorityToBackend | lib/utils/taskUtils.ts:20-29 | the backend priority is the one the forward converter maps to the given form value |
| TaskUtils.StatusToFrontend | lib/utils/taskUtils.ts:34-46 | every status keeps a label of the same length (the case-only difference is `StatusLabelLowered`) |
| TaskUtils.StatusToBackend | lib/utils/taskUtils.ts:51-63 | the backend status is the one the forward converter maps to the given form value |
| TaskUtils.PriorityRoundTrips | lib/utils/taskUtils.ts:6-29 | converting a priority to the form's spelling and back (either way round) gives the original value |
| TaskUtils.StatusRoundTrips | lib/utils/taskUtils.ts:34-63 | the same round trips for the three statuses |
| TaskUtils.ConvertersAreBijections | lib/utils/taskUtils.ts:9-13 | each of the four converters is one-to-one and onto its three-value range |
| TaskUtils.LabelsDifferOnlyInCase | lib/utils/taskUtils.ts:10-12 | a priority's two labels are equal up to letter case exactly when it is not NORMAL (which maps to Medium); the status labels are always equal up to case |
| TaskUtils.PriorityLabelsLowered | lib/utils/taskUtils.ts:6-13 | lower-cased, HIGH and LOW read the same in both spellings, and NORMAL reads "normal" against the form's "medium" |
| TaskUtils.StatusLabelLowered | lib/utils/taskUtils.ts:34-48 | lower-casing the form's status label gives the backend's label |
| Js.OrElse | app/verify-otp.tsx:173-174 | `s \|\| fallback` is `s` when it is truthy and the fallback otherwise; it is empty only when both are |
| Js.FirstTruthy | app/verify-otp.tsx:49 | the result of an `a \|\| b \|\| c` chain is present iff some candidate is truthy, and then it is the first truthy one |
| Js.FirstPresent | lib/apiClient.ts:68-72 | the result of an `a ?? b ?? c` chain is present iff some candidate is not null/undefined, and then it is the first such one |
| Js.TrimStart | app/signup.tsx:45 | leading white space is removed: the result is a suffix, does not start with a space, and what was dropped is blank |
| Js.TrimEnd | app/signup.tsx:45 | the mirror image for trailing white space |
| Js.TrimIsSlice | app/signup.tsx:45 | `s.trim()` is the slice of `s` left after dropping the blank run at each end, and it neither starts nor ends with white space |
| Js.TrimEmptyIffBlank | app/signup.tsx:53 | `s.trim()` is empty exactly when `s` is all white space |
| Js.TrimNoSpace | app/signup.tsx:53-57 | trimming a string without white space changes nothing |
| Js.TrimIdempotent | components/modals/AddWishModal.tsx:159-164 | a trimmed string has no space at either end, and trimming it again changes nothing |
| Js.IndexOf | app/verify-otp.tsx:172 | the position of the first occurrence of a character |
| Js.Split | app/verify-otp.tsx:172-174 | `split` gives at least one piece, and no piece holds the separator |
| Js.JoinSplit | app/verify-otp.tsx:172-174 | joining the pieces of a split with the separator gives the input back |
| Js.SplitJoin | app/verify-otp.tsx:172-174 | splitting the joined pieces gives the pieces back, when none holds the separator |
| Js.Join | app/verify-otp.tsx:172-174 | joining starts with the first part and holds the separator whenever there are two parts or more |
| Js.SplitAt | app/verify-otp.tsx:172-174 | splitting at a separator that ends a separator-free head gives the head followed by the pieces of the rest |
| Js.SplitHead | app/verify-otp.tsx:172 | the first piece is the longest separator-free prefix; without a separator the split is the input alone, and with one the later pieces are those of the text after the first separator |
| Js.SplitSecond | app/verify-otp.tsx:174 | with a separator present, the second piece is the first piece of the text after the first separator |
| Js.SplitPiecesAvoid | app/verify-otp.tsx:172-174 | a character absent from the input is absent from every piece |
| Js.Contains | app/signup.tsx:76 | `includes` only holds for a pattern no longer than the text, and always holds for a prefix |
| Js.NotContainsMissingChar | app/signup.tsx:75-80 | a text lacking one character of a pattern does not include the pattern |
| Js.OccursAtContains | app/signup.tsx:76 | an occurrence of the pattern at any position makes `includes` hold |
| Js.ContainsOccurs | app/signup.tsx:76 | when `includes` holds, the pattern occurs at some position |
| Js.FilterMap | components/modals/AddWishModal.tsx:159-164 | filter-then-map never lengthens the list |
| Js.FilterMapAppend | components/modals/AddWishModal.tsx:159-164 | filter-then-map distributes over concatenation, so order is kept |
| Js.FilterMapKeeps | components/modals/AddWishModal.tsx:159-164 | every kept element appears, mapped, in the result |
| Js.FilterMapSource | components/modals/AddWishModal.tsx:159-164 | every element of the result is the image of a kept element of the input |
| Js.FilterMapExtremes | components/modals/AddWishModal.tsx:159-164 | when all elements are kept nothing is lost; when none is, the result is empty |
| Js.FilterMapIdempotent | components/modals/AddWishModal.tsx:159-164 | when the map yields kept fixed points, filtering twice is filtering once |
| EmailPattern.ValidEmailIffMatches | app/forgot-password.tsx:40-42 | the deterministic test accepts exactly the strings the regular expression matches |
| EmailPattern.ValidEmailMatches | app/forgot-password.tsx:40-42 | every string the deterministic test accepts is matched by the regular expression |
| EmailPattern.MatchesValidEmail | app/forgot-password.tsx:40-42 | every string the regular expression matches is accepted by the deterministic test |
| EmailPattern.ValidEmailIsTrimmed | app/signup.tsx:53-57 | a string of the pattern's shape is its own trim and is not blank |
| EmailPattern.EmailFieldError | app/signup.tsx:53-57 | a blank entry gives "Email is required"; otherwise there is no error iff the untrimmed entry matches the pattern, and an error is the form's own message |
| EmailPattern.EmailFieldErrorIff | app/forgot-password.tsx:48-56 | the e-mail check passes exactly on entries that match the pattern |
| Storage.KeyValueStore.constructor | app/set-password.tsx:49 | the store starts with the entries saved earlier |
| Storage.Lookup | app/verify-otp.tsx:49 | a stored value is present iff its key is stored, and it is the stored value |
| Storage.KeyValueStore.GetItem | app/set-password.tsx:49 | `getItem` gives the stored value, or null for an absent key |
| Storage.KeyValueStore.SetItem | app/signup.tsx:72 | `setItem` maps the key to the value and leaves every other key alone |
| Storage.KeyValueStore.RemoveItem | app/set-password.tsx:100-102 | `removeItem` removes just that key |
| Navigation.Attempts | lib/utils/navigation.ts:8-28 | the same router call is made 1 to 3 times and never again after one succeeds; every attempt but the last failed; the 100 ms and 200 ms waits precede the retries; the error is logged iff all three attempts fail |
| Navigation.SafeNavigate | lib/utils/navigation.ts:7-38 | `router.replace` with the retry policy, after the optional initial delay and one animation frame |
| Navigation.SafePush | lib/utils/navigation.ts:40-64 | `router.push` with the same policy, after one animation frame and no initial delay |
| Navigation.ThirdAttemptAfter300 | lib/utils/navigation.ts:13-26 | when the first two attempts fail, a third is made, 300 ms of timeouts after the first |
| VerifyOtp.EmptyOtp | app/verify-otp.tsx:29 | the initial and cleared buffer has six empty slots |
| VerifyOtp.Concat | app/verify-otp.tsx:106 | the joined code is empty exactly when every slot is empty |
| VerifyOtp.ConcatLength | app/verify-otp.tsx:106-109 | with slots of at most one character, the joined code is as long as the buffer iff no slot is empty |
| VerifyOtp.CompleteIffAllFilled | app/verify-otp.tsx:109-113 | on a well-formed buffer, the six-character check passes iff all six slots are filled |
| VerifyOtp.PastedChars | app/verify-otp.tsx:73 | a paste uses at most the first six characters of the pasted text |
| VerifyOtp.PasteResult | app/verify-otp.tsx:71-84 | a paste writes one pasted character per slot from `index` up to slot 5 and no further; slots before `index` and after the pasted text are untouched |
| VerifyOtp.PasteFocus | app/verify-otp.tsx:81-83 | after a paste, focus is `min(index + pasted length, 5)` |
| VerifyOtp.PastePreservesShape | app/verify-otp.tsx:71-84 | a paste keeps six slots of at most one character each |
| VerifyOtp.ApplyPaste | app/verify-otp.tsx:73-80 | the slot-by-slot loop over the copied buffer produces exactly `PasteResult` |
| VerifyOtp.ResolveEmail | app/verify-otp.tsx:49 | the address is `signupEmail`, else `resetPasswordEmail`, else the route's `email`, each taken only when non-empty; it is empty iff all three are missing or empty |
| VerifyOtp.AfterVerified | app/verify-otp.tsx:135-137 | after verification `verifiedEmail` holds the address, `signupEmail` and `resetPasswordEmail` are gone and every other key is unchanged |
| VerifyOtp.VerifiedRoute | app/verify-otp.tsx:140-144 | success leads to /set-password, with `type=reset` exactly in the reset flow |
| VerifyOtp.NameEnd | app/verify-otp.tsx:172-174 | the end of the run of characters other than `.` and `@` that starts at a position |
| VerifyOtp.PieceByScan | app/verify-otp.tsx:172-174 | a dot-piece of the local part ends where the run of name characters from its start ends |
| VerifyOtp.FirstPieceByScan | app/verify-otp.tsx:172-173 | the first dot-piece of the local part is the address up to the first `.` or `@`, and that character is a `.` exactly when the local part holds one |
| VerifyOtp.SecondPieceByScan | app/verify-otp.tsx:172-174 | with a `.` in the local part, the second dot-piece runs from just after it to the next `.` or `@` |
| VerifyOtp.PiecesByScan | app/verify-otp.tsx:172-174 | the first and second dot-pieces of a local part, read off the address by scanning |
| VerifyOtp.LocalPiecesByScan | app/verify-otp.tsx:172-174 | the same for the local part `email.split('@')[0]` of the address itself |
| VerifyOtp.ResendNames | app/verify-otp.tsx:172-174 | the first name is the address up to its first `.` or `@`, or "User" when that is empty; the second is the run after that character when it is a `.` and the run is non-empty, else "Name"; neither is empty or holds `.` or `@` |
| VerifyOtp.LocalPieces | app/verify-otp.tsx:172-174 | the dot-separated pieces of the local part hold no `.` and no `@`, and the first is a prefix of the address |
| VerifyOtp.VerifyOtpScreen.constructor | app/verify-otp.tsx:29 | the screen starts with an empty buffer and no error |
| VerifyOtp.VerifyOtpScreen.LoadEmail | app/verify-otp.tsx:43-68 | the resolved address is adopted and focus moves to slot 0; with none, the screen starts over at /forgot-password (reset) or /signup |
| VerifyOtp.VerifyOtpScreen.OnOtpChange | app/verify-otp.tsx:70-97 | a value longer than one character is pasted; a short value with a non-digit changes nothing; otherwise only slot `index` changes, and focus advances only for a non-empty value below slot 5; the buffer stays six slots |
| VerifyOtp.VerifyOtpScreen.OnKeyPress | app/verify-otp.tsx:99-103 | backspace on an empty slot after the first moves focus back one slot; nothing else changes |
| VerifyOtp.VerifyOtpScreen.Verify | app/verify-otp.tsx:105-154 | an incomplete code shows its message and makes no call; a missing address starts over; success stores `AfterVerified` and goes to `VerifiedRoute`; focus stays put on these three paths; failure shows the message, clears all six slots and focuses slot 0 |
| VerifyOtp.VerifyOtpScreen.Resend | app/verify-otp.tsx:156-191 | a missing address shows its message and makes no call; the reset flow requests a new reset code; the signup flow registers again with `ResendNames`; success clears the buffer; focus is unchanged on the missing-address and failure paths |
| Signup.NameError | app/signup.tsx:45-51 | a name error is recorded iff the trimmed name has fewer than three characters |
| Signup.ValidateSignup | app/signup.tsx:42-61 | the three fields are checked independently, and every recorded error is a non-empty message |
| Signup.SignupValidIff | app/signup.tsx:42-61 | the form is valid iff both trimmed names have at least three characters and the address matches the pattern |
| Signup.RegisterErrorMessage | app/signup.tsx:75-80 | a failure message that includes "already present" becomes the already-registered text; any other is shown as it is; a missing one gives the fallback |
| Signup.FallbackNotRemapped | app/signup.tsx:75-77 | the fallback text is never remapped |
| Signup.SignupScreen.constructor | app/signup.tsx:27-32 | the form starts empty with no errors |
| Signup.SignupScreen.EditFirstName | app/signup.tsx:126-128 | typing sets the field and clears only that field's error |
| Signup.SignupScreen.EditLastName | app/signup.tsx:147-149 | typing sets the field and clears only that field's error |
| Signup.SignupScreen.EditEmail | app/signup.tsx:168-170 | typing sets the field and clears only that field's error |
| Signup.SignupScreen.Register | app/signup.tsx:69-81 | one register call with the given form values; success stores `signupEmail` and then pushes /verify-otp, leaving the errors alone; failure shows the remapped message under the e-mail field and stores nothing |
| Signup.SignupScreen.Submit | app/signup.tsx:63-84 | an invalid form shows its errors and makes no call; success stores `signupEmail` and then pushes /verify-otp; failure shows the remapped message under the e-mail field and stores nothing |
| SetPassword.ValidatePassword | app/set-password.tsx:64-79 | no password error iff 6 to 15 characters; the short and long messages; a confirmation error iff the two differ, independently of the length |
| SetPassword.PasswordValidIff | app/set-password.tsx:67-78 | the form is valid iff the length is 6 to 15 and the confirmation matches; 15 characters are accepted |
| SetPassword.UpdateErrorMessage | app/set-password.tsx:110-115 | a message that includes "not verified" becomes "Please verify your email first"; any other is shown as it is; a missing one gives the fallback |
| SetPassword.FallbackNotRemapped | app/set-password.tsx:110-111 | the fallback text is never remapped |
| SetPassword.DoneMessage | app/set-password.tsx:105-107 | the login message depends only on the flow: reset or set |
| SetPassword.LoginRoute | app/set-password.tsx:104-108 | success goes to /login with the flow's message |
| SetPassword.SetPasswordScreen.constructor | app/set-password.tsx:29-39 | the form starts empty with no errors |
| SetPassword.SetPasswordScreen.LoadEmail | app/set-password.tsx:47-62 | a stored `verifiedEmail` is adopted; without one the screen goes to /forgot-password (reset) or /signup |
| SetPassword.SetPasswordScreen.EditPassword | app/set-password.tsx:164-167 | typing sets the field and clears only that field's error |
| SetPassword.SetPasswordScreen.EditConfirmPassword | app/set-password.tsx:201-205 | typing sets the field and clears only that field's error |
| SetPassword.SetPasswordScreen.SendUpdate | app/set-password.tsx:94-115 | one update call with the given address and password; success removes the three flow addresses and opens the login route; failure shows the remapped message under the password and stores nothing |
| SetPassword.SetPasswordScreen.Submit | app/set-password.tsx:81-119 | the form is always validated; an invalid form or a missing address makes no call, and a missing address starts over; success removes all three flow addresses and opens the login route; failure replaces the errors with the remapped message |
| ForgotPassword.ResetVerifyRoute | app/forgot-password.tsx:65 | the reset request leads to /verify-otp with the address and `type=reset` |
| ForgotPassword.ForgotPasswordScreen.constructor | app/forgot-password.tsx:28-31 | the screen starts with an empty address, no error, no success and no request |
| ForgotPassword.ForgotPasswordScreen.EditEmail | app/forgot-password.tsx:155-158 | typing sets the address and clears the error |
| ForgotPassword.ForgotPasswordScreen.RequestReset | app/forgot-password.tsx:58-69 | one reset-code request for the given address; success stores `resetPasswordEmail`, raises the flag and navigates to verification after 2000 ms; failure shows the message or the fallback |
| ForgotPassword.ForgotPasswordScreen.Submit | app/forgot-password.tsx:44-73 | error and success are cleared first; a blank or malformed address shows its message and makes no call; success stores `resetPasswordEmail`, sets the flag and navigates after 2000 ms; failure shows the message or the fallback |
| ForgotPassword.RequestOnlyForValidAddress | app/forgot-password.tsx:48-56 | a reset code is requested iff the address matches the pattern; a blank address gives "Email is required" |
| Login.RedirectTarget | app/login.tsx:62 | the `redirect` parameter when it is non-empty, else "/(tabs)"; never empty |
| Login.LoginScreen.constructor | app/login.tsx:33-35 | the success message is the route's `message`, or "" when it is absent |
| Login.LoginScreen.EditEmail | app/login.tsx:144 | the input sets the address and nothing else |
| Login.LoginScreen.EditPassword | app/login.tsx:157 | the input sets the password and nothing else |
| Login.LoginScreen.Submit | app/login.tsx:45-71 | both messages are cleared; an empty address or password makes no call; success stores `authToken` and then `user` and navigates to the redirect target; failure shows the message or the fallback and stores nothing |
| TaskService.FirstOrSelf | lib/services/taskService.ts:68 | the first element of an array payload (undefined when it is empty), else the payload itself |
| TaskService.TaskList | lib/services/taskService.ts:52-64 | the list holds exactly the array's elements, or the one record; a payload that is not an array gives at most one task |
| TaskService.TaskListKeepsRecords | lib/services/taskService.ts:55-63 | an array payload is kept element for element, in order; the list is empty exactly when the payload carries no record |
| TaskService.TaskListIdempotent | lib/services/taskService.ts:71-83 | normalising an already normalised list changes nothing |
| TaskService.SingleAgreesWithList | lib/services/taskService.ts:87-92 | the single-item calls return the first element of the normalised list whenever it is non-empty |
| CategoryService.CreateCategoryBody | lib/services/categoryService.ts:31-36 | the category name is forwarded; the parent is sent when truthy, else "NA" |
| CategoryService.CategoryList | lib/services/categoryService.ts:28 | an array payload gives its elements; any other payload, null included, is wrapped as the only element |
| CategoryService.CategoryListVersusTaskList | lib/services/categoryService.ts:28 | a null payload gives a one-element category list but an empty task list |
| CategoryService.SentinelOnlyForMissingParent | lib/services/categoryService.ts:34 | "NA" is sent for a missing or empty parent, and any other parent is sent as given |
| ApiClient.NetworkErrorMessage | lib/apiClient.ts:54-59 | without a response: the timeout text for ECONNABORTED, else the error's message when non-empty, else the network fallback |
| ApiClient.ResponseErrorMessage | lib/apiClient.ts:68-72 | with a response: `data.message`, else `statusText`, else the error's message, each kept when not null (even if empty), else the generic text |
| ApiClient.RejectionMessage | lib/apiClient.ts:54-72 | a network failure always has a message, the timeout text for ECONNABORTED; with a response, a present `data.message` wins, then a present `statusText` |
| ApiClient.ClearsSession | lib/apiClient.ts:62 | only a response with status 401 clears the session; a network failure never does |
| ApiClient.SessionAfter | lib/apiClient.ts:62-65 | a 401 response removes `authToken` and `user`; no other failure changes the store |
| ApiClient.InterceptResponse | lib/apiClient.ts:34-75 | a success passes through unchanged; a failure is rejected once with the derived message, after the 401 clearing |
| ApiClient.RequestConfig.constructor | lib/apiClient.ts:8-10 | a request configuration holds the headers it is given |
| ApiClient.InterceptRequest | lib/apiClient.ts:19-30 | with a non-empty stored token the Authorization header becomes "Bearer " + token; otherwise the headers are untouched |
| ThemeContext.ParsePreference | contexts/ThemeContext.tsx:26-28 | a preference is read back only from its own label |
| ThemeContext.ParseLabelRoundTrip | contexts/ThemeContext.tsx:45-52 | every preference that is written is read back as itself |
| ThemeContext.ParseAcceptsOnlyLabels | contexts/ThemeContext.tsx:26-28 | a stored value is accepted iff it is "light", "dark" or "system" |
| ThemeContext.EffectiveScheme | contexts/ThemeContext.tsx:37-43 | light and dark resolve to themselves; system resolves to dark iff the system reports dark; the result is never "system" |
| ThemeContext.UseTheme | contexts/ThemeContext.tsx:71-77 | outside a provider the hook throws; inside, it gives the provider's value |
| ThemeContext.ThemeProvider.constructor | contexts/ThemeContext.tsx:16-19 | the initial preference is system and the scheme follows the system |
| ThemeContext.ThemeProvider.LoadThemePreference | contexts/ThemeContext.tsx:22-34 | a valid saved value is adopted; anything else leaves the preference unchanged |
| ThemeContext.ThemeProvider.SyncColorScheme | contexts/ThemeContext.tsx:37-43 | the scheme becomes the effective scheme of the preference |
| ThemeContext.ThemeProvider.SetThemePreference | contexts/ThemeContext.tsx:45-52 | the value is written first; the state changes only when the write succeeds |
| ThemeContext.SetThenReload | contexts/ThemeContext.tsx:22-52 | a preference that was set is the one adopted when it is loaded again |
| AddWishModal.AddSubTask | components/modals/AddWishModal.tsx:122-124 | one empty, unfinished subtask is appended and the earlier ones are unchanged |
| AddWishModal.DropPosition | components/modals/AddWishModal.tsx:127 | the position filter drops exactly the element at the index |
| AddWishModal.RemoveSubTask | components/modals/AddWishModal.tsx:126-128 | removal gives the list without element `index`, the others in order; an out-of-range index removes nothing |
| AddWishModal.RemoveUndoesAdd | components/modals/AddWishModal.tsx:122-128 | removing the subtask just added gives the list back |
| AddWishModal.Edited | components/modals/AddWishModal.tsx:132 | an edit replaces exactly one field of a subtask |
| AddWishModal.ValidSubTasks | components/modals/AddWishModal.tsx:159-164 | the submitted subtasks are never more than the entered ones |
| AddWishModal.ValidSubTasksExactly | components/modals/AddWishModal.tsx:159-164 | exactly the subtasks with a non-blank description are sent, in order, with trimmed descriptions and completion kept |
| AddWishModal.ValidSubTasksIdempotent | components/modals/AddWishModal.tsx:159-164 | filtering the submitted list again changes nothing |
| AddWishModal.ValidateWish | components/modals/AddWishModal.tsx:140-151 | the checks run in order (trimmed title, trimmed description, target date) and only the first failure is reported |
| AddWishModal.FormFromWish | components/modals/AddWishModal.tsx:83-94 | editing loads the wish's fields, with priority and status converted to the form's spelling |
| AddWishModal.SubTasksOf | components/modals/AddWishModal.tsx:94 | the wish's subtasks, or none |
| AddWishModal.RequestFromForm | components/modals/AddWishModal.tsx:166-185 | the request carries the form's text fields, the backend priority and status, the ISO date and the filtered subtasks |
| AddWishModal.UnchangedEditResubmits | components/modals/AddWishModal.tsx:90-92 | an unchanged edit sends back the wish's own values, backend priority and status included |
| AddWishModal.CategoryDefault | components/modals/AddWishModal.tsx:65-67 | the category changes iff it is still "Health" and the non-empty loaded list lacks "Health"; it then becomes the first loaded name |
| AddWishModal.CategoryDefaultKeepsChoice | components/modals/AddWishModal.tsx:65-67 | a chosen category, or a list holding "Health", is never overridden |
| AddWishModal.LoadedNames | components/modals/AddWishModal.tsx:62-63 | names are loaded only when the request succeeds and every element is a record; they are then every record's name, in order |
| AddWishModal.NullPayloadFallsBack | components/modals/AddWishModal.tsx:68-71 | a null category payload falls back to the built-in list; an array of records gives its names |
| AddWishModal.SaveErrorMessage | components/modals/AddWishModal.tsx:193 | an `Error`'s message, else "Failed to save wish" |
| AddWishModal.SaveCall | components/modals/AddWishModal.tsx:166-185 | editing updates the edited wish by id; otherwise a creation is sent; either way with the same request |
| AddWishModal.SavedNotices | components/modals/AddWishModal.tsx:188-191 | after a save, `onSuccess` (when given) and then `onClose` |
| AddWishModal.WishModal.constructor | components/modals/AddWishModal.tsx:41-53 | the modal starts with the blank form, no subtasks and no error |
| AddWishModal.WishModal.Open | components/modals/AddWishModal.tsx:80-108 | opening loads the edited wish, or resets to the blank form (Health, High, In Progress) with no subtasks; the error is cleared |
| AddWishModal.WishModal.LoadCategories | components/modals/AddWishModal.tsx:59-77 | loaded names replace the list and may set the category default; a failure gives Health, Career, Personal, Travel |
| AddWishModal.WishModal.AddSubTaskRow | components/modals/AddWishModal.tsx:122-124 | the list becomes `AddSubTask` of the old list |
| AddWishModal.WishModal.RemoveSubTaskRow | components/modals/AddWishModal.tsx:126-128 | the list becomes `RemoveSubTask` of the old list |
| AddWishModal.WishModal.UpdateSubTask | components/modals/AddWishModal.tsx:130-134 | only the chosen field of element `index` changes; the length and every other element are kept |
| AddWishModal.WishModal.Save | components/modals/AddWishModal.tsx:166-193 | the one create or update call is logged; success clears the error and notifies `onSuccess` then `onClose`; failure shows `SaveErrorMessage` and notifies nobody |
| AddWishModal.WishModal.Submit | components/modals/AddWishModal.tsx:136-197 | a failed check shows its message and sends nothing; an unconvertible date throws before any call; otherwise one create or update is sent with `RequestFromForm`; success notifies and closes; a failure shows its message |
| AuthJourney.SignupHandsOverAddress | app/verify-otp.tsx:49 | after signup, verification works on the address just registered |
| AuthJourney.StaleSignupAddressWins | app/verify-otp.tsx:49 | after a reset request, a `signupEmail` left in storage takes precedence over the reset address; without one, the reset address is used |
| AuthJourney.ResetRouteStaysInResetFlow | app/forgot-password.tsx:65 | the reset request opens verification in the reset flow, which leads on to set-password with `type=reset` |
| AuthJourney.VerificationHandsOverAddress | app/verify-otp.tsx:135-137 | after verification set-password finds the verified address and no other flow address is left |
| AuthJourney.PasswordSetEndsFlow | app/set-password.tsx:100-102 | setting the password removes every flow address and keeps the session keys |
| AuthJourney.LoginShowsDoneMessage | app/login.tsx:33-35 | the login screen opens with the message that set-password sends |
| AuthJourney.SessionLifecycle | lib/apiClient.ts:21-24 | after login the token is stored for the request interceptor; after a 401 the token and the user record are gone |

## Left out

- Rendering: JSX, styles, pickers, modals' visibility and the loading flags (`isLoading`, `isSubmitting`, `isResending`) are not modelled.
- authService, systemService and the app configuration are not modelled. Each auth call is a request value plus an outcome parameter. The HTTP method, URL and body beyond the fields listed in `AuthRequest` are left out.
- axios itself is not modelled. The interceptors are given the transport result or the configuration.
- AsyncStorage I/O is a map in memory, and its calls cannot fail. The one exception is `ThemeContext.ThemeProvider.SetThemePreference`, whose write outcome is a parameter.
- Timers, `setTimeout` and `requestAnimationFrame` are not run. Time is only the list of waits the navigation helpers schedule. The console log after the third failed attempt is a flag.
- `encodeURIComponent` is not modelled. Route query values are kept unencoded.
- Dates: `new Date(...).toISOString()` and the date-only split in the wish modal are parameters (`isoDate`, `dateOnly`). `toLocaleDateString` and the date picker are left out.
- TextInput focus refs are not modelled. Focus is the index of the focused slot.
- React's render and async ordering are not modelled. Each handler and each effect is one atomic step.
- AddWishModal.WishModal.LoadCategories: the source tests the category captured when the modal opened (AddWishModal.tsx:65), and its update at :66 lands after the edit effect at :86-93. So on first opening the modal to edit a wish whose category is not "Health" (say "Career"), with a loaded list lacking "Health", the source always overwrites the edited wish's category with the first loaded name. The model tests the current category and keeps "Career".
- AddWishModal.LoadedNames: a category payload that is a primitive value is treated like null (no name can be read). The source would read `categoryName` of a string as undefined.
- AddWishModal.WishModal.UpdateSubTask: requires an index inside the list. The form only calls it for a row it shows. An index past the end would make the source write a new element holding just that field.
- AddWishModal.FormFromWish: a wish's description is always a string here, so `description || ''` is the description itself.
- ApiClient.ResponseErrorMessage: a `data.message` that is not a string (an array of validation messages, say) is turned into text by `new Error` at apiClient.ts:68-74. The model only carries string messages.
- Login.LoginScreen.Submit: the token and the user record are strings supplied by the outcome. A response without a token (`setItem` of undefined) is not modelled.
- `deleteTask` and `deleteCategory` send one request and reshape nothing. `updateCategory`'s result extraction is `TaskService.FirstOrSelf`, shared with the task service.
- String lengths count characters, not UTF-16 code units. White space is the ECMAScript WhiteSpace and LineTerminator set as `Js.IsSpace` lists it.
- The other screens (tabs, profile, settings, categories), the UI components and the theme constants are not part of this model.
