# Habit tracker client logic in Dafny

This project models the logic inside the pages of a React habit tracker. People record habits, mark them complete once a day, browse other people's public habits, and manage their profile. The rendering is not modelled. What is modelled is the decision logic in the event handlers and helpers:

- **Habit details page.** Whether a habit was completed today. The day is the UTC calendar day, because the page compares `toISOString()` date prefixes. Also the 30-day completion count and the progress percentage, the 12-hour reminder display, the ownership test, the category styling tables, and the mark-complete handler with its once-a-day guard.
- **Public browser.** The case-insensitive search combined with an exact category filter. The category styling list, the page state that keeps the shown list in step with the filters, and the reset of those filters.
- **Authenticated HTTP client.** It attaches `Authorization: Bearer <token>` to each request, as section 2.1 of RFC 6750 describes. A 401 answer (section 15.5.2 of RFC 9110) makes it drop the stored token and redirect to `/login`.
- **Auth callback.** It records the signed-in user, and obtains or drops the session token.
- **Route guard.** It shows a spinner, redirects, or renders the signed-in pages.
- **Profile settings.** Photo validation (type and a 5 MiB limit), the storage path for uploads, and the upload and save flow with the trimmed display name.
- **Create-habit form.** Per-field updates, the required-fields check, the optional image host, the record posted to the backend, and the reset after success.
- **"My habits" page.** Load-error classification, the edit dialog, update and delete, and mark-complete, which has no daily guard.
- **Sign-in diagnostics page.** A table from provider error codes to a diagnosis and a fix.

Conventions:

- Timestamps are integer milliseconds since the epoch. The current time is a parameter, and the UTC day of an instant `t` is `t / 86400000`, rounded down.
- Network replies, storage and identity-provider outcomes are method inputs. The requests a handler makes are its outputs.
- The browser's local storage and address bar are the `Browser.Window` object. Its `token` field is the stored session token, and its `location` field is the current path.
- JavaScript semantics are written out where they matter:
  - A string that may be null is truthy when it is present and not empty.
  - `%` truncates toward zero.
  - `parseInt` skips whitespace, reads one sign and then the longest run of digits; NaN is `None`.
  - `split`, `trim` (the ECMAScript white-space set), `toLowerCase` and `includes` each have their own definition.

Module layout:

| file | models |
|---|---|
| `wrappers.dfy` | `Option` |
| `text.dfy` | the JavaScript string operations the pages use |
| `seqs.dfy` | `Array.prototype.filter` and its laws |
| `habits.dfy` | user, habit, file and the shared habit form |
| `browser.dfy` | the stored token and the window location |
| `habit_details.dfy` | src/pages/HabitDetails.jsx |
| `browse_public_habits.dfy` | src/pages/BrowsePublicHabits.jsx |
| `axios_secure.dfy` | src/utils/axiosSecure.js |
| `auth_context.dfy` | src/context/AuthContext.jsx |
| `private_route.dfy` | src/components/PrivateRoute.jsx |
| `profile_settings.dfy` | src/pages/ProfileSettings.jsx |
| `add_habit.dfy` | src/pages/AddHabit.jsx |
| `my_habits.dfy` | src/pages/MyHabits.jsx |
| `test_auth.dfy` | src/pages/TestAuth.jsx |

Two observations the proofs make precise:

- The details page's styling tables have separate keys "Health" and "Fitness". The forms only ever offer "Health & Fitness", so habits in that category get the fallback icon and gradient there. The "My habits" page styles them properly (`HabitDetails.HealthAndFitnessUnstyled`, `MyHabits.SameStyleAsDetailsPage`).
- Only the details page refuses a second completion on the same day. The list page sends the request regardless (`MyHabits.OnlyDetailsPageGuards`).

## Model

| member | source | states |
|---|---|---|
| Text.Lower | src/pages/BrowsePublicHabits.jsx:73-74 | lowercasing keeps the length and maps each character on its own |
| Text.LowerIdempotent | src/pages/BrowsePublicHabits.jsx:73-74 | lowercasing twice is lowercasing once |
| Text.Includes | src/pages/BrowsePublicHabits.jsx:73-74 | `includes` holds exactly when the term occurs at some index |
| Text.IncludesEmpty | src/pages/BrowsePublicHabits.jsx:71-75 | every string includes the empty term |
| Text.FirstNonBlank | src/pages/ProfileSettings.jsx:73 | the scan passes only white space and stops at the first non-blank or the end |
| Text.EndOfText | src/pages/ProfileSettings.jsx:73 | the backward scan passes only white space and stops after the last non-blank or at the start |
| Text.TrimStart | src/pages/ProfileSettings.jsx:73 | the result is the suffix of the input after its leading white space, and starts with a non-blank |
| Text.TrimEnd | src/pages/ProfileSettings.jsx:73 | the result is the prefix of the input before its trailing white space, and ends with a non-blank |
| Text.Trim | src/pages/ProfileSettings.jsx:73 | `trim` is no longer than its input and neither end of the result is white space |
| Text.TrimIsSlice | src/pages/ProfileSettings.jsx:73 | `trim` returns a contiguous slice with only white space cut on either side and none left at its ends |
| Text.TrimEmptyIffBlank | src/pages/ProfileSettings.jsx:73-76 | the trimmed name is empty exactly when the name is all white space |
| Text.TrimIdempotent | src/pages/ProfileSettings.jsx:90 | trimming a trimmed name changes nothing |
| Text.DigitChar | src/pages/HabitDetails.jsx:96 | a digit value below ten prints as the digit with that value |
| Text.NatToString | src/pages/HabitDetails.jsx:96 | a number prints as a non-empty run of digits without a leading zero |
| Text.NatToStringRoundTrip | src/pages/ProfileSettings.jsx:54 | the printed digits read back as the number |
| Text.IntToString | src/pages/HabitDetails.jsx:96 | the printed text starts with '-' exactly for negative numbers |
| Text.LeadingDigits | src/pages/HabitDetails.jsx:93 | the longest digit prefix: all digits, and the next character (if any) is not one |
| Text.LeadingDigitsOfDigits | src/pages/HabitDetails.jsx:93 | a digit string followed by a non-digit has exactly that string as its digit prefix |
| Text.ParseIntRoundTrip | src/pages/HabitDetails.jsx:93 | `parseInt` of a printed integer gives the integer back |
| Text.ParseIntNeedsDigit | src/pages/HabitDetails.jsx:93 | `parseInt` is NaN for blank text, and gives a number only when the text holds a digit |
| Text.SignedNeedsDigit | src/pages/HabitDetails.jsx:93 | after the sign, nothing or a sign alone reads as NaN; a number needs a digit |
| Text.UnsignedNeedsDigit | src/pages/HabitDetails.jsx:93 | the digit stage reads a number exactly when the text starts with a digit |
| Text.NegatedDigits | src/pages/HabitDetails.jsx:93 | a minus sign before a run of digits negates their value |
| Text.ParseUnsignedDigits | src/pages/HabitDetails.jsx:93 | a run of digits reads as the value of the whole run |
| Text.TrimStartNonBlank | src/pages/HabitDetails.jsx:93 | text starting with a non-blank is left as it is by the leading-blank skip |
| Text.ParseDigits | src/pages/HabitDetails.jsx:93 | `parseInt` of a run of digits is the value of those digits |
| Text.UnsignedDigits | src/pages/HabitDetails.jsx:93 | a run of digits has no sign and is read as it stands |
| Text.ParseNegativeDigits | src/pages/HabitDetails.jsx:93 | `parseInt` of '-' and a run of digits is minus their value |
| Text.IndexOf | src/pages/HabitDetails.jsx:92 | the first index of the separator, None exactly when it is absent |
| Text.IndexOfJoin | src/pages/ProfileSettings.jsx:54 | in `a + c + b` with no `c` in `a`, the first `c` is right after `a` |
| Text.SplitOnce | src/pages/ProfileSettings.jsx:54 | cutting at the first separator gives a separator-free head, and head, separator and tail rebuild the input |
| Text.SplitOnceJoin | src/pages/ProfileSettings.jsx:54 | cutting `a + c + b` gives back `a` and `b` |
| Text.FieldBefore | src/pages/HabitDetails.jsx:92 | `split(':')[0]` is a separator-free prefix of the input: all of it when there is no separator, otherwise it stops right at the first one |
| Text.FieldAfter | src/pages/HabitDetails.jsx:92 | `split(':')[1]` is missing exactly when there is no separator, and holds no separator |
| Text.SplitFields | src/pages/HabitDetails.jsx:92 | splitting `a:b` gives `a`, then the part of `b` before its own first ':' |
| Seqs.Filter | src/pages/BrowsePublicHabits.jsx:72-80 | `filter` keeps only passing elements, each as often as it occurs in the input, and never more elements |
| Seqs.FilterIsSubsequence | src/pages/BrowsePublicHabits.jsx:67-83 | what `filter` keeps is a subsequence of its input, in the original order |
| Seqs.FilterAllPass | src/pages/BrowsePublicHabits.jsx:67-83 | filtering a list whose elements all pass returns it unchanged |
| Seqs.FilterIdempotent | src/pages/BrowsePublicHabits.jsx:67-83 | filtering twice with one predicate is filtering once |
| Seqs.FilterFuse | src/pages/BrowsePublicHabits.jsx:71-81 | two filters in a row keep exactly what passes both tests |
| Seqs.FilterExtensional | src/pages/BrowsePublicHabits.jsx:71-81 | filters with predicates that agree everywhere give the same list |
| Habits.HabitForm.With | src/pages/AddHabit.jsx:31-33 | the named field takes the value and every other field is kept |
| Habits.FormExtensionality | src/pages/AddHabit.jsx:12-17 | forms that agree on all four fields are equal |
| Habits.WithOverwrites | src/pages/AddHabit.jsx:31-33 | writing one field twice keeps only the second value |
| HabitDetails.UtcDay | src/pages/HabitDetails.jsx:99-102 | the day number names the 24-hour UTC day that contains the instant, before 1970 too |
| HabitDetails.AnyOnDay | src/pages/HabitDetails.jsx:107-110 | `some` holds exactly when an entry falls on the given day |
| HabitDetails.IsCompletedToday | src/pages/HabitDetails.jsx:104-111 | false for an absent or empty history; otherwise true exactly when an entry has now's UTC day |
| HabitDetails.CompletedByAnyEntryOfToday | src/pages/HabitDetails.jsx:104-111 | an entry at any instant of today's UTC day makes the habit completed today |
| HabitDetails.CountInWindow | src/pages/HabitDetails.jsx:119-122 | the count is at most the history length; it is the full length exactly when every entry is in the window, and 0 exactly when none is |
| HabitDetails.CountIsFilterLength | src/pages/HabitDetails.jsx:119-122 | the count is the length of the history filtered by `thirtyDaysAgo <= d <= today` |
| HabitDetails.CountAppend | src/pages/HabitDetails.jsx:119-122 | counts of concatenated histories add up |
| HabitDetails.WindowCount | src/pages/HabitDetails.jsx:340-345 | the count is 0 for an absent history; otherwise it is exactly the number of entries inside the 30-day window ending now, so at most the history's length |
| HabitDetails.FutureEntriesIgnored | src/pages/HabitDetails.jsx:121 | an entry dated after now does not change the count |
| HabitDetails.ProgressOf | src/pages/HabitDetails.jsx:113-126 | progress lies in [0, 100]; it is 100 exactly when the count reaches 30; below that it is count * 100 / 30 |
| HabitDetails.CalculateProgress | src/pages/HabitDetails.jsx:113-126 | 0 without a habit or a history; always in [0, 100]; 100 exactly when 30 or more entries fall in the window; below that, the in-window count times 100 divided by 30 |
| HabitDetails.CompletionNeverLowersProgress | src/pages/HabitDetails.jsx:113-126 | appending a completion to the habit's history never lowers the page's progress |
| HabitDetails.ProgressNeverDrops | src/pages/HabitDetails.jsx:119-125 | inserting an entry anywhere never lowers the progress |
| HabitDetails.HalfOfTheWindow | src/pages/HabitDetails.jsx:124-125 | 15 in-window entries give exactly 50 |
| HabitDetails.ClampedAtFull | src/pages/HabitDetails.jsx:125 | 30 or more in-window entries give exactly 100 |
| HabitDetails.JsRem12 | src/pages/HabitDetails.jsx:95 | JavaScript `% 12`: the result takes the dividend's sign, stays below 12 in size and differs from the dividend by a multiple of 12 |
| HabitDetails.DisplayHour | src/pages/HabitDetails.jsx:95 | NaN shows 12; a non-negative hour shows 1 to 12 on the same 12-hour position; a negative hour shows 12 when it is a multiple of 12 and otherwise its truncated remainder, -11 to -1, on the same 12-hour position |
| HabitDetails.FormatTime | src/pages/HabitDetails.jsx:90-91 | a missing or empty value shows 'Not set' |
| HabitDetails.FormatTwentyFourHourValue | src/pages/HabitDetails.jsx:90-97 | for `HH:MM` the hour shows on a 1 to 12 clock, the minutes verbatim, and PM exactly from hour 12 |
| HabitDetails.TimeFields | src/pages/HabitDetails.jsx:92-93 | in `HH:MM` the hour field reads as the value of its digits and the minutes field is MM |
| HabitDetails.TwelveHourRoundTrip | src/pages/HabitDetails.jsx:94-95 | the shown hour and suffix determine the 24-hour hour |
| HabitDetails.IsUserHabit | src/pages/HabitDetails.jsx:158-160 | true exactly when a user and a habit are loaded and the habit's owner email is the user's |
| HabitDetails.HealthAndFitnessUnstyled | src/pages/HabitDetails.jsx:38-62 | "Health & Fitness" gets the fallback icon and gradient |
| HabitDetails.CategoryIcon | src/pages/HabitDetails.jsx:38-49 | the table's icon for a listed key, Sparkles for any other |
| HabitDetails.CategoryGradient | src/pages/HabitDetails.jsx:51-62 | the table's gradient for a listed key, 'from-orange-500 to-red-500' for any other |
| HabitDetails.UnknownCategoryStyle | src/pages/HabitDetails.jsx:48-61 | any category outside the seven keys gets Sparkles and 'from-orange-500 to-red-500' |
| HabitDetails.FailureMessage | src/pages/HabitDetails.jsx:148-152 | the server's message when it has one, and exactly "Failed to mark habit as complete" otherwise |
| HabitDetails.HabitDetailsPage.MarkComplete | src/pages/HabitDetails.jsx:128-156 | already completed today: no request, habit and `marking` unchanged; otherwise one request dated now, the returned habit shown, `marking` ends false |
| HabitDetails.SecondCompletionSameDay | src/pages/HabitDetails.jsx:129-132 | after a recorded completion, a second attempt on the same UTC day sends nothing |
| BrowsePublicHabits.Keeps | src/pages/BrowsePublicHabits.jsx:67-83 | a habit is kept exactly when the term is empty or matches it and the category is 'All' or its own: each filter alone restricts, and passing both keeps the habit |
| BrowsePublicHabits.Filtered | src/pages/BrowsePublicHabits.jsx:67-83 | every shown habit passes the search and category tests, and each passing habit is shown as often as it was loaded |
| BrowsePublicHabits.FilteredKeepsOrder | src/pages/BrowsePublicHabits.jsx:67-83 | the shown list is a subsequence of the loaded list |
| BrowsePublicHabits.KeepsExactly | src/pages/BrowsePublicHabits.jsx:71-81 | a non-empty term keeps a habit exactly when its lowercased title or description includes the lowercased term; a category other than 'All' keeps exactly that category; with both active, a habit is kept exactly when it matches the term and is in the category |
| BrowsePublicHabits.SearchIgnoresCase | src/pages/BrowsePublicHabits.jsx:73-74 | a term and its lowercase form select the same habits |
| BrowsePublicHabits.EmptyTermMatchesAll | src/pages/BrowsePublicHabits.jsx:71 | the empty term matches every habit |
| BrowsePublicHabits.FilterIdempotent | src/pages/BrowsePublicHabits.jsx:67-83 | filtering the shown list again changes nothing |
| BrowsePublicHabits.ClearedShowsAll | src/pages/BrowsePublicHabits.jsx:269-272 | with term '' and category 'All' every loaded habit is shown |
| BrowsePublicHabits.ShowsFiltered | src/pages/BrowsePublicHabits.jsx:67-83 | the handler's two conditional filter steps give exactly `Filtered` |
| BrowsePublicHabits.Find | src/pages/BrowsePublicHabits.jsx:99 | `find` gives the first entry with the name, or None when no entry has it |
| BrowsePublicHabits.CategoryIcon | src/pages/BrowsePublicHabits.jsx:98-101 | the icon of the first button carrying the name; Star when no button carries it |
| BrowsePublicHabits.CategoryGradient | src/pages/BrowsePublicHabits.jsx:103-106 | the gradient of the first button carrying the name; the default when no button carries it |
| BrowsePublicHabits.UnknownCategoryStyle | src/pages/BrowsePublicHabits.jsx:98-106 | an unknown name gets Star and 'from-gray-500 to-slate-500' |
| BrowsePublicHabits.OtherLooksUnknown | src/pages/BrowsePublicHabits.jsx:37 | 'Other' is styled like an unknown category |
| BrowsePublicHabits.LoadFailureMessage | src/pages/BrowsePublicHabits.jsx:57-61 | the cannot-connect notice exactly for ERR_NETWORK, and the generic failed-to-load notice for any other error |
| BrowsePublicHabits.BrowsePage.FilterHabits | src/pages/BrowsePublicHabits.jsx:67-84 | the shown list becomes `Filtered` of the loaded habits and the current filters |
| BrowsePublicHabits.BrowsePage.SetSearchTerm | src/pages/BrowsePublicHabits.jsx:44-46 | the term changes and the shown list follows; the habits and the category are kept |
| BrowsePublicHabits.BrowsePage.SetCategory | src/pages/BrowsePublicHabits.jsx:90-92 | the category changes and the shown list follows; the habits and the term are kept |
| BrowsePublicHabits.BrowsePage.ClearFilters | src/pages/BrowsePublicHabits.jsx:296-298 | after the reset every loaded habit is shown |
| BrowsePublicHabits.BrowsePage.FetchPublicHabits | src/pages/BrowsePublicHabits.jsx:48-65 | a load replaces the habits and leaves the shown list filtered by the unchanged term and category; a failure keeps both lists and gives the classified notice; `loading` ends false |
| BrowsePublicHabits.BrowsePage.Load | src/pages/BrowsePublicHabits.jsx:53-54 | the loaded data becomes the habits and the shown list is that data filtered by the current term and category |
| AxiosSecure.ParseBearer | src/utils/axiosSecure.js:13 | a value read as a bearer credential is the credential of the token read |
| AxiosSecure.BearerRoundTrip | src/utils/axiosSecure.js:13 | reading back the header gives the token |
| AxiosSecure.WellFormedCredentials | src/utils/axiosSecure.js:13 | for a b64token, the header matches the RFC 6750 `credentials` grammar |
| AxiosSecure.AttachToken | src/utils/axiosSecure.js:9-16 | a stored, non-empty token adds `authorization: Bearer <token>` and nothing else; otherwise the request is unchanged |
| AxiosSecure.HandleResponse | src/utils/axiosSecure.js:23-35 | the outcome reaches the caller unchanged; a 401 clears the token and moves to '/login'; other outcomes leave both alone |
| AxiosSecure.Send | src/utils/axiosSecure.js:9-35 | one call through both interceptors |
| AxiosSecure.ExpiredSession | src/utils/axiosSecure.js:28-33 | after a 401, the next request goes out without a credential and the window stays on '/login' |
| AxiosSecure.TokenReadPerRequest | src/utils/axiosSecure.js:11 | a token stored between two calls is the one the second call carries |
| AuthContext.ApiUrl | src/context/AuthContext.jsx:19 | the configured backend when set and not empty, the local default otherwise |
| AuthContext.NameFor | src/context/AuthContext.jsx:22 | the display name when present, otherwise the email |
| AuthContext.AuthProvider.OnAuthStateChanged | src/context/AuthContext.jsx:13-37 | the user is recorded and `loading` ends false; with no email the token is removed and nothing is sent; with one, `{email, name}` is posted and only a truthy token in the reply replaces the stored one |
| AuthContext.SignOutThenIn | src/context/AuthContext.jsx:13-37 | signing out and back in leaves the newly issued token stored |
| PrivateRoute.Decide | src/components/PrivateRoute.jsx:5-26 | spinner exactly while loading; redirect to '/login' from the attempted location, replacing history, exactly when not loading and signed out; the pages exactly when not loading and signed in |
| PrivateRoute.AfterFirstReport | src/components/PrivateRoute.jsx:11-25 | after the auth callback has run, a signed-in user gets the pages and anyone else the redirect |
| ProfileSettings.PhotoRejection | src/pages/ProfileSettings.jsx:22-31 | a file is accepted exactly when its type starts with "image/" and it has at most 5 MiB; the type is checked first |
| ProfileSettings.FiveMiBBoundary | src/pages/ProfileSettings.jsx:28 | exactly 5 MiB is accepted, one byte more is not |
| ProfileSettings.ParseStoragePath | src/pages/ProfileSettings.jsx:54 | a path that parses is the storage path of its parts |
| ProfileSettings.StoragePath | src/pages/ProfileSettings.jsx:54 | the path starts with the photo folder and the user's own folder and ends with the file's name |
| ProfileSettings.StoragePathShape | src/pages/ProfileSettings.jsx:54 | the folder, then `uid/digits_name`, is the storage path of those parts |
| ProfileSettings.StoragePathRoundTrip | src/pages/ProfileSettings.jsx:54 | `profile-photos/<uid>/<time>_<name>` gives back the uid, the time and the name |
| ProfileSettings.ProfileSettingsPage.constructor | src/pages/ProfileSettings.jsx:11-16 | the name and the preview start from the user's profile, '' when missing |
| ProfileSettings.ProfileSettingsPage.HandlePhotoChange | src/pages/ProfileSettings.jsx:18-42 | no file changes nothing; a refused file leaves the choice as it was; an accepted file becomes the choice |
| ProfileSettings.ProfileSettingsPage.HandleRemovePhoto | src/pages/ProfileSettings.jsx:44-47 | the choice is dropped and the preview shows the user's photo, or '' |
| ProfileSettings.ProfileSettingsPage.UploadPhoto | src/pages/ProfileSettings.jsx:49-68 | no file: the current photo address and no upload; otherwise the path is under the user's folder, progress reaches 10, 80 and 100, and every failure gives the upload error |
| ProfileSettings.ProfileSettingsPage.Save | src/pages/ProfileSettings.jsx:78-105 | with no chosen photo the update carries the name and the user's current photo; with one, the path is the user's storage path for the file, a stored upload's address goes into the update, and a failed upload or a missing user stops before any update with progress at 10 (store failed) or 80 (address failed); success clears the choice and the progress and reloads, a failed update does not reload, and `loading` ends false |
| ProfileSettings.ProfileSettingsPage.Submit | src/pages/ProfileSettings.jsx:70-106 | a name that is all white space is refused with nothing changed; otherwise any update carries the trimmed, non-empty name, a chosen photo's stored address reaches the update, its path is the user's storage path, and a failed upload sends no update; success clears the choice and the progress and reloads, a failed update does not reload, and `loading` ends false |
| AddHabit.CategoriesAreBrowsable | src/pages/AddHabit.jsx:22-29 | every category a new habit can take is a filter button on the public browser |
| AddHabit.ImgbbRequest | src/pages/AddHabit.jsx:42-54 | no request without a key; otherwise the upload address ends with the key |
| AddHabit.UploadImageToImgBB | src/pages/AddHabit.jsx:41-61 | None without a key and on failure; with a key, a successful upload gives exactly its hosted address |
| AddHabit.MissingRequired | src/pages/AddHabit.jsx:66-69 | the form is refused exactly when the title, the description or the category is empty |
| AddHabit.ReminderTimeOptional | src/pages/AddHabit.jsx:66-69 | the reminder time never decides whether the form is complete |
| AddHabit.HabitData | src/pages/AddHabit.jsx:84-93 | the form fields as typed, the image address, the owner email, and as owner name the display name when truthy, the email otherwise |
| AddHabit.CreatorOwnsHabit | src/pages/AddHabit.jsx:90 | the stored habit belongs, on the details page, to its creator |
| AddHabit.AddHabitPage.HandleChange | src/pages/AddHabit.jsx:31-33 | only the named field changes |
| AddHabit.AddHabitPage.SelectCategory | src/pages/AddHabit.jsx:199 | only the category changes |
| AddHabit.AddHabitPage.HandleImageChange | src/pages/AddHabit.jsx:35-39 | a picked file replaces the choice; an empty pick keeps it |
| AddHabit.AddHabitPage.Submit | src/pages/AddHabit.jsx:63-118 | an incomplete form, and only that, gives Incomplete and sends and changes nothing; otherwise the image is hosted when chosen and the record is posted; the outcome is Created exactly for a response with a body (which resets the form and the image), NothingReturned exactly for one without, NotCreated for a failed post or no user |
| MyHabits.OfferedCategoriesStyled | src/pages/MyHabits.jsx:42-73 | each offered category has its own icon and gradient |
| MyHabits.CategoryIcon | src/pages/MyHabits.jsx:51-61 | the table's icon for a listed category, Sparkles for any other |
| MyHabits.CategoryGradient | src/pages/MyHabits.jsx:63-73 | the table's gradient for a listed category, 'from-orange-500 to-red-500' for any other |
| MyHabits.UnknownCategoryStyle | src/pages/MyHabits.jsx:60-72 | any other category gets Sparkles and 'from-orange-500 to-red-500' |
| MyHabits.SameStyleAsDetailsPage | src/pages/MyHabits.jsx:51-73 | this page styles the offered categories like the details page, except "Health & Fitness" |
| MyHabits.FetchErrorMessage | src/pages/MyHabits.jsx:86-92 | the network notice exactly for ERR_NETWORK; the session notice exactly for other errors with status 401; the generic notice otherwise |
| MyHabits.HabitsQuery | src/pages/MyHabits.jsx:82 | the path is `/habits?userEmail=` followed by the email, or by "null" when there is none |
| MyHabits.HabitsQueryDistinguishesUsers | src/pages/MyHabits.jsx:82 | two users with emails get the same query exactly when their emails are equal |
| MyHabits.MissingEmailReadsAsNull | src/pages/MyHabits.jsx:82 | a user without an email asks for the same list as one whose email is the text "null" |
| MyHabits.EditForm | src/pages/MyHabits.jsx:111-116 | the dialog starts with the habit's title, description and category, and its reminder time or '' |
| MyHabits.MyHabitsPage.FetchUserHabits | src/pages/MyHabits.jsx:79-96 | the user's query is sent; a load replaces the list; a failure keeps it with the classified notice; `loading` ends false; together, `Reloaded` of the old list |
| MyHabits.MyHabitsPage.MarkComplete | src/pages/MyHabits.jsx:98-107 | the completion request is always sent; success reloads: the user's query goes out, and the list becomes the loaded one or stays with the load's notice; failure changes nothing and sends no reload |
| MyHabits.MyHabitsPage.OpenUpdateModal | src/pages/MyHabits.jsx:109-118 | the habit is selected, the form is its `EditForm`, the dialog opens |
| MyHabits.MyHabitsPage.HandleUpdateChange | src/pages/MyHabits.jsx:120-122 | only the named field changes |
| MyHabits.MyHabitsPage.HandleUpdate | src/pages/MyHabits.jsx:124-135 | the form is sent for the selected habit; success closes the dialog and reloads (query, new list or kept list with the notice); failure or no selection changes nothing and sends no reload; no selection sends nothing |
| MyHabits.MyHabitsPage.OpenDeleteModal | src/pages/MyHabits.jsx:137-140 | the habit is selected and the confirmation opens |
| MyHabits.MyHabitsPage.HandleDelete | src/pages/MyHabits.jsx:142-152 | the delete is sent for the selected habit; success closes the confirmation and reloads (query, new list or kept list with the notice); failure or no selection changes nothing and sends no reload; no selection sends nothing |
| MyHabits.UntouchedEditKeepsFields | src/pages/MyHabits.jsx:109-135 | an untouched edit sends back the habit's title, description and category, and a signed-in user then sees the reloaded list |
| MyHabits.OnlyDetailsPageGuards | src/pages/MyHabits.jsx:98-100 | for a habit completed today, the details page sends nothing and this page still sends the request |
| TestAuth.CodeTextInjective | src/pages/TestAuth.jsx:59-77 | the four explained codes have distinct texts |
| TestAuth.Classify | src/pages/TestAuth.jsx:59-80 | an error is classified as an explained code exactly when it carries that code's text |
| TestAuth.ClassifyKnown | src/pages/TestAuth.jsx:59-77 | each explained code is recognised as itself |
| TestAuth.Diagnose | src/pages/TestAuth.jsx:59-81 | an explained code gets its advice; any other code is its own diagnosis ('Unknown error' when missing or empty), with the generic fix |
| TestAuth.DiagnosesDistinct | src/pages/TestAuth.jsx:60-77 | the four explained codes get four different diagnoses |
| TestAuth.AdviceNotGeneric | src/pages/TestAuth.jsx:60-80 | no explained code gets the generic fix |
| TestAuth.UnknownCodesNeverMisread | src/pages/TestAuth.jsx:78-80 | an unexplained code is never diagnosed as an explained one |
| TestAuth.TestAuthPage.TestGoogleAuth | src/pages/TestAuth.jsx:10-95 | success shows the user's four fields; failure shows the message and code verbatim with their diagnosis; `loading` ends false |

## Left out

- Rendering, animation, toasts and console output. Toast texts appear only where a handler's result is a message.
- Parsing of date strings and invalid dates: completion entries are instants, not the strings the backend sends. `getTodayString` is modelled as the UTC day number rather than its `YYYY-MM-DD` text.
- Floating-point rounding: progress is an exact real number.
- `toLowerCase` beyond ASCII letters (Unicode case mapping), and `parseInt`'s `0x` prefix and precision limits.
- The FileReader preview of a chosen photo: it is asynchronous and only sets the preview.
- Lookups of keys such as `constructor` or `__proto__` inherited by JavaScript object literals.
- Interleaving of asynchronous handlers, and button disabling through `marking`, `loading` and `submitting`. Each handler runs to completion with its replies as inputs, and a reload triggered after a success is run at once.
- `fetchHabitDetails`, navigation and `window.location.reload`. The reload after a profile save is only recorded as a flag.
- Request bodies and URLs beyond the parts the handlers build: no URL encoding of ids or emails, no base URL of the client instance, and no form-data upload body.
- The difference between null and undefined: both are `None`.
- An input name outside the four form fields in `handleChange`.
- Habits whose title or description is null. Here they are always strings, so the search never throws.
- AxiosSecure.AttachToken: the returned config is a new value, whereas the source mutates and returns the same config object, so aliasing of the config is not modelled.
- AxiosSecure: the request interceptor's error branch only passes the rejection on, so it is not modelled separately.
- The identity provider, file storage, image host and backend are outside the model. Their answers are parameters.
