# FlavorAI in Dafny

FlavorAI recommends restaurants from a user's taste profile. The back end
runs a nearby-places search and drops the restaurants the user has already
tried or cannot eat. It asks a language model for a flavor profile per
restaurant and scores each restaurant by how close its five tastes (salty,
umami, spicy, sweet, sour) are to the user's. It returns the best n. Feedback
comments ("too salty", "not sweet enough") nudge the user's tastes. A script
reads a Google Takeout location history and lists the food places visited.
The web and mobile clients hold a login/onboarding guard, an onboarding form,
a taste-profile screen and a filterable recommendations screen.

The model is split by source file:

- `wrappers.dfy` (`Wrappers`): `Option`.
- `seqs.dfy` (`Seqs`): order-preserving subsequences and list filtering, the shared vocabulary of the filters.
- `text.dfy` (`Text`): lower-casing, substring search, `split`/`join`, `strip`/`trim`. It also has the split-strip-drop-blanks chain that Python's `parse_list` and the onboarding form both use.
- `recommend.dfy` (`Recommend`): `backend/app.py`.
  - Functions specify the radius conversion, the result cap, the model's reply, the filters, the similarity score, sorting and `head`.
  - Flavor profiles are attached in place on an array (`AttachFlavorProfiles`).
  - The user profile is a class; `UpdateUserProfile` changes its tastes in place with a loop.
  - The score and the pipeline are methods with loops, each proved equal to its specification function.
- `takeout.dfy` (`Takeout`): `backend/utils/parseTakeoutData.py`. It holds the loop that fills the insertion-ordered `place_ids` dictionary and the loop that reports food places.
- `app_shell.dfy` (`AppShell`): `frontend/src/App.jsx`. It holds the redirect guard and route table as a pure `Render`, and the `App` state as a class that is initialised from and re-synchronised with local storage.
- `onboarding.dfy` (`Onboarding`): `frontend/src/pages/OnboardingPage.jsx`. This covers line parsing, the favourites check and the state changes around the profile request.
- `profile_screen.dfy` (`ProfileScreen`): `frontend/screens/ProfileScreen.js`, the meter percentages and section visibility.
- `recommendations_screen.dfy` (`RecommendationsScreen`): `frontend/screens/ReccomendationsScreen.js`. This covers the cuisine filter, the empty state, the filter bar, the star count and the card toggle.

Effects are parameters:

- The Places search reply is a function from request to reply.
- The language model's reply is a `ModelReply` value.
- The place-details replies are a map from place ID to reply.
- The POST outcome is a boolean.
- The CSV row is a `CsvRow` value.
- Local storage is a `map<string, string>` field.

Python and JavaScript numbers are Dafny `real`s.

## Model

| member | source | states |
|---|---|---|
| Recommend.RadiusMeters | FlavorAI/backend/app.py:85-91 | a radius exists iff the lower-cased unit is km/kilometers/miles/mi; kilometres are multiplied by 1000 and miles by 1609.34 |
| Recommend.RadiusCaseInsensitive | FlavorAI/backend/app.py:85-87 | the unit is read case-insensitively: lower-casing it first gives the same radius |
| Recommend.FindNearbyRestaurants | FlavorAI/backend/app.py:85-107 | at most 20 results; an invalid unit gives [] without a request; a 200 reply gives the first min(20, n) results in order; any other status gives [] |
| Recommend.PromptLines | FlavorAI/backend/app.py:192-202 | the prompt is the fixed header followed by one "- name" line per restaurant, "Unknown" for an unnamed one |
| Recommend.Prompt | FlavorAI/backend/app.py:192-202 | the prompt text, the lines joined by newlines, starts with the fixed header |
| Recommend.PromptEmpty | FlavorAI/backend/app.py:192-202 | with no restaurants the prompt is the header alone |
| Recommend.FirstLineAfterHeader | FlavorAI/backend/app.py:192-202 | the first restaurant's newline-led line starts right after the header |
| Recommend.LineAt | FlavorAI/backend/app.py:199-202 | each restaurant's line "\n- name" ("Unknown" when unnamed) occurs in the prompt at its position |
| Recommend.LinesBackToBack | FlavorAI/backend/app.py:199-202 | each restaurant's line starts where the previous one ends, so the lines follow the restaurants' order with nothing between them |
| Recommend.LastLineEnds | FlavorAI/backend/app.py:199-202 | the prompt ends with the last restaurant's line |
| Recommend.FlavorDict | FlavorAI/backend/app.py:222-235 | profiles are used only from a function call named generate_flavor_profiles; such a call's profiles are used as given; such a call without a profiles argument, a call with another name and a reply without a call all give the empty dictionary |
| Recommend.Attached | FlavorAI/backend/app.py:237-246 | same length and order; each restaurant gets the profile under its name ("" when unnamed), else the 0.5 fallback, and nothing else changes |
| Recommend.AttachedWithoutCall | FlavorAI/backend/app.py:223-244 | without a usable function call every restaurant gets the fallback profile |
| Recommend.AttachFlavorProfiles | FlavorAI/backend/app.py:242-246 | the in-place loop leaves the array equal to the attached list of its old contents |
| Recommend.ParseListShape | FlavorAI/backend/app.py:267-270 | NaN gives []; items are non-empty, stripped and comma-free; they keep the order of the comma pieces; there are no more items than pieces |
| Recommend.ParseListKeepsRepeats | FlavorAI/backend/app.py:267-270 | only blank pieces are dropped: the result is the filter of the stripped comma pieces on non-emptiness, each repeated item kept as often as it occurs |
| Recommend.ParseList | FlavorAI/backend/app.py:267-270 | NaN reads as []; text gives at most one item per comma-separated piece |
| Recommend.ParseListJoin | FlavorAI/backend/app.py:387-389 | a list written back as ", ".join(xs) reads back through parse_list as xs, when the items are non-empty, stripped and comma-free |
| Recommend.FavoriteTastes | FlavorAI/backend/app.py:265 | all five tastes are present, each the row's value, or 0 when the column is missing |
| Recommend.ListOf | FlavorAI/backend/app.py:275-277 | a missing list column reads as the empty list, a present one through parse_list |
| Recommend.UserProfile.FromRow | FlavorAI/backend/app.py:264-278 | the profile holds the row's id, its five tastes and its three parsed lists |
| Recommend.UserProfile.UpdateUserProfile | FlavorAI/backend/app.py:363-374 | the loop replaces the tastes by the adjusted tastes for the comment, keeps all five keys, and leaves the id and the lists unchanged |
| Recommend.Adjusted | FlavorAI/backend/app.py:364-374 | feedback changes no set of keys: the same tastes, each adjusted on its own |
| Recommend.Nudge | FlavorAI/backend/app.py:365-374 | a taste in [0,1] stays in [0,1] and moves by at most 0.1 |
| Recommend.NudgeRule | FlavorAI/backend/app.py:365-374 | "too t" lowers t by 0.1, not below 0, and wins over "not t enough", which raises it by 0.1, not above 1; with neither phrase t is unchanged; [0,1] is preserved |
| Recommend.AdjustedStaysInUnit | FlavorAI/backend/app.py:367-372 | tastes in [0,1] stay in [0,1] after any comment |
| Recommend.AdjustedUnchanged | FlavorAI/backend/app.py:364-374 | a comment naming no taste phrase leaves the tastes unchanged |
| Recommend.FilterTried | FlavorAI/backend/app.py:295 | survivors match no tried name ignoring case; every untried restaurant survives with all its copies, and tried ones with none; input order is kept |
| Recommend.FilterDietary | FlavorAI/backend/app.py:298-299 | for a gluten-free user no survivor's lower-cased name contains "burger"; every other restaurant survives with all its copies; without the restriction the list is unchanged; order is kept |
| Recommend.Similarity | FlavorAI/backend/app.py:323-329 | the score loop over the five tastes, divided by 5, equals the mean closeness SimilarityOf |
| Recommend.SimilarityOf | FlavorAI/backend/app.py:323-329 | the mean closeness over the five tastes is never above 1 |
| Recommend.ScoreSumBounds | FlavorAI/backend/app.py:325-328 | the running sum is at most the number of tastes and, for tastes in [0,1], at least 0; it reaches the maximum iff the two sides agree on every taste summed |
| Recommend.SimilarityBounds | FlavorAI/backend/app.py:323-329 | for tastes in [0,1] on both sides the similarity lies in [0,1] |
| Recommend.SimilarityOneIffEqual | FlavorAI/backend/app.py:323-329 | the similarity is 1 iff user and restaurant agree on all five tastes |
| Recommend.ScoreSumSymmetric | FlavorAI/backend/app.py:325-328 | the score does not depend on which side is the user |
| Recommend.ToRecord | FlavorAI/backend/app.py:306-318 | a record carries all five tastes, each the profile's value or 0 when missing |
| Recommend.Insert | FlavorAI/backend/app.py:332 | inserting a row adds exactly that row to the multiset and one to the length |
| Recommend.InsertSorted | FlavorAI/backend/app.py:332 | inserting into a list sorted in descending order keeps it sorted |
| Recommend.InsertMembers | FlavorAI/backend/app.py:332 | inserting adds the new row and nothing else |
| Recommend.SortBySimilarity | FlavorAI/backend/app.py:332 | sort_values(ascending=False): sorted by descending similarity and a permutation of its input |
| Recommend.Head | FlavorAI/backend/app.py:332 | head(n) is a prefix of min(n, len) rows, or for negative n all rows but the last abs(n) |
| Recommend.TopN | FlavorAI/backend/app.py:332 | sort then head: the result holds rows of the input, none more often than in the input |
| Recommend.TopNSelects | FlavorAI/backend/app.py:332 | the top n are min(n, len) rows of the input, best first, and every row left out scores no higher than every row kept |
| Recommend.TopNShape | FlavorAI/backend/app.py:332 | the top n have min(n, len) rows in descending order of similarity |
| Recommend.TopNFromRows | FlavorAI/backend/app.py:332 | every top-n row is one of the scored rows |
| Recommend.ScoreAll | FlavorAI/backend/app.py:331 | one row per restaurant, in order, each its record scored against the user |
| Recommend.Candidates | FlavorAI/backend/app.py:294-299 | the restaurants left after both filters form a subsequence of the input |
| Recommend.ScoredCandidates | FlavorAI/backend/app.py:302-331 | every scored row is some candidate with its attached profile, scored |
| Recommend.Recommendations | FlavorAI/backend/app.py:302-333 | the recommendations are an error (the ValueError of pandas) exactly when no restaurant is a candidate |
| Recommend.CandidatesSound | FlavorAI/backend/app.py:294-299 | candidates come from the input in order; none was tried, ignoring case; for a gluten-free user none mentions "burger"; every other restaurant is a candidate as often as it occurs in the input |
| Recommend.RecommendationsSound | FlavorAI/backend/app.py:284-333 | for n >= 0: an error exactly when there are no candidates; otherwise min(n, candidates) rows, best first, each a candidate scored with its attached profile |
| Recommend.RecordInUnit | FlavorAI/backend/app.py:312-316 | a profile with tastes in [0,1] gives a record with tastes in [0,1] |
| Recommend.ScoresInUnit | FlavorAI/backend/app.py:323-331 | scoring restaurants whose attached tastes lie in [0,1] against a user in [0,1] gives similarities in [0,1] |
| Recommend.RecommendationsScoresInUnit | FlavorAI/backend/app.py:323-333 | when the user's and the model's tastes lie in [0,1], so does every recommended similarity |
| Recommend.ProfileCandidates | FlavorAI/backend/app.py:302 | the filtered list gets its profiles through the in-place attachment |
| Recommend.BuildRecords | FlavorAI/backend/app.py:305-318 | the records loop builds one record per restaurant, in order |
| Recommend.ScoreRecords | FlavorAI/backend/app.py:331 | the similarity column scores each record with the similarity loop |
| Recommend.GenerateRecommendations | FlavorAI/backend/app.py:294-333 | the step-by-step pipeline returns exactly the specified recommendations for the profile's tastes and restrictions, including the ValueError when no record was built |
| Text.Lower | FlavorAI/backend/app.py:295 | lower-casing keeps the length and lowers each character |
| Text.LowerIdempotent | FlavorAI/backend/app.py:295 | lower-casing twice is lower-casing once |
| Text.ContainsAt | FlavorAI/backend/app.py:365 | substring containment holds iff the phrase occurs at some position |
| Text.Split | FlavorAI/backend/app.py:270 | split gives one more piece than there are separators, and no piece holds the separator |
| Text.JoinSplit | FlavorAI/backend/app.py:270 | joining the split pieces with the separator gives back the text |
| Text.JoinPieceAt | FlavorAI/backend/app.py:202 | in a joined text every piece occurs at its offset |
| Text.JoinSepBefore | FlavorAI/backend/app.py:202 | every piece after the first follows a separator directly |
| Text.OffsetStep | FlavorAI/backend/app.py:202 | the next piece starts after this piece and one separator |
| Text.JoinEnds | FlavorAI/backend/app.py:202 | the last piece ends the joined text |
| Text.Strip | FlavorAI/backend/app.py:270 | the result neither starts nor ends with white space and is no longer than the input |
| Text.StripInfix | FlavorAI/backend/app.py:270 | strip removes white space at the two ends and nothing else |
| Text.StripIdempotent | FlavorAI/backend/app.py:270 | stripping twice is stripping once |
| Text.CleanListShape | FlavorAI/backend/app.py:270 | split-strip-drop-blanks yields non-empty, stripped, separator-free items, in order, no more than the pieces, and is the filter of the stripped pieces on non-emptiness |
| Text.CleanComplete | FlavorAI/backend/app.py:270 | every piece that is not blank survives, stripped |
| Text.CleanCompleteCounts | FlavorAI/backend/app.py:270 | every piece that is not blank survives, stripped, as many times as its stripped form occurs among the pieces |
| Text.CleanIsFilter | FlavorAI/backend/app.py:270 | split-strip-drop-blanks equals filtering the stripped pieces on non-emptiness: order and repeats are kept and only blank pieces go |
| Text.CleanCounts | FlavorAI/backend/app.py:270 | each non-empty stripped piece is kept exactly as often as it occurs; the empty string never is |
| Text.CleanEmpty | FlavorAI/backend/app.py:270 | the cleaned list is empty iff every piece is blank |
| Seqs.Filter | FlavorAI/backend/app.py:295 | a comprehension filter keeps exactly the elements satisfying the condition, each as often as in the input, in order |
| Takeout.PlaceIdOf | FlavorAI/backend/utils/parseTakeoutData.py:28-31 | only a truthy (present, non-empty) place ID is taken |
| Takeout.Collected | FlavorAI/backend/utils/parseTakeoutData.py:26-36 | the dictionary has at most one key per history entry |
| Takeout.CollectPlaces | FlavorAI/backend/utils/parseTakeoutData.py:26-36 | the loop builds exactly the table Collected(data) |
| Takeout.CollectedKeys | FlavorAI/backend/utils/parseTakeoutData.py:26-36 | the table is a well-formed dictionary whose keys are exactly the entries' truthy place IDs, at most one per entry |
| Takeout.CollectedLastWins | FlavorAI/backend/utils/parseTakeoutData.py:31-36 | the value under each key is the start, end and location of that key's last entry |
| Takeout.CollectedFirstOrder | FlavorAI/backend/utils/parseTakeoutData.py:26-36 | keys are ordered by first occurrence; overwriting a key does not move it |
| Takeout.Reported | FlavorAI/backend/utils/parseTakeoutData.py:47-61 | there are never more reports than places in the table |
| Takeout.ReportedIff | FlavorAI/backend/utils/parseTakeoutData.py:47-61 | a place is reported iff its details are "OK" and list a food type, with its stored visit; reports number at most the keys |
| Takeout.ReportedOnce | FlavorAI/backend/utils/parseTakeoutData.py:47 | each place is reported at most once |
| Takeout.ReportRestaurants | FlavorAI/backend/utils/parseTakeoutData.py:47-63 | the report loop yields exactly the specified reports, in table order |
| AppShell.Render | FlavorAI/frontend/src/App.jsx:28-62 | whenever the layout renders, header and footer are present iff the path is not /login |
| AppShell.ProtectedRoute | FlavorAI/frontend/src/App.jsx:46-56 | the protected routes give protected pages only, never at /login or /onboarding |
| AppShell.Route | FlavorAI/frontend/src/App.jsx:43-57 | a protected page is routed only for a truthy user id that is onboarded; the catch-all navigates to "/" |
| AppShell.GuardWithoutUser | FlavorAI/frontend/src/App.jsx:31-33 | with no user id, every path but /login (including /legal) redirects to /login, and /login does not |
| AppShell.GuardBeforeOnboarding | FlavorAI/frontend/src/App.jsx:35-37 | with a user id but not onboarded, every path but /onboarding (including /login) redirects to /onboarding |
| AppShell.ProtectedNeedsOnboardedUser | FlavorAI/frontend/src/App.jsx:46-56 | a protected page is shown iff there is a user id, onboarding is done and a protected route matches |
| AppShell.UnmatchedGoesHome | FlavorAI/frontend/src/App.jsx:57 | for an onboarded user an unmatched path navigates to "/" |
| AppShell.AtMostOneRedirect | FlavorAI/frontend/src/App.jsx:31-57 | from any path at most one redirect or navigation leads to a shown page: there are no loops |
| AppShell.StoredUserId | FlavorAI/frontend/src/App.jsx:67 | the initial user id is the stored one when truthy, else null |
| AppShell.Synced | FlavorAI/frontend/src/App.jsx:71-80 | after the re-check the flag equals storage's 'onboarded' == 'true' and a truthy stored id replaces the state's |
| AppShell.SyncedIdempotent | FlavorAI/frontend/src/App.jsx:71-80 | re-checking twice is the same as once |
| AppShell.InitialStateIsSynced | FlavorAI/frontend/src/App.jsx:67-80 | the initial state already agrees with storage, so the first re-check changes nothing |
| AppShell.App.constructor | FlavorAI/frontend/src/App.jsx:67-68 | the initial onboarded flag is true iff storage holds 'true'; the user id is the stored value or null |
| AppShell.App.SyncFromStorage | FlavorAI/frontend/src/App.jsx:71-80 | the effect sets the state to the synchronised state and leaves storage alone |
| AppShell.App.SetOnboarded | FlavorAI/frontend/src/App.jsx:68 | the setter replaces the onboarded flag and nothing else |
| AppShell.App.SetItem | FlavorAI/frontend/src/pages/OnboardingPage.jsx:58-59 | `localStorage.setItem` overwrites one key of storage and leaves the state and the other keys alone |
| Onboarding.ParseLinesShape | FlavorAI/frontend/src/pages/OnboardingPage.jsx:24-37 | every parsed item is non-empty, trimmed and one line; lines keep their order; no more items than lines |
| Onboarding.ParseLinesComplete | FlavorAI/frontend/src/pages/OnboardingPage.jsx:24-27 | every non-blank line appears, trimmed; the result is the trimmed lines filtered on non-emptiness, so repeated lines are all kept, in order |
| Onboarding.ParseLinesEmpty | FlavorAI/frontend/src/pages/OnboardingPage.jsx:24-42 | parsing yields nothing, and so triggers the error, iff every line is blank |
| Onboarding.ParseSingleLine | FlavorAI/frontend/src/pages/OnboardingPage.jsx:24-27 | a single non-blank line parses to that line, trimmed |
| Onboarding.ParseLines | FlavorAI/frontend/src/pages/OnboardingPage.jsx:24-37 | the parse gives at most one item per line |
| Onboarding.OnlyFavoritesRequired | FlavorAI/frontend/src/pages/OnboardingPage.jsx:39-52 | blank restrictions and allergies still give a body with non-empty favourites and empty lists |
| Onboarding.BodyFor | FlavorAI/frontend/src/pages/OnboardingPage.jsx:48-52 | each list of the request body has at most one item per line of its text area |
| Onboarding.FormUserId | FlavorAI/frontend/src/pages/OnboardingPage.jsx:11-12 | the form uses the stored user id when truthy, else "testUser"; never empty |
| Onboarding.OnboardingForm.constructor | FlavorAI/frontend/src/pages/OnboardingPage.jsx:11-19 | the form starts with that id, no error, not loading, no requests, no navigation |
| Onboarding.OnboardingForm.HandleSubmit | FlavorAI/frontend/src/pages/OnboardingPage.jsx:21-72 | empty favourites: the error is set and nothing else changes. Otherwise one POST to /onboarding/id carries exactly the parsed lists and loading ends false. On success storage and the flag are set, the error is cleared and /dashboard is the target. On failure the error is set and storage and the flag are unchanged |
| Onboarding.SuccessReachesHome | FlavorAI/frontend/src/pages/OnboardingPage.jsx:58-65 | after success the re-synchronised app state passes the guard; /dashboard has no route and falls through to the home page |
| ProfileScreen.PercentageTable | FlavorAI/frontend/screens/ProfileScreen.js:10-21 | each of the seven labels maps to its fixed value; anything else, undefined included, maps to 50 |
| ProfileScreen.Percentage | FlavorAI/frontend/screens/ProfileScreen.js:10-21 | every value maps to one of the seven level widths |
| ProfileScreen.PercentageIncreasing | FlavorAI/frontend/screens/ProfileScreen.js:11-19 | the mapping is strictly increasing along the label order |
| ProfileScreen.PercentageBounds | FlavorAI/frontend/screens/ProfileScreen.js:10-21 | every value maps into [10, 95] |
| ProfileScreen.MetersInRange | FlavorAI/frontend/screens/ProfileScreen.js:110-144 | every meter on the screen has a width in [10, 95] |
| ProfileScreen.Screen | FlavorAI/frontend/screens/ProfileScreen.js:71-220 | no profile renders exactly the upload prompt; a profile renders 4 to 7 sections from the header to the actions |
| ProfileScreen.NoProfileOnlyPrompt | FlavorAI/frontend/screens/ProfileScreen.js:71-87 | without a profile only the upload prompt renders; with one the prompt never does |
| ProfileScreen.DietaryShownIff | FlavorAI/frontend/screens/ProfileScreen.js:164 | the dietary section appears iff the restrictions list exists and is non-empty |
| ProfileScreen.FrequentShownIff | FlavorAI/frontend/screens/ProfileScreen.js:182 | the frequently-ordered section appears iff the list exists, even when empty |
| ProfileScreen.VisitsShownIff | FlavorAI/frontend/screens/ProfileScreen.js:200 | the visit-patterns section appears iff the visit frequencies exist |
| RecommendationsScreen.Shown | FlavorAI/frontend/screens/ReccomendationsScreen.js:123-125 | 'All' shows the list unchanged; any other filter shows only that cuisine, every card of it as often as it occurs, in the original order |
| RecommendationsScreen.BodyFor | FlavorAI/frontend/screens/ReccomendationsScreen.js:158-184 | cards are shown only when there is at least one, taken in order from the recommendations; under 'All' a non-empty list is shown whole |
| RecommendationsScreen.EmptyStateRule | FlavorAI/frontend/screens/ReccomendationsScreen.js:158-184 | the "No recommendations found" panel replaces the cards iff nothing is shown; its reset button appears iff the filter is not 'All' |
| RecommendationsScreen.EmptyOnlyWithoutRecommendations | FlavorAI/frontend/screens/ReccomendationsScreen.js:158-177 | under 'All' the panel appears iff there are no recommendations, and without the reset button |
| RecommendationsScreen.Buttons | FlavorAI/frontend/screens/ReccomendationsScreen.js:147-154 | one button per filter, in order, marked iff it is the active filter |
| RecommendationsScreen.ExactlyOneActive | FlavorAI/frontend/screens/ReccomendationsScreen.js:147-153 | for an active filter from the list exactly one button is marked, and it is that filter's |
| RecommendationsScreen.FilterState.constructor | FlavorAI/frontend/screens/ReccomendationsScreen.js:117 | the active filter starts as 'All' |
| RecommendationsScreen.FilterState.Press | FlavorAI/frontend/screens/ReccomendationsScreen.js:152 | the active filter is the last one pressed |
| RecommendationsScreen.FilterState.ShowAll | FlavorAI/frontend/screens/ReccomendationsScreen.js:180 | the reset button sets the filter back to 'All' |
| RecommendationsScreen.StarsFor | FlavorAI/frontend/screens/ReccomendationsScreen.js:36-41 | the star row fails with a RangeError iff floor(rating) is negative or exceeds the largest array length |
| RecommendationsScreen.StarsRoundHalfUp | FlavorAI/frontend/screens/ReccomendationsScreen.js:36-41 | otherwise the count is floor(rating) plus one for a fraction >= 0.5: the rating rounded half up, within one half of it |
| RecommendationsScreen.Card.constructor | FlavorAI/frontend/screens/ReccomendationsScreen.js:9 | a card starts collapsed |
| RecommendationsScreen.Card.Toggle | FlavorAI/frontend/screens/ReccomendationsScreen.js:70 | pressing the toggle flips the expanded state |

## Left out

- Network, device and file effects are not modelled as effects; their results are parameters. This covers the Places search, the place-details request, the language-model call, the GPS callback and its timeout loop, the CSV read and write, the JSON file read, `print`, `time.sleep`, `input()` in `push_feedback`, the POST and `console.error`.
- `get_reviews`, `get_geolocation`, `push_feedback` and `main` in `backend/app.py` are I/O drivers and are not modelled.
- `update_user_profile`'s CSV write-back (back end) is not modelled as a file update. Only the round trip of its list columns through `parse_list` is proved (`ParseListJoin`).
- `backend/appService.py`, `frontend/utils/DataProcessor.js` and `frontend/context/TasteProfileContext.js` are not part of this model. The service routes call functions with other signatures or that do not exist. The other two return constants.
- Text.Lower and Text.Strip: only ASCII letters are lower-cased, and only space, tab, newline, carriage return, vertical tab and form feed count as white space. Python's `lower`/`strip` and JavaScript's `trim` are Unicode-aware.
- Numbers are exact reals. Floating-point rounding of `0.1`, `1609.34` and the division by 5 is not modelled. NaN in a numeric CSV cell and non-numeric JSON values are not modelled.
- Recommend.SortBySimilarity: pandas' `sort_values` does not fix the order of equal scores. The model uses a stable insertion sort, and only sortedness, permutation and top-n selection are claimed.
- Recommend.AttachFlavorProfiles: the source also mutates the caller's restaurant dictionaries through aliasing. The model updates only the list it is given.
- A JSON `null` for a key that is present (e.g. `"name": null`, which makes `.lower()` raise) is not modelled; a missing key and a null are both `None`.
- A place-details reply with status "OK" but no `result` key (a `KeyError` in the source) is not modelled. A failed request is a missing map entry.
- Recommend.UserProfile.UpdateUserProfile: the `favorability` argument is accepted and, as in the source, not used.
- AppShell.Render: React Router's case-insensitive matching and trailing-slash tolerance are not modelled. Paths match exactly, and `:id` is one non-empty segment without a slash.
- Recommend.GenerateRecommendations: the default `n=3` of the Python signature is not modelled; the caller always passes `n`.
- Recommend.FlavorDict: a reply with no candidate at all (an `IndexError` at `response.candidates[0]`) is not modelled; the reply always has a first part.
- The recommendation card's "Show more"/"Show less" label and its top-dishes list are rendering and are not modelled; only the expanded flag that drives them is (`RecommendationsScreen.Card`).
- Onboarding.OnboardingForm.HandleSubmit: the intermediate `loading = true` state while the POST is pending is not observable in the model. Only the state after the handler finishes is stated.
- The rendering of headers, icons, texts and styles on the screens is not modelled, only the conditions and values listed above.
