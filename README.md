# Relocation matrix: scoring engine, session state and profile list

This project models the core of the relocation matrix, a web page that ranks cities by weighted criteria:

- **The scoring engine.** For every weight entry, in the order `Object.entries` visits them, it takes the
  city's raw score on that criterion. An absent or zero score counts as 5. It multiplies that by the
  nationality multiplier, which is 1.0 when the table has no entry. It multiplies by the weight and by 10
  for the four super-weighted criteria, then divides by 10. The sum is rounded with `Math.round` to give the
  score. The same unrounded sum gives a match percentage against a maximum of 1000, clamped to 0..100. A
  breakdown line is pushed for every entry.
- **The ranking.** Every catalog city is scored, and the list is sorted by descending score. The sort is
  stable, so equal scores keep catalog order. The comparison panel shows the ranked cities whose names are
  selected.
- **The screen's state.** It holds the weights, the selected cities, salary, nationality, whether the profile
  list is open, and a refresh counter. Each handler changes only the fields it names, and each keeps
  every criterion to one weight entry.
- **The helpers.** These are a second copy of the score formula without nationality, a match percentage
  against 590 that is not rounded, percentage formatting, the e-mail and password checks, the initial
  weights and the criterion labels.
- **The saved-profile list.** These are the updates applied once the datastore has answered: prepend on
  create, replace by id on update, filter by id on delete, and recording of the error message on any
  failure. There is also the share link, `origin + "/shared/" + "share_" + random`.

Numbers are exact reals. A JavaScript object with number values is a sequence of entries in insertion
order (`JsObject.Record`): the order matters because the loop and the breakdown follow it. A spread update
keeps an existing key in its place and appends a new one. Lookups that only read are Dafny maps: the city
criteria and the multiplier table. The sort is modelled as the stable insertion sort it must agree with.
The model proves that this sort is the only sorted arrangement with the same per-score order
(`MatrixRanking.SortUnique`).

Toggling a city twice does not always restore the selection. When the city was already selected, the
second toggle moves it to the end (`MatrixSession.ToggleTwicePresent`, `MatrixSession.ToggleTwiceReorders`).
Only the set of selected names is always restored.

Modules: `Wrappers` (Option), `JsMath` (`Math.round`, clamp), `JsObject` (ordered records),
`MatrixScoring`, `MatrixRanking`, `MatrixSession` (class `Session`), `Utils`, `Email`, and `Profiles`
(class `ProfilesState`).

## Model

| member | source | states |
|---|---|---|
| JsMath.Round | src/components/Matrix/Matrix.tsx:121 | `Math.round(x)` is the integer n with x - 1/2 < n <= x + 1/2 (halves go up) |
| JsMath.RoundMonotone | src/components/Matrix/Matrix.tsx:121 | a larger exact sum never rounds to a smaller score |
| JsMath.Clamp | src/components/Matrix/Matrix.tsx:122 | `Math.max(lo, Math.min(hi, x))` lies in [lo, hi], is x inside it and the nearer bound outside |
| JsObject.Keys | src/components/Matrix/Matrix.tsx:99 | `Object.entries` yields one key per entry, in entry order |
| JsObject.Get | src/components/Matrix/Matrix.tsx:129-134 | a lookup is undefined exactly when the key is absent, and otherwise is the value of an entry with that key |
| JsObject.Put | src/components/Matrix/Matrix.tsx:130-133 | the spread update keeps the length when the key exists and grows it by one otherwise |
| JsObject.PutGet | src/components/Matrix/Matrix.tsx:130-133 | after `{...prev, [k]: v}`, k reads v and every other key reads what it read before |
| JsObject.PutShape | src/components/Matrix/Matrix.tsx:130-133 | an existing key keeps the key order; a new key is appended last and nothing else moves |
| JsObject.PutDistinct | src/components/Matrix/Matrix.tsx:130-133 | a spread update never introduces a repeated key |
| JsObject.PutExisting | src/components/Matrix/Matrix.tsx:130-133 | updating an existing key rewrites exactly the one entry that holds it |
| MatrixScoring.NationalityMultiplier | src/components/Matrix/Matrix.tsx:88-90 | the multiplier is the table entry when the row and the criterion are present; it is 1.0 when the nationality has no row or its row lacks the criterion; it is positive for a positive table |
| MatrixScoring.RowlessNationalities | src/components/Matrix/Matrix.tsx:34-63 | "CA", "AU" and "Other" get 1.0 on every criterion |
| MatrixScoring.OfferedNationalities | src/components/Matrix/Matrix.tsx:62-63 | the selector offers the default nationality and every nationality with a multiplier row; of those it offers, exactly "CA", "AU" and "Other" have no row |
| MatrixScoring.MultipliersPositive | src/components/Matrix/Matrix.tsx:34-60 | every multiplier in the table is positive |
| MatrixScoring.CareerMultiplierNeutral | src/components/Matrix/Matrix.tsx:34-60 | no nationality has a multiplier for career opportunities |
| MatrixScoring.RawScore | src/components/Matrix/Matrix.tsx:100 | the raw score is the stored value when present and non-zero, and otherwise 5; never 0 |
| MatrixScoring.DefaultNeutrality | src/components/Matrix/Matrix.tsx:100 | an absent raw score, a 0 and a 5 give a city the same exact score |
| MatrixScoring.SuperFactor | src/components/Matrix/Matrix.tsx:101-102 | none of its own: 10 for the four super-weighted criteria, else 1; its effect is stated by RawScoreSensitivity and CareerGapAt |
| MatrixScoring.Contribution | src/components/Matrix/Matrix.tsx:100-105 | none of its own: raw × multiplier × weight × super factor / 10; its properties are in SameRawSameContribution, WeightDifference, ContributionMonotone and ScoreEntry |
| MatrixScoring.UnroundedScore | src/components/Matrix/Matrix.tsx:96-107 | none of its own: the contributions summed in entry order; its properties are in ScoreCity, SameRawSameScore, UnweightedCriterionIgnored and SingleCriterionEffect |
| MatrixScoring.Line | src/components/Matrix/Matrix.tsx:104-113 | the pushed line names the entry's key and weight, carries the nationality multiplier of that key, and its score is the raw score times that multiplier |
| MatrixScoring.Details | src/components/Matrix/Matrix.tsx:108-113 | the breakdown has one line per weight entry, in entry order; line i is the line of entry i: its key, its weight, the multiplier of its key and the raw score times that multiplier |
| MatrixScoring.MatchPercent | src/components/Matrix/Matrix.tsx:116-122 | lies in [0, 100]; equals round(sum / 1000 * 100) when that is in range, and the nearer bound otherwise |
| MatrixScoring.Scored | src/components/Matrix/Matrix.tsx:119-124 | the scored city keeps rank, name, country, emoji and criteria; its score is `Math.round` of the exact sum; its match is the match percentage of that same exact sum, in [0, 100]; its breakdown is the per-entry breakdown, one line per weight |
| MatrixScoring.ScoreEntry | src/components/Matrix/Matrix.tsx:100-113 | one iteration adds the entry's contribution (raw × multiplier × weight × super factor / 10) and pushes its breakdown line |
| MatrixScoring.ScoreCity | src/components/Matrix/Matrix.tsx:96-124 | the accumulating loop yields exactly the scored city: the ordered sum of the contributions, rounded, with its breakdown |
| MatrixScoring.SameRawSameContribution | src/components/Matrix/Matrix.tsx:100-105 | equal raw scores on a key give equal contributions |
| MatrixScoring.SameRawSameScore | src/components/Matrix/Matrix.tsx:99-107 | cities with the same raw scores on every weighted key get the same exact score |
| MatrixScoring.UnweightedCriterionIgnored | src/components/Matrix/Matrix.tsx:99-107 | a criterion that is not among the weight keys has no effect on the score |
| MatrixScoring.SingleCriterionEffect | src/components/Matrix/Matrix.tsx:99-107 | cities differing on one weighted criterion differ in exact score by the difference of its two contributions |
| MatrixScoring.RawScoreSensitivity | src/components/Matrix/Matrix.tsx:99-107 | that difference is (raw1 - raw2) × multiplier × weight × super factor / 10, so a super-weighted criterion moves the score ten times as far |
| MatrixScoring.SingleWeightEffect | src/components/Matrix/Matrix.tsx:99-107 | weight lists differing in one entry's value give exact scores differing by the difference of that entry's contributions |
| MatrixScoring.WeightDifference | src/components/Matrix/Matrix.tsx:105 | changing a weight from v2 to v1 changes its contribution by (v1 - v2) × raw × multiplier × super factor / 10 |
| MatrixScoring.WeightSensitivity | src/components/Matrix/Matrix.tsx:99-107 | after setting an existing weight from prev to v, the exact score moves by (v - prev) × raw × multiplier × super factor / 10 |
| MatrixScoring.ContributionMonotone | src/components/Matrix/Matrix.tsx:105 | with a positive raw score and positive multipliers, a larger weight never gives a smaller contribution |
| MatrixScoring.WeightMonotone | src/components/Matrix/Matrix.tsx:99-107 | raising one weight never lowers a city's exact score, when its raw score and the multipliers are positive |
| MatrixScoring.WeightMonotoneScore | src/components/Matrix/Matrix.tsx:121 | the same holds for the rounded score |
| MatrixScoring.DefaultWeightsDistinct | src/components/Matrix/Matrix.tsx:11-29 | the default weights name each criterion once |
| MatrixScoring.DefaultCareerWeight | src/components/Matrix/Matrix.tsx:27 | career opportunities starts with weight 10 |
| MatrixScoring.CareerGapAt | src/components/Matrix/Matrix.tsx:99-121 | with career opportunities weighted 10, two cities alike except for a 10 against a 1 there are exactly 90 score points apart, for any nationality |
| MatrixScoring.CareerGap | src/components/Matrix/Matrix.tsx:11-29 | the same under the default weights |
| MatrixRanking.SortSorted | src/components/Matrix/Matrix.tsx:126 | the sorted list is non-increasing in score |
| MatrixRanking.SortPermutation | src/components/Matrix/Matrix.tsx:126 | the sorted list is a permutation of its input |
| MatrixRanking.SortStable | src/components/Matrix/Matrix.tsx:126 | the cities of each score keep their input order |
| MatrixRanking.SortUnique | src/components/Matrix/Matrix.tsx:126 | any list that is sorted by score and keeps each score's input order is the sorted list |
| MatrixRanking.SortByScore | src/components/Matrix/Matrix.tsx:126 | keeps the length; its other properties are in SortSorted, SortPermutation, SortStable and SortUnique |
| MatrixRanking.ScoreAll | src/components/Matrix/Matrix.tsx:94-125 | the mapped list has one scored city per catalog city, in catalog order |
| MatrixRanking.RankCities | src/components/Matrix/Matrix.tsx:93-127 | the ranking is sorted by score, a permutation of the scored catalog, and stable; every entry is a catalog city scored with its own fields copied |
| MatrixRanking.Compared | src/components/Matrix/Matrix.tsx:341-342 | never longer than the ranking; its properties are in ComparedMembers, ComparedSorted, ComparedWithScore and ComparedSelectionOrder |
| MatrixRanking.ComparedMembers | src/components/Matrix/Matrix.tsx:341-342 | a city is compared exactly when it is ranked and its name is selected |
| MatrixRanking.ComparedSorted | src/components/Matrix/Matrix.tsx:341-342 | the comparison panel is in ranked order, best first |
| MatrixRanking.ComparedWithScore | src/components/Matrix/Matrix.tsx:341-342 | the panel's cities of any one score are the ranking's cities of that score filtered by the selection, so ties keep the ranking's order |
| MatrixRanking.ComparedAppend | src/components/Matrix/Matrix.tsx:341-342 | the panel's filter distributes over a split of the ranking |
| MatrixRanking.ComparedSelectionOrder | src/components/Matrix/Matrix.tsx:341-342 | the order of the selection plays no part in the panel |
| MatrixSession.WithoutMembers | src/components/Matrix/Matrix.tsx:138 | the filter drops exactly the toggled name |
| MatrixSession.Without | src/components/Matrix/Matrix.tsx:138 | never longer than the list; its properties are in WithoutMembers, WithoutAbsent and WithoutNoDuplicates |
| MatrixSession.Toggle | src/components/Matrix/Matrix.tsx:136-140 | none of its own: filter when selected, append otherwise; its properties are in the ToggleMembers to ToggleTwiceReorders rows |
| MatrixSession.ToggleMembers | src/components/Matrix/Matrix.tsx:136-140 | a toggle flips whether the name is selected and leaves every other name as it was |
| MatrixSession.ToggleNoDuplicates | src/components/Matrix/Matrix.tsx:136-140 | a selection without duplicates stays without duplicates |
| MatrixSession.ToggleTwiceAbsent | src/components/Matrix/Matrix.tsx:136-140 | selecting an unselected city and deselecting it restores the selection exactly |
| MatrixSession.ToggleTwicePresent | src/components/Matrix/Matrix.tsx:136-140 | deselecting a selected city and selecting it again moves it to the end |
| MatrixSession.ToggleTwiceSameMembers | src/components/Matrix/Matrix.tsx:136-140 | toggling twice always restores the set of selected names |
| MatrixSession.ToggleTwiceReorders | src/components/Matrix/Matrix.tsx:136-140 | toggling "a" twice in ["a", "b"] gives ["b", "a"], so the order is not always restored |
| MatrixSession.Session.Valid | src/components/Matrix/Matrix.tsx:129-134 | none of its own: no criterion has two weight entries, so a lookup reads the weight the user set; every handler keeps it |
| MatrixSession.WeightChangeMovesScores | src/components/Matrix/Matrix.tsx:129-134 | on weights without a repeated key, changing an existing weight from prev to v moves every city's exact score by (v - prev) × raw × multiplier × super factor / 10 |
| MatrixSession.Session.constructor | src/components/Matrix/Matrix.tsx:80-85 | the screen starts with the default weights, no selection, salary 100000, nationality "US", the profile list closed and counter 0; it starts valid: no criterion has two weights |
| MatrixSession.Session.HandleWeightChange | src/components/Matrix/Matrix.tsx:129-134 | sets the one weight, every other key reads as before, and no other field changes; it keeps every criterion to one weight; when the key already had a weight, every city's exact score moves by (new - old weight) × raw × multiplier × super factor / 10 |
| MatrixSession.Session.HandleCityToggle | src/components/Matrix/Matrix.tsx:136-140 | the selection is toggled and no other field changes; the screen stays valid |
| MatrixSession.Session.HandleLoadProfile | src/components/Matrix/Matrix.tsx:144-150 | takes weights, cities and salary; takes the nationality only when it is given and non-empty; closes the profile list; loaded weights without a repeated key leave the screen valid |
| MatrixSession.Session.HandleProfileSaved | src/components/Matrix/Matrix.tsx:152-154 | bumps the refresh counter by one and changes nothing else; the screen stays valid |
| MatrixSession.Session.ToggleShowProfiles | src/components/Matrix/Matrix.tsx:167 | opens or closes the profile list and changes nothing else; the screen stays valid |
| MatrixSession.Session.SetNationality | src/components/Matrix/Matrix.tsx:206 | sets the nationality and changes nothing else; the screen stays valid |
| MatrixSession.Session.SetSalary | src/components/Matrix/Matrix.tsx:272 | sets the salary to the integer read from the field and changes nothing else; the screen stays valid |
| MatrixSession.Session.View | src/components/Matrix/Matrix.tsx:341-342 | the ranking for the current weights and nationality, and the panel of its selected cities; the panel is exactly the ranking filtered by the selection, so it is sorted, keeps the ranking's order among ties, and holds a city exactly when it is ranked and selected |
| Utils.CalculateScore | src/lib/utils.ts:17-32 | the loop returns `Math.round` of the ordered sum of raw × weight × super factor / 10 |
| Utils.SameSuperWeighted | src/lib/utils.ts:22 | the helper lists the same super-weighted criteria as the matrix |
| Utils.TermIsContribution | src/lib/utils.ts:24-29 | without a multiplier row, a term of the helper equals the matrix's contribution |
| Utils.Term | src/lib/utils.ts:24-27 | none of its own: raw × weight × super factor / 10; TermIsContribution relates it to the matrix |
| Utils.ScoreSum | src/lib/utils.ts:17-32 | none of its own: the terms summed in entry order; ScoreSumIsMatrixScore relates it to the matrix |
| Utils.ScoreSumIsMatrixScore | src/lib/utils.ts:17-32 | for a nationality without a multiplier row, the helper's sum is the matrix's exact score |
| Utils.CalculateScoreMatchesMatrix | src/lib/utils.ts:17-32 | for "CA", "AU" and "Other" the helper and the matrix give a city the same score |
| Utils.CalculateMatchPercent | src/lib/utils.ts:34-37 | score / maxScore × 100 clamped into [0, 100], and not rounded; against a zero maximum, 100 for a positive score and 0 for a negative one |
| Utils.MatchPercentMonotone | src/lib/utils.ts:34-37 | against a positive maximum, a higher score never gets a lower match |
| Utils.DefaultMatchPercent | src/lib/utils.ts:34 | against the default 590, 590 and more is 100, 0 and less is 0, and 295 is 50 |
| Utils.NatToDecimal | src/lib/utils.ts:14 | the decimal text of a number is non-empty digits without a leading zero |
| Utils.DecimalRoundTrip | src/lib/utils.ts:14 | reading the decimal text back gives the number |
| Utils.IntRoundTrip | src/lib/utils.ts:14 | a signed integer's text followed by '%' reads back as that integer |
| Utils.FormatParse | src/lib/utils.ts:13-15 | `formatPercentage(v)` names exactly `Math.round(v)` |
| Utils.FormatPercentage | src/lib/utils.ts:13-15 | none of its own: the decimal text of `Math.round(v)` followed by '%'; FormatParse states what it names |
| Utils.ValidatePassword | src/lib/utils.ts:65-67 | accepts exactly the passwords of at least six characters |
| Utils.InitialWeightsShape | src/lib/utils.ts:73-91 | the initial weights equal the matrix defaults: the seventeen criteria once each, the four super-weighted ones at 10, and `tech_salaries` at 10 although it is standard |
| Utils.GetInitialWeights | src/lib/utils.ts:73-91 | none of its own: the literal list; InitialWeightsShape states what it holds |
| Utils.GetCriteriaLabel | src/lib/utils.ts:93-114 | a key without a label is returned unchanged |
| Utils.LabelsCoverCriteria | src/lib/utils.ts:93-114 | exactly the seventeen criteria have labels, and each gets its own label rather than its key |
| Email.ValidEmailHasShape | src/lib/utils.ts:60-63 | every accepted address is local part, '@', name, '.', suffix, each non-empty and free of whitespace and '@' |
| Email.ValidateEmail | src/lib/utils.ts:60-63 | none of its own: the regular expression as a scan; ValidateEmailMatchesShape states what it accepts |
| Email.ShapeIsValidEmail | src/lib/utils.ts:60-63 | every string of that shape is accepted |
| Email.ValidateEmailMatchesShape | src/lib/utils.ts:60-63 | the check accepts exactly the strings of that shape |
| Email.ValidEmailSingleAt | src/lib/utils.ts:60-63 | an accepted address holds exactly one '@' |
| Email.EmailExampleAccepted | src/lib/utils.ts:60-63 | "ann@example.com" is accepted |
| Email.EmailExampleNoDot | src/lib/utils.ts:60-63 | "ann@example" is refused |
| Email.EmailExampleNoLocalPart | src/lib/utils.ts:60-63 | "@example.com" is refused |
| Profiles.ErrorText | src/hooks/useProfiles.ts:49 | the message of an `Error`, otherwise the operation's fallback text |
| Profiles.ReplaceById | src/hooks/useProfiles.ts:105 | the update keeps the list's length |
| Profiles.ReplaceByIdEntries | src/hooks/useProfiles.ts:105 | the entries with the id become the returned row and every other entry is unchanged |
| Profiles.ReplaceMissingId | src/hooks/useProfiles.ts:105 | updating an id that no profile carries changes nothing |
| Profiles.RemoveByIdMembers | src/hooks/useProfiles.ts:126 | the delete keeps exactly the profiles with another id |
| Profiles.RemoveById | src/hooks/useProfiles.ts:126 | never longer than the list; its properties are in the RemoveById rows below |
| Profiles.RemoveByIdCount | src/hooks/useProfiles.ts:126 | the delete removes one entry per profile with the id and leaves none behind |
| Profiles.RemoveMissingId | src/hooks/useProfiles.ts:126 | deleting an id that no profile carries changes nothing |
| Profiles.RemoveByIdIdempotent | src/hooks/useProfiles.ts:126 | deleting twice is deleting once |
| Profiles.RemoveByIdAppend | src/hooks/useProfiles.ts:126 | the delete distributes over a split of the list, so the others keep their relative order |
| Profiles.ShareToken | src/hooks/useProfiles.ts:139 | the token is "share_" followed by the random part |
| Profiles.ShareUrlParts | src/hooks/useProfiles.ts:152 | the link is the origin, then "/shared/", then the token, which starts with "share_" |
| Profiles.ShareUrl | src/hooks/useProfiles.ts:152 | none of its own: origin + "/shared/" + token; ShareUrlParts states its parts |
| Profiles.ProfilesState.constructor | src/hooks/useProfiles.ts:23-27 | the list starts empty, not loading and without error |
| Profiles.ProfilesState.SignedIn | src/hooks/useProfiles.ts:31 | none of its own: whether a user id is present; the operations below state what happens without one |
| Profiles.ProfilesState.BeginFetch | src/hooks/useProfiles.ts:31-32 | without a user nothing changes; otherwise loading starts |
| Profiles.ProfilesState.CompleteFetch | src/hooks/useProfiles.ts:40-51 | loading ends; on success the list becomes the rows (none for null) and an earlier error stays; on failure the list stays and the error is recorded |
| Profiles.ProfilesState.FetchProfiles | src/hooks/useProfiles.ts:30-53 | without a user nothing changes; otherwise the two halves above, in order |
| Profiles.ProfilesState.CreateProfile | src/hooks/useProfiles.ts:56-89 | without a user nothing changes; on success the row is prepended and returned; on failure the list stays and the error is recorded |
| Profiles.ProfilesState.UpdateProfile | src/hooks/useProfiles.ts:92-116 | on success the profiles with the id become the row, which is returned; on failure the list stays and the error is recorded |
| Profiles.ProfilesState.DeleteProfile | src/hooks/useProfiles.ts:119-134 | on success the profiles with the id leave the list; on failure the list stays and the error is recorded |
| Profiles.ProfilesState.CreateShareLink | src/hooks/useProfiles.ts:137-159 | on success returns origin + "/shared/" + "share_" + random part; on failure returns nothing and records the error; the list never changes |
| Profiles.ProfilesState.FetchSharedProfile | src/hooks/useProfiles.ts:162-178 | on success returns the shared profile; on failure records the error; the list never changes |

## Left out

- Floating point: all arithmetic is exact. Double-precision rounding, NaN and Infinity are not modelled, nor the `.5` cases in which a double sum would round differently.
- Utils.CalculateMatchPercent: requires that `maxScore` and `score` are not both 0. The source yields NaN for 0 / 0, and reals have no NaN. The other division by zero is modelled by its clamped result; the sign of a negative zero is not modelled.
- Utils.FormatPercentage: writes every integer in plain decimal. JavaScript switches to exponent notation from 1e21 upward, which is not modelled.
- Utils.ValidatePassword: counts characters, whereas `length` counts UTF-16 code units. A password with characters outside the basic plane may therefore be accepted by the source with fewer than six characters.
- Utils.GetCriteriaLabel: property names inherited from `Object.prototype`, such as "constructor", are not modelled. In the source they find a function rather than a missing label.
- Object key order: the records keep insertion order. JavaScript lists integer-like keys first, but no criterion key is integer-like.
- MatrixSession.Session.SetSalary: takes the integer `parseInt` returns. The salary itself is a number (a real), as is a loaded profile's `salary_usd`. `parseInt` of the field's text, and its NaN for text that is not a number, are not modelled.
- The cities fixture is not part of this model: the catalog is a parameter of the ranking.
- The multiplier table is a parameter of the engine. The screen always passes the matrix's own table (`MatrixSession.Session.View`).
- The datastore (requests, `async`/`await`, authentication) is not modelled. Each profile operation takes the datastore's answer as a parameter. What is sent (the inserted row, the update payload, the share row) reaches only the datastore and is not modelled.
- Interleaving of concurrent requests is not modelled. Each operation applies its state update at once; only `fetchProfiles` is split into its two updates.
- `Math.random` is not modelled: the random part of the share token is a parameter. So is `window.location.origin`.
- The slider ranges, the JSX rendering, `debounce`, `copyToClipboard`, `formatCurrency` and `generateShareToken` are not modelled. They are presentation, timers, the clipboard, `Intl` or randomness.
