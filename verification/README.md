# Suzhou Museum visitor guide — a Dafny model

The Suzhou Museum guide is a Next.js web app with a set of Python scripts
that prepare its data. Visitors pick a nickname and answer a short
questionnaire. They get recommendations from the collection and browse it by
dynasty. They mark favorites during the visit and take a review quiz on those
favorites afterwards. An AI chat guide answers in the visitor's language.

The scripts turn a collection spreadsheet into the artifact and quiz files.
They clean the data, repair duplicate names and missing quizzes, tag
artifacts with the Chinese zodiac signs they depict, and import the result
into the app.

This project models that core in Dafny 4 and proves what its code promises.
There is one module per source file.

| module | source file | form |
|---|---|---|
| `Catalog` | `lib/data-service.ts` | functions, plus a `CatalogStore` class for the quiz and zodiac caches |
| `UserModel` | `lib/user-model.ts` | datatypes and the sign and type tables |
| `UserService` | `lib/user-service.ts` | functions, plus a `BrowserStore` class for the saved profiles and the current-user id |
| `Shuffling`, `Recommendation` | `lib/recommendation-service.ts` | the Fisher–Yates loop on an array, and the favorite and recommendation rules |
| `FavoritesPage` | `app/during-visit/collections/page.tsx` | a `FavoritesView` class for the page state |
| `PostVisitPage` | `app/post-visit/page.tsx` | a `ReviewSession` class, plus the quiz assembly and scoring functions |
| `QuestionnairePage` | `app/ai-guide/pre-visit/page.tsx` | a `Survey` class, plus the answer and tally functions |
| `CollectionsPage` | `app/collections/page.tsx` | period normalization, filtering and the grouping loop |
| `LoginDialog` | `components/UserLoginDialog.tsx` | a `Dialog` class |
| `ChatRoute` | `app/api/chat/route.ts` | language detection and prompt choice |
| `CollectionImport` | `data_processing/process_collection_data.py`, `process_collection_data_debug.py` | spreadsheet rows to records, and the rule-based quizzes |
| `DataCleaner` | `data_processing/data_cleaner.py` | text, id, record and quiz cleaning |
| `MuseumImport` | `data_processing/import_to_museum_system.py` | the recommended subset, image names and the import record |
| `NameGroups`, `FixDuplicates` | `fix_duplicate_artifacts.py` | duplicate-name groups and their repair, and the missing-quiz repair |
| `FixRemaining` | `fix_remaining_duplicates.py` | the second repair, the quiz text update and the validation gate |
| `ZodiacAnalysis` | `data_processing/zodiac/analyze_zodiac_artifacts.py` | the batch loop and the per-sign aggregation |

`Wrappers`, `Seqs` and `Strings` hold the shared `Option` type, list
helpers, and string functions such as trim, strip, split and replace.

## Where the code's behaviour is surprising

- **Artifact loading.** The artifact list is not memoized: its cache
  variable is never assigned (`lib/data-service.ts:36`, `:78-91`). Only the
  quizzes and the zodiac mapping are cached (`Catalog.CatalogStore`).
- **Nickname trimming.** `createUserWithUniqueNickname` does not trim its
  input. The login dialog trims before calling it
  (`LoginDialog.Dialog.SubmitValid`).
- **The personalized blend.** It does not remove zodiac picks that repeat
  period picks (`Catalog.PersonalizedMayRepeat`). So the blend can hold the
  same artifact twice.
- **Load-time period normalization.** Its table omits "唐-五代" and the
  space rule of `extractMainDynasty`. The alias check runs before the space
  split (`CollectionsPage.ReignAfterAlias`).
- **Favorite lookups.** `getArtifactsByIds` returns catalog order, not
  input order, so the review quiz follows catalog order.
- **The favorites page image path.** It can be empty: a `localImage` that is
  just the image directory loses its whole text
  (`FavoritesPage.BareDirectoryGivesEmptyPath`).
- **Name cleaning.** `str.replace` removes the period tag in one
  left-to-right pass, so removing two tags can join the text around them
  into a new tag (`CollectionImport.CleanNameCanLeaveTag`).
- **The image-path repair.** It is not idempotent, and the catalog applies
  it up to three times to the same record
  (`Catalog.FixImagePathTwiceDiffers`).

Randomness becomes an oracle parameter:
- `Math.random` in the Fisher–Yates loop becomes `rolls: nat -> nat`, with
  step `i` swapping `i` and `rolls(i) % (i + 1)`.
- A `sort(() => 0.5 - Math.random())` shuffle becomes the same Fisher–Yates
  function.
- `random.random()` becomes a given boolean.

Network answers, files and the language model become parameters: the
fetched JSON as an `Option`, and the model's answer as a function from
artifact to reply. Clocks and `uuid` become parameters too.

## Model

| member | source | states |
|---|---|---|
| Catalog.FixImagePath | lib/data-service.ts:62-73 | only `localImage` can change; without "museum_images/" the record is unchanged, otherwise exactly one copy of the directory is cut out at its first occurrence |
| Catalog.FixImagePathTwiceDiffers | lib/data-service.ts:62-73 | the repair is not idempotent: a path holding the directory twice loses one copy per application |
| Catalog.FixAll | lib/data-service.ts:84 | the repaired list has the same length and each entry is the repair of the entry at the same place |
| Catalog.FixAllMembers | lib/data-service.ts:84 | every repaired record comes from a record of the input, and every input record's repair is present |
| Catalog.LoadArtifacts | lib/data-service.ts:78-91 | a failed fetch or parse gives []; otherwise one record per file record, in file order, each the image-path repair of the file record at its position |
| Catalog.LoadArtifactsUniqueIds | lib/data-service.ts:78-91 | loading keeps ids unique when the file's ids are |
| Catalog.FilterUniqueIds | lib/data-service.ts:155-159 | keeping the records that pass a test keeps the ids of a list with distinct ids distinct |
| Catalog.FindArtifact | lib/data-service.ts:132 | `find` gives the first index carrying the id, and none exactly when no record carries it |
| Catalog.GetArtifactById | lib/data-service.ts:130-134 | null exactly when no loaded record has the id; otherwise the repair of the first record with that id |
| Catalog.GetArtifactByIdHasId | lib/data-service.ts:130-134 | an artifact found by id carries that id |
| Catalog.GetArtifactsByIds | lib/data-service.ts:155-159 | every returned artifact is the repair of a loaded record whose id is among those asked for, and the result is a subsequence of the repaired catalog, so it keeps catalog order; never more than the catalog holds |
| Catalog.GetArtifactsByIdsCovers | lib/data-service.ts:155-159 | every catalog artifact whose id is asked for is returned, repaired |
| Catalog.GetArtifactsByIdsBound | lib/data-service.ts:155-159 | with unique catalog ids the result is no longer than the number of distinct ids asked for |
| Catalog.FilterByIdSetBound | lib/data-service.ts:157 | filtering unique-id records by an id set keeps at most as many records as the set has ids |
| Catalog.GetArtifactsByIdsRepeats | lib/data-service.ts:157 | asking for an id twice gives the same result as asking once |
| Catalog.GetArtifactsByPeriod | lib/data-service.ts:164-171 | exactly the repaired catalog records whose `displayPeriod || period` equals the period, as a subsequence of the repaired catalog, so in catalog order |
| Catalog.QuizzesFor | lib/data-service.ts:122-125 | exactly the loaded quizzes of that artifact |
| Catalog.QuizzesForInOrder | lib/data-service.ts:124 | the quizzes of an artifact keep their file order |
| Catalog.RandomQuizzes | lib/data-service.ts:139-150 | all quizzes when there are at most `count`; otherwise exactly `count` of them, drawn without repetition from the list |
| Catalog.QuizCacheAfter | lib/data-service.ts:96-117 | a set cache stays; a failed load leaves it unset; a first successful load stores the list, [] when the field is missing |
| Catalog.QuizCacheSettles | lib/data-service.ts:96-117 | after one load, a second load with the same outcome returns the same list and leaves the cache alone |
| Catalog.ZodiacKeywordsMatchSigns | lib/data-service.ts:40-53 | the keyword table has exactly the twelve sign ids of the zodiac selector |
| Catalog.ZodiacKeywordsLeadWithSign | lib/data-service.ts:40-53 | each sign's first keyword is that sign's character |
| Catalog.ZodiacFromList | lib/data-service.ts:214-230 | with a precomputed list every result's id is listed for the sign, and with unique catalog ids there are at most ten |
| Catalog.ZodiacShortListComplete | lib/data-service.ts:226-229 | a list of one to ten ids is shown whole: each catalog artifact it names is returned |
| Catalog.ZodiacFallback | lib/data-service.ts:232-242 | with no precomputed ids the result is exactly the repaired artifacts whose lower-cased text contains a lower-cased keyword |
| Catalog.ZodiacCacheAfter | lib/data-service.ts:176-209 | a set cache stays; otherwise it is set exactly when the request succeeds, and then to the file's `zodiacArtifacts` mapping, or to an empty mapping when the field is missing |
| Catalog.ZodiacCacheSettles | lib/data-service.ts:176-209 | once the cache is set, or a first load found the mapping, every later load sees the same mapping and leaves the cache as it is, whatever that load's outcome |
| Catalog.MissingFieldThenFallback | lib/data-service.ts:198-218 | a body without `zodiacArtifacts` makes the first lookup fail to [] and then caches an empty mapping, so every later lookup takes the keyword fallback |
| Catalog.PeriodPart | lib/data-service.ts:260-264 | none without a period; otherwise the first `min(ceil(count / 2), n)` of the period's artifacts, all showing that period, in catalog order |
| Catalog.TakePeriodPart | lib/data-service.ts:260-264 | the period step computes `PeriodPart` |
| Catalog.WithZodiacPart | lib/data-service.ts:266-274 | the zodiac part extends the list without changing its front and never past `count`; with no sign nothing is added; with a sign and room left it appends exactly the first min(count − |items|, |zodiac|) matches, in their order |
| Catalog.WithRandomFill | lib/data-service.ts:276-285 | the fill extends the list without changing its front, never past `count`, and does nothing once `count` is reached; when short it adds exactly min(count − |items|, |pool|) artifacts drawn without repetition from the pool of catalog artifacts whose id is not yet chosen |
| Catalog.FillAtRandom | lib/data-service.ts:276-285 | the top-up step computes `WithRandomFill` |
| Catalog.FixAllPrefix | lib/data-service.ts:287 | repairing commutes with taking a prefix |
| Catalog.Personalized | lib/data-service.ts:252-288 | the blend holds at most `count` artifacts and starts with the repaired period part, in its order |
| Catalog.RandomFillExcludesChosen | lib/data-service.ts:279-282 | the random fill adds only artifacts whose id is not already chosen |
| Catalog.PersonalizedMayRepeat | lib/data-service.ts:266-274 | the zodiac part is not checked against the period part: one artifact can be listed twice |
| Catalog.CatalogStore.constructor | lib/data-service.ts:36-57 | both caches start empty |
| Catalog.CatalogStore.LoadQuizzes | lib/data-service.ts:96-117 | returns the loaded list and updates only the quiz cache, as `QuizCacheAfter` says |
| Catalog.CatalogStore.GetQuizzesForArtifact | lib/data-service.ts:122-125 | the artifact's quizzes from the loaded list; only the quiz cache changes |
| Catalog.CatalogStore.GetRandomQuizzes | lib/data-service.ts:139-150 | `RandomQuizzes` of the loaded list; only the quiz cache changes |
| Catalog.CatalogStore.LoadZodiacArtifacts | lib/data-service.ts:176-209 | the cached mapping, else the parsed body, else an empty mapping on failure; only the zodiac cache changes |
| Catalog.ArtifactsByZodiac | lib/data-service.ts:214-247 | [] without a loaded view; every result is a repaired catalog artifact, in catalog order |
| Catalog.CatalogStore.GetArtifactsByZodiac | lib/data-service.ts:214-247 | the zodiac selection of the loaded mapping; only the zodiac cache changes |
| Catalog.CatalogStore.GetPersonalizedArtifacts | lib/data-service.ts:252-288 | the period, zodiac and random parts in that order, repaired; the zodiac data is loaded only when a sign is given |
| UserModel.ZodiacSignsShape | lib/user-model.ts:21-34 | twelve signs, rat first and pig last, no id repeated |
| UserModel.MbtiTypesShape | lib/user-model.ts:37-54 | sixteen MBTI types with distinct ids |
| UserModel.MbtiLabels | lib/user-model.ts:37-54 | every label is the type id, " - ", then a nickname |
| UserService.FindUser | lib/user-service.ts:135 | `findIndex` gives the first index carrying the id, and -1 (none) exactly when no user carries it |
| UserService.UserById | lib/user-service.ts:39-42 | null exactly when no user has the id; otherwise the first user with it |
| UserService.UserByNickname | lib/user-service.ts:47-50 | null exactly when no user has the nickname; otherwise the first user with it |
| UserService.CandidateInjective | lib/user-service.ts:93-100 | different counters give different nicknames |
| UserService.CandidatesSize | lib/user-service.ts:93-100 | the first `k` nicknames tried are `k` different strings |
| UserService.NicknamesSize | lib/user-service.ts:97 | a user list holds at most as many nicknames as users |
| UserService.TakenBound | lib/user-service.ts:97-100 | if the first `k` nicknames tried are all taken there are at least `k` users, so the search ends |
| UserService.FirstFreeFrom | lib/user-service.ts:97-100 | the first free candidate at or after `k`, every earlier one being taken |
| UserService.UniqueNickname | lib/user-service.ts:92-100 | the nickname given is free; it is the input when that is free, else `${input}_k` for the least `k >= 1` that is free |
| UserService.FirstFreeIsSuffix | lib/user-service.ts:97-100 | when the input is taken the first free candidate is a numbered one, all lower numbers being taken |
| UserService.NewUser | lib/user-service.ts:62-76 | a fresh profile carries the given id and nickname, no period, sign or MBTI type, a 60-minute visit, no selected or favorite artifacts and no summary, and was created and updated at `now` |
| UserService.MergePreference | lib/user-service.ts:140-143 | each field given in the patch overrides, every other field is kept |
| UserService.MergePreferenceLaws | lib/user-service.ts:140-143 | applying a patch twice equals applying it once; an empty patch changes nothing |
| UserService.FavoriteLists | lib/user-service.ts:200 | one favorites list per user, in user order |
| UserService.SimilarFavorites | lib/user-service.ts:195-201 | no id repeated, an id is listed exactly when some kept user has it as a favorite, and the ids follow the order of their first occurrence in the kept users' favorites, taken user by user |
| UserService.SimilarMbtiFavorites | lib/user-service.ts:193-202 | the distinct favorites of exactly the users with that MBTI type, in the order of their first occurrence |
| UserService.SimilarZodiacFavorites | lib/user-service.ts:207-216 | the distinct favorites of exactly the users with that zodiac sign, in the order of their first occurrence |
| UserService.CreatedUserIsFound | lib/user-service.ts:92-128 | a profile created under a fresh id is found again by its nickname and by its id |
| UserService.FindUserAfterUpdate | lib/user-service.ts:133-149 | rewriting the profile found for an id, keeping the id, leaves it the profile found for that id |
| UserService.BrowserStore.constructor | lib/user-service.ts:4-6 | the store starts with the given storage contents |
| UserService.BrowserStore.AllUsers | lib/user-service.ts:11-16 | outside a browser nothing is stored |
| UserService.BrowserStore.CurrentUserId | lib/user-service.ts:21-25 | outside a browser there is no current user |
| UserService.BrowserStore.SaveUsers | lib/user-service.ts:240-244 | in a browser the list replaces the stored one and nothing else changes; outside nothing changes |
| UserService.BrowserStore.SetCurrentUserId | lib/user-service.ts:30-34 | in a browser the current-user id is set and nothing else changes; outside nothing changes |
| UserService.BrowserStore.CreateUser | lib/user-service.ts:56-87 | a taken nickname gives null and no change; otherwise a fresh profile with default preferences is appended and made current |
| UserService.BrowserStore.CreateUserWithUniqueNickname | lib/user-service.ts:92-128 | the profile gets `UniqueNickname`, is appended and made current |
| UserService.BrowserStore.UpdateUserPreferences | lib/user-service.ts:133-150 | an unknown id gives null and no change; otherwise the first profile with the id gets the merged preferences and the new time, and only it changes |
| UserService.BrowserStore.UpdateUserSelectedArtifacts | lib/user-service.ts:155-169 | as above, replacing the selection list |
| UserService.BrowserStore.UpdateUserFavoriteArtifacts | lib/user-service.ts:174-188 | as above, replacing the favorites list |
| UserService.BrowserStore.UpdateUserVisitSummary | lib/user-service.ts:221-235 | as above, setting the visit summary |
| Shuffling.Swap | lib/recommendation-service.ts:182 | positions `i` and `j` exchanged, every other position kept |
| Shuffling.SwapPermutes | lib/recommendation-service.ts:182 | a swap is a permutation |
| Shuffling.ShuffleDown | lib/recommendation-service.ts:180-183 | the remaining loop steps keep the length |
| Shuffling.ShuffleDownPermutes | lib/recommendation-service.ts:180-183 | the remaining loop steps permute their input |
| Shuffling.Shuffle | lib/recommendation-service.ts:178-185 | the shuffle keeps the length of its input |
| Shuffling.ShufflePermutes | lib/recommendation-service.ts:178-185 | the shuffle is a permutation of its input, so it has exactly the input's elements |
| Recommendation.ShuffleArray | lib/recommendation-service.ts:178-185 | the in-place Fisher-Yates loop on a copy computes `Shuffle` of the input, a permutation of it |
| Recommendation.PointedUser | lib/recommendation-service.ts:16-17 | a profile found through the current-user id is a stored profile |
| Recommendation.FavoriteArtifactIds | lib/recommendation-service.ts:124-139 | [] outside a browser; the pointed profile's favorites when there is one; else the legacy list or [] |
| Recommendation.PreVisitSelectedIds | lib/recommendation-service.ts:87-102 | [] outside a browser; the pointed profile's selection when there is one; else the legacy list or [] |
| Recommendation.SetFavoriteArtifactIds | lib/recommendation-service.ts:144-156 | outside a browser nothing changes; otherwise the pointed profile, if any, and the legacy key are rewritten, and reading back gives `ids` |
| Recommendation.SetPreVisitSelectedIds | lib/recommendation-service.ts:107-119 | the same for the selection list |
| Recommendation.FavoritesSaved | lib/recommendation-service.ts:144-156 | saving favorites keeps the current-user id, the legacy selection and the number of profiles, and sets the legacy favorites to the list |
| Recommendation.Toggle | lib/recommendation-service.ts:167-169 | a listed id is removed wherever it occurs while every copy of every other id stays, in order; an unlisted id is appended |
| Recommendation.ToggleTwice | lib/recommendation-service.ts:167-169 | toggling an unlisted id twice restores the list |
| Recommendation.ToggleFavoriteArtifact | lib/recommendation-service.ts:161-173 | [] and no change outside a browser; otherwise the toggled list is returned and the storage becomes exactly the old storage with that list saved |
| Recommendation.GetRecommendedArtifacts | lib/recommendation-service.ts:14-35 | the personalized blend for a profile with a period or sign when it is non-empty, else the first `count` of a shuffled catalog; the zodiac cache moves on only when the profile has a sign; the quiz cache is untouched |
| Recommendation.BlendFor | lib/recommendation-service.ts:20-30 | the blend for a profile holds at most `count` artifacts and starts with its period part; without a sign it is the blend with no zodiac picks |
| Recommendation.RandomRecommendationSize | lib/recommendation-service.ts:33-34 | the random fallback holds `min(count, n)` catalog artifacts, none repeated beyond the catalog |
| Recommendation.ZodiacTopUp | lib/recommendation-service.ts:40-55 | enough matches give exactly `count` of them; otherwise all matches come first, followed by exactly min(count − |zodiac|, |pool|) artifacts drawn without repetition from the pool of catalog artifacts whose ids none of the matches has |
| Recommendation.TopUpZodiac | lib/recommendation-service.ts:44-54 | the two branches with `shuffleArray` compute `ZodiacTopUp` |
| Recommendation.GetZodiacRecommendedArtifacts | lib/recommendation-service.ts:40-55 | `ZodiacTopUp` of the sign's artifacts; only the zodiac cache changes |
| Recommendation.MbtiRecommended | lib/recommendation-service.ts:60-82 | never reports similar users; for a non-negative `count` exactly min(count, n) catalog artifacts, none repeated beyond the catalog, and the whole catalog in some order once `count` reaches n; [] when loading fails |
| FavoritesPage.GetImagePath | app/during-visit/collections/page.tsx:93-106 | a web image is shown as is; else a local path holding the image directory loses its first occurrence of it; otherwise `localImage`, then `image`, then the placeholder |
| FavoritesPage.BareDirectoryGivesEmptyPath | app/during-visit/collections/page.tsx:100-105 | a local path that is only the image directory becomes the empty path: the placeholder covers only the last branch |
| FavoritesPage.FilterMapShape | app/during-visit/collections/page.tsx:35-39 | mapping then dropping the misses gives one value per element that has one, in element order |
| FavoritesPage.LoadedFavoritesShape | app/during-visit/collections/page.tsx:35-39 | the loaded favorites are the known favorite ids in favorite order, each with the artifact `getArtifactById` gives for it |
| FavoritesPage.AfterToggle | app/during-visit/collections/page.tsx:55-57 | the shown list keeps, in order, exactly the artifacts whose id is in the new favorites |
| FavoritesPage.UnfavoriteRemovesOnlyIt | app/during-visit/collections/page.tsx:51-57 | un-favoriting a shown artifact removes exactly its entries and keeps the rest in order |
| FavoritesPage.FavoritesView.constructor | app/during-visit/collections/page.tsx:15-17 | nothing shown, nothing selected, the dialog closed |
| FavoritesPage.FavoritesView.LoadFavoriteArtifacts | app/during-visit/collections/page.tsx:24-45 | no favorites empty the view; otherwise it shows `LoadedFavorites`; the selection and dialog are untouched |
| FavoritesPage.FavoritesView.ViewArtifactDetail | app/during-visit/collections/page.tsx:66-69 | the artifact is selected and the dialog opened |
| FavoritesPage.FavoritesView.HandleFavoriteToggle | app/during-visit/collections/page.tsx:51-63 | in a browser the storage becomes the old storage with the toggled favorites saved; the view is cut to the toggled favorites; the dialog closes exactly when the toggled artifact is the selected one |
| PostVisitPage.FirstQuiz | app/post-visit/page.tsx:50-54 | an artifact contributes at most one quiz: none exactly when it has no quiz, otherwise the first of its quizzes |
| PostVisitPage.FirstQuizzes | app/post-visit/page.tsx:46-55 | the collected quizzes are never more than the favorite artifacts |
| PostVisitPage.FirstQuizzesFrom | app/post-visit/page.tsx:49-55 | every collected quiz is a loaded quiz, is the first quiz of its own artifact, and belongs to one of the favorite artifacts |
| PostVisitPage.FirstQuizzesCover | app/post-visit/page.tsx:49-55 | every favorite artifact that has a quiz has its first quiz collected |
| PostVisitPage.FirstQuizCovered | app/post-visit/page.tsx:49-55 | the first quiz of the artifact at a given position is among the collected quizzes |
| PostVisitPage.JoinedCovers | app/post-visit/page.tsx:49-55 | concatenating per-element lists keeps the head of every non-empty one |
| PostVisitPage.FirstQuizzesJoined | app/post-visit/page.tsx:49-55 | collecting quizzes artifact by artifact is the concatenation of each artifact's first-quiz list |
| PostVisitPage.FirstQuizzesOnePerArtifact | app/post-visit/page.tsx:49-55 | with distinct artifact ids, no two collected quizzes are about the same artifact |
| PostVisitPage.ReviewQuizShape | app/post-visit/page.tsx:49-58 | the review quiz has at most five questions, is all collected quizzes when there are at most five, and each question is the first quiz of a distinct artifact |
| PostVisitPage.ByIdsUniqueIds | app/post-visit/page.tsx:41 | the favorites fetched by id have distinct ids when the catalog does |
| PostVisitPage.CountCorrect | app/post-visit/page.tsx:107-117 | the number of correct answers is at most the number of questions; it equals it exactly when every question is answered correctly and is zero exactly when none is |
| PostVisitPage.CorrectAnswersCount | app/post-visit/page.tsx:107-117 | the counting loop returns the number of questions whose selected answer is the correct one |
| PostVisitPage.TierOf | app/post-visit/page.tsx:133-139 | the top message exactly when all answers are correct; the middle one exactly when not all but at least half are |
| PostVisitPage.TierMonotone | app/post-visit/page.tsx:133-139 | more correct answers never give a lower message |
| PostVisitPage.TierMessage | app/post-visit/page.tsx:133-139 | every closing message starts a new paragraph |
| PostVisitPage.SummaryEntry | app/post-visit/page.tsx:128 | an artifact's line is at most 53 characters longer than its name-and-period heading and always ends in an ellipsis |
| PostVisitPage.SummaryEntryParts | app/post-visit/page.tsx:128 | the line opens with the artifact's name and period, and what stands before the ellipsis is the start of its description, at most fifty characters |
| PostVisitPage.SummaryText | app/post-visit/page.tsx:120-142 | the summary starts with the favorite count header, contains the score line, and ends with the message of the score's tier |
| PostVisitPage.BuildSummary | app/post-visit/page.tsx:123-141 | the summary built line by line is the header, one entry per favorite in order, the score line and the tier message |
| PostVisitPage.AppendEntry | app/post-visit/page.tsx:127-129 | one loop step appends the next favorite's entry to the summary built so far |
| PostVisitPage.EntriesSnoc | app/post-visit/page.tsx:127-129 | the entries of one more favorite are the earlier entries followed by its own |
| PostVisitPage.CurrentQuestion | app/post-visit/page.tsx:73-78 | no question exactly when the step is past the last one; otherwise one of the review questions |
| PostVisitPage.CurrentQuestionArtifact | app/post-visit/page.tsx:145-151 | no artifact exactly when there is no current question or no favorite has its artifact id; otherwise the first favorite with that id |
| PostVisitPage.FirstQuizzesSnoc | app/post-visit/page.tsx:49-55 | one more artifact appends its first quiz, if any, to the quizzes collected so far |
| PostVisitPage.CollectNext | app/post-visit/page.tsx:50-54 | one loop step asks the catalog for the artifact's quizzes and keeps the first, leaving the loaded quizzes as they were |
| PostVisitPage.CollectFirstQuizzes | app/post-visit/page.tsx:46-55 | the loop collects exactly the first quiz of each favorite artifact, in order, from the quizzes the catalog loads once |
| PostVisitPage.LoadReview | app/post-visit/page.tsx:40-59 | the favorites are the artifacts fetched by id and the questions are the first five of their first quizzes |
| PostVisitPage.ReviewSession.constructor | app/post-visit/page.tsx:18-25 | a new page starts with no favorites, no questions, step zero, no answers, no result and an empty summary |
| PostVisitPage.ReviewSession.LoadFavoriteReview | app/post-visit/page.tsx:40-61 | with favorites, the favorite artifacts and the review questions are loaded; without, they stay as they were; nothing else changes |
| PostVisitPage.ReviewSession.FetchData | app/post-visit/page.tsx:31-67 | the favorites become the stored favorite ids, then the favorite review is loaded as above |
| PostVisitPage.ReviewSession.HandleAnswerSelect | app/post-visit/page.tsx:81-86 | the answer for the question is replaced, every other answer and every other field is kept |
| PostVisitPage.ReviewSession.GenerateSummary | app/post-visit/page.tsx:120-142 | the summary text becomes the summary of the favorites and the current score; nothing else changes |
| PostVisitPage.ReviewSession.NextQuestion | app/post-visit/page.tsx:89-97 | before the last question the step advances; on the last one the result is shown with the summary of the current score |
| PostVisitPage.ReviewSession.RestartQuiz | app/post-visit/page.tsx:100-104 | the step returns to zero, the answers are cleared and the result is hidden, keeping favorites, questions and summary |
| PostVisitPage.RestartScoresZero | app/post-visit/page.tsx:100-117 | after a restart no question counts as correct |
| QuestionnairePage.FindAnswer | app/ai-guide/pre-visit/page.tsx:119 | the position of the first answer to the question, or none exactly when no answer is for it |
| QuestionnairePage.SetChoices | app/ai-guide/pre-visit/page.tsx:130-134 | every answer to the question gets the new choice list, every other answer is kept, positions unchanged |
| QuestionnairePage.HandleChoice | app/ai-guide/pre-visit/page.tsx:107-137 | a single-choice question drops its old answers and appends the new one; otherwise a new answer is appended, or the choice is toggled in the existing answer in place while every other answer is kept |
| QuestionnairePage.HandleChoiceKeepsOneAnswerEach | app/ai-guide/pre-visit/page.tsx:107-137 | recording a choice keeps at most one answer per question and leaves the question answered |
| QuestionnairePage.FilterKeepsOneAnswerEach | app/ai-guide/pre-visit/page.tsx:113 | dropping a question's answers keeps at most one answer per question |
| QuestionnairePage.ChooseTwiceRestores | app/ai-guide/pre-visit/page.tsx:118-134 | on a multiple-choice question, choosing a new option twice restores the answers |
| QuestionnairePage.FindQuestion | app/ai-guide/pre-visit/page.tsx:192 | the question with the id, or none exactly when no question has it |
| QuestionnairePage.FindChoice | app/ai-guide/pre-visit/page.tsx:196 | the choice with the id, or none exactly when no choice has it |
| QuestionnairePage.Bump | app/ai-guide/pre-visit/page.tsx:199-201 | adding to a tallied interest changes that interest only, and an untallied key is not added |
| QuestionnairePage.AddChoice | app/ai-guide/pre-visit/page.tsx:195-212 | one selected choice adds a point to its own interest and the q2 half-point bonuses, to tallied interests only |
| QuestionnairePage.AddChoices | app/ai-guide/pre-visit/page.tsx:195-213 | the choices of one answer keep the tallied interests and never lower a score |
| QuestionnairePage.AddAnswer | app/ai-guide/pre-visit/page.tsx:191-214 | an answer never lowers a score, and an answer to an unknown question changes nothing |
| QuestionnairePage.Tally | app/ai-guide/pre-visit/page.tsx:191-214 | the tally over all answers keeps the tallied interests and never lowers a score |
| QuestionnairePage.AnalyzePreferences | app/ai-guide/pre-visit/page.tsx:175-216 | the nested loops compute the tally of the answers from the eleven zeroed interests; the result has exactly those interests, none negative |
| QuestionnairePage.AddAnswerChoices | app/ai-guide/pre-visit/page.tsx:195-213 | the inner loop adds the choices of one answer in order |
| QuestionnairePage.ApplyChoice | app/ai-guide/pre-visit/page.tsx:196-212 | the inner loop's body performs the updates of one selected choice |
| QuestionnairePage.ArtBonus | app/ai-guide/pre-visit/page.tsx:199-207 | choosing "art" for q2 gives art one point, paintings and ceramics half a point each, and history nothing |
| QuestionnairePage.Survey.constructor | app/ai-guide/pre-visit/page.tsx:36-39 | the page starts at the first question with no answers, no preferences and not completed |
| QuestionnairePage.Survey.ChooseOption | app/ai-guide/pre-visit/page.tsx:107-137 | the answers become those of recording the choice on the current question; nothing else changes |
| QuestionnairePage.Survey.GoToNext | app/ai-guide/pre-visit/page.tsx:146-165 | with no choice for the current question nothing changes; otherwise the page moves on, or after the last question stores the tally and completes |
| QuestionnairePage.Survey.GoToPrevious | app/ai-guide/pre-visit/page.tsx:168-172 | one question back, never before the first; nothing else changes |
| CollectionsPage.AliasBucket | app/collections/page.tsx:15-43 | an alias label goes to one of the six merged buckets; the single-dynasty labels 五代, 良渚, 唐, 周, 宋, 晋, 北宋 and 南宋 always have an alias |
| CollectionsPage.ExtractMainDynasty | app/collections/page.tsx:14-51 | an alias goes to its bucket; any other label is cut before its first space, or kept whole without one; the result never holds a space |
| CollectionsPage.BucketsAreFixed | app/collections/page.tsx:14-43 | every bucket name maps to itself |
| CollectionsPage.ExtractMainDynastyIdempotent | app/collections/page.tsx:14-51 | on a label without a space, extracting twice is extracting once |
| CollectionsPage.ReignAfterAlias | app/collections/page.tsx:36-48 | "北宋 元丰" lands in "北宋", not in the "宋" bucket its dynasty has, because the alias check runs before the space split |
| CollectionsPage.NormalizePeriod | app/collections/page.tsx:70-86 | the load-time table agrees with the alias table on labels without a space, except that it leaves "唐-五代" as is |
| CollectionsPage.NormalizeKeepsBucket | app/collections/page.tsx:69-89 | the load-time relabelling never changes the bucket an artifact filters into |
| CollectionsPage.Normalize | app/collections/page.tsx:69-89 | a loaded artifact gains the display period from the table and the raw period as original; every other field is unchanged |
| CollectionsPage.NormalizeAll | app/collections/page.tsx:69-91 | the loaded list normalizes every artifact, in order |
| CollectionsPage.LoadedBucket | app/collections/page.tsx:122 | after loading, an artifact's bucket is that of its raw period |
| CollectionsPage.FilterArtifacts | app/collections/page.tsx:131-163 | "all" with a blank term is the whole list; otherwise an artifact stays exactly when it is in the chosen bucket (any for "all") and matches a non-blank term, order kept |
| CollectionsPage.MatchesSearch | app/collections/page.tsx:116-117 | an empty term matches every artifact; a match needs the term to be no longer than the name or the description |
| CollectionsPage.HandleSearch | app/collections/page.tsx:104-128 | "all" with a blank term keeps the whole list; otherwise an artifact stays exactly when it is in the active bucket and, for a non-blank term, matches it |
| CollectionsPage.HandleSearchAgrees | app/collections/page.tsx:104-128 | with the new term used throughout, typing a term under a filter gives the same list as choosing that filter with the term, and a cleared box shows the filter's list with no term |
| CollectionsPage.HandleSearchAsWritten | app/collections/page.tsx:104-146 | as written, a blank term falls back to the period filter applied with the previous search term, not the cleared one |
| CollectionsPage.ClearedSearchKeepsOldTerm | app/collections/page.tsx:104-146 | emptying the box after typing "a" leaves a non-matching artifact hidden, where the corrected handler shows it |
| CollectionsPage.GroupStep | app/collections/page.tsx:168-175 | appending one artifact to its group keeps every group equal to the artifacts seen with its label |
| CollectionsPage.GroupOfKey | app/collections/page.tsx:171-174 | the group an artifact is appended to holds exactly the earlier artifacts with its label |
| CollectionsPage.GroupBySubPeriod | app/collections/page.tsx:166-177 | every artifact's sub-period has a group, and each group is non-empty and holds exactly the artifacts with that label in list order |
| CollectionsPage.Buckets | app/collections/page.tsx:182 | one bucket per artifact, in list order |
| CollectionsPage.PeriodsMembers | app/collections/page.tsx:181-183 | the periods are "all" and exactly the buckets present |
| CollectionsPage.OrderedPeriods | app/collections/page.tsx:186 | the filter bar starts with "all", follows the chronology, and holds exactly the chronology entries that are "all" or a bucket present |
| CollectionsPage.PresentInOrder | app/collections/page.tsx:186 | cutting an order down to the entries present keeps the order, exactly the present entries, and the first entry when it is present |
| CollectionImport.CleanText | data_processing/process_collection_data.py:18-22 | a missing cell gives the empty string; text is the cell with whitespace stripped from both ends and nothing else, so the result neither starts nor ends with whitespace |
| CollectionImport.CleanTextIdempotent | data_processing/process_collection_data.py:18-22 | cleaning a cleaned value changes nothing |
| CollectionImport.CloseFrom | data_processing/process_collection_data.py:29 | the first closing bracket from a position, provided no newline comes before it; none exactly when every closing bracket there is preceded by a newline |
| CollectionImport.CloseFromFinds | data_processing/process_collection_data.py:29 | a closing bracket with no bracket or newline before it is the one found |
| CollectionImport.MatchFrom | data_processing/process_collection_data.py:29 | the leftmost opening bracket that has a closing bracket on its line, with the nearest such closing bracket; none exactly when no opening bracket has one |
| CollectionImport.ExtractPeriod | data_processing/process_collection_data.py:24-32 | the period is the text of the leftmost bracketed tag: it occurs bracketed in the name, and no opening bracket before it starts a closed tag; it holds no closing bracket and no newline; a name without a tag gives the empty period |
| CollectionImport.ExtractTagged | data_processing/process_collection_data.py:24-32 | a name whose first tag is "【period】" gives exactly that period |
| CollectionImport.MatchSkips | data_processing/process_collection_data.py:29 | the match starts at the first opening bracket that has a closing bracket on its line |
| CollectionImport.CleanName | data_processing/process_collection_data.py:55 | without a period the name is kept as it is; with one, the result of the replacement pass is stripped, so it has no whitespace at either end (what the pass removes is stated by the two lemmas below) |
| CollectionImport.CleanNameRemovesTag | data_processing/process_collection_data.py:55 | a name with a single tag of its period, and no opening bracket before it, becomes the text around the tag, stripped |
| CollectionImport.CleanNameCanLeaveTag | data_processing/process_collection_data.py:55 | the single replacement pass can leave a tag behind: `front【p】【【p】p】` is cleaned to `front【p】`, stripped |
| CollectionImport.MakeArtifact | data_processing/process_collection_data.py:52-70 | the record of the row at position idx has id idx+1, the raw name as full name, the period of its tag, the cleaned name, the default location and empty facts and context |
| CollectionImport.MakeArtifactOfTaggedName | data_processing/process_collection_data.py:52-70 | a row named `prefix【period】rest` gives that period and the stripped `prefix + rest` as name |
| CollectionImport.KeptPositions | data_processing/process_collection_data.py:47-49 | the positions of the kept rows, in strictly increasing order, each of a kept row |
| CollectionImport.KeptPositionsComplete | data_processing/process_collection_data.py:47-49 | every kept row's position is listed |
| CollectionImport.KeptMap | data_processing/process_collection_data.py:47-73 | one result per kept row |
| CollectionImport.KeptMapAt | data_processing/process_collection_data.py:47-73 | each result is the one made from its kept row and position |
| CollectionImport.NamedPositionsComplete | data_processing/process_collection_data.py:48-49 | every row with a non-empty name is kept |
| CollectionImport.Records | data_processing/process_collection_data.py:45-73 | one record per row with a name, whose id is that row's position plus one |
| CollectionImport.RecordsFromRows | data_processing/process_collection_data.py:47-73 | each record is the one built from its own row |
| CollectionImport.RecordsUniqueIds | data_processing/process_collection_data.py:59 | no two records share an id |
| CollectionImport.PositionsGiveDistinctIds | data_processing/process_collection_data.py:59 | ids rendered from strictly increasing positions are distinct |
| CollectionImport.ProcessCollectionData | data_processing/process_collection_data.py:34-87 | the row loop returns exactly the records of the named rows, in row order |
| CollectionImport.ProcessCollectionDataDebug | process_collection_data_debug.py:43-106 | a sheet that cannot be read gives no artifacts; otherwise the records of its named rows; ids are always unique |
| CollectionImport.Limited | data_processing/process_collection_data.py:186-188 | only a limit strictly between zero and the length cuts the list, to that prefix; otherwise the list is kept whole |
| CollectionImport.QuizIdInjective | data_processing/process_collection_data.py:208 | two quiz ids with one-digit numbers agree only for the same artifact and the same number |
| CollectionImport.DebugQuizzesOf | process_collection_data_debug.py:276-312 | no quiz without a description, the period quiz for a described artifact and a description quiz too when the description exceeds 20 characters; each well formed, about the artifact, with the right answer first |
| CollectionImport.DebugQuizzesWellFormed | process_collection_data_debug.py:276-312 | every quiz written has four options, answer "a", and number 1 or 2 |
| CollectionImport.DebugQuizzesOwned | process_collection_data_debug.py:276-312 | every quiz belongs to a described artifact of the list |
| CollectionImport.DebugQuizzesCover | process_collection_data_debug.py:278-293 | every described artifact gets its period quiz |
| CollectionImport.DebugQuizIdsUnique | process_collection_data_debug.py:281-300 | with distinct artifact ids, quiz ids are distinct |
| CollectionImport.GenerateQuizDataDebug | process_collection_data_debug.py:230-312 | input that is not a collection gives no quizzes; otherwise the loop writes the quizzes of each artifact of the limited list, in order |
| CollectionImport.MainQuizOf | data_processing/process_collection_data.py:202-235 | a described artifact gets one well-formed quiz numbered 1: the description quiz only when the description exceeds 20 characters and the coin allows, the period quiz otherwise |
| CollectionImport.MainQuizzes | data_processing/process_collection_data.py:198-235 | exactly one quiz per described artifact, in artifact order, each its period or description quiz |
| CollectionImport.MainQuizIdsUnique | data_processing/process_collection_data.py:208-223 | with distinct artifact ids, quiz ids are distinct |
| CollectionImport.GenerateQuizData | data_processing/process_collection_data.py:179-235 | the rule-based loop writes the quizzes of the described artifacts of the limited list, with the given coins |
| DataCleaner.JoinWordsSingleSpaced | data_processing/data_cleaner.py:97 | words joined by single spaces form a single-spaced text, non-empty when there is a word |
| DataCleaner.SingleSpacedHasNo | data_processing/data_cleaner.py:99 | a single-spaced text holds no whitespace character other than the space |
| DataCleaner.CleanText | data_processing/data_cleaner.py:84-100 | after the split-join the replacements and the final strip change nothing: the cleaned text is the words joined by single spaces |
| DataCleaner.CleanTextShape | data_processing/data_cleaner.py:94-100 | a cleaned text is single-spaced and holds no newline, carriage return or tab |
| DataCleaner.CleanTextIdempotent | data_processing/data_cleaner.py:94-100 | cleaning a cleaned text changes nothing |
| DataCleaner.CleanField | data_processing/data_cleaner.py:94-95 | a cleaned field is single-spaced; a string becomes its whitespace-separated words joined by single spaces, anything else the empty text |
| DataCleaner.ReplaceCharMaps | data_processing/data_cleaner.py:113 | replacing one character by another maps each position on its own and keeps the length |
| DataCleaner.GenerateId | data_processing/data_cleaner.py:102-113 | the id has the text's length, each space becomes an underscore and every other character is lower-cased, so the id holds no space |
| DataCleaner.GenerateIdIdempotent | data_processing/data_cleaner.py:102-113 | deriving an id from an id changes nothing |
| DataCleaner.ValidateImageUrl | data_processing/data_cleaner.py:115-133 | an empty or missing URL gives "" with no request; otherwise the URL is kept exactly when it answers with status 200, and "" is returned otherwise |
| DataCleaner.CleanArtifactOf | data_processing/data_cleaner.py:36-47 | cleaning one record fails exactly when its name is a non-string value |
| DataCleaner.CleanArtifactShape | data_processing/data_cleaner.py:36-47 | a cleaned record has a space-free id derived from the raw name, single-spaced texts and image URLs that are empty or the raw ones |
| DataCleaner.AllSomeShape | data_processing/data_cleaner.py:34-49 | mapping with failure fails exactly when one element fails; otherwise it gives one result per element, in order |
| DataCleaner.AllSomeNoneStays | data_processing/data_cleaner.py:34-49 | once a prefix fails, the whole list fails |
| DataCleaner.CleanAllShape | data_processing/data_cleaner.py:24-49 | the pass fails exactly when some name is a non-string value; otherwise it gives each record's cleaned form, in input order |
| DataCleaner.CleanArtifactData | data_processing/data_cleaner.py:24-49 | the loop returns the mapping of every record through the cleaner, stopping at the first failure |
| DataCleaner.CleanOptions | data_processing/data_cleaner.py:74-77 | every option is kept in order with its id and its text cleaned |
| DataCleaner.CleanQuizOf | data_processing/data_cleaner.py:70-80 | cleaning one linked quiz fails exactly when its question is a non-string value |
| DataCleaner.CleanQuizShape | data_processing/data_cleaner.py:70-80 | a cleaned quiz keeps its artifact id and its number of options, has a space-free id and single-spaced texts |
| DataCleaner.CleanQuizData | data_processing/data_cleaner.py:51-82 | the pass keeps exactly the quizzes naming a known artifact, in order, cleaning each; it fails exactly when some quiz's artifact id is a list or an object, which the set lookup cannot hash, or a kept quiz has a non-string question |
| DataCleaner.KeptLater | data_processing/data_cleaner.py:65-68 | a quiz the filter keeps appears in the filtered list |
| DataCleaner.CleanQuizzesLinked | data_processing/data_cleaner.py:62-68 | a quiz is kept exactly when its artifact id is a string naming a cleaned artifact |
| NameGroups.Names | fix_remaining_duplicates.py:22-23 | one name per artifact, in list order |
| NameGroups.Positions | fix_remaining_duplicates.py:21-23 | a name's group lists positions holding that name, in strictly increasing order |
| NameGroups.PositionsAbsent | fix_remaining_duplicates.py:21-23 | a name nobody holds has an empty group |
| NameGroups.PositionsComplete | fix_remaining_duplicates.py:21-23 | every position holding the name is in its group |
| NameGroups.RankOfMember | fix_duplicate_artifacts.py:46 | the member at index i of a group is preceded by exactly i artifacts with the same name |
| NameGroups.RankInGroup | fix_duplicate_artifacts.py:46 | a position's index in its group is below the group's size and picks that position |
| NameGroups.TwoMembers | fix_remaining_duplicates.py:25 | two positions sharing a name make a group of at least two |
| NameGroups.FirstTwoMembers | fix_remaining_duplicates.py:25 | a group of more than one has two distinct positions with its name, the first one first |
| NameGroups.DistinctIffSingletons | fix_remaining_duplicates.py:25 | no name is held twice exactly when every group has a single member |
| NameGroups.DuplicatedIn | fix_remaining_duplicates.py:25 | the shared names among the keys are exactly the keys whose group has more than one member |
| NameGroups.DuplicatedInDistinct | fix_remaining_duplicates.py:25 | distinct keys give distinct shared names |
| NameGroups.GroupsOfPositions | fix_remaining_duplicates.py:21-23 | the grouping has a key for exactly the names present, each mapped to all its positions in list order |
| NameGroups.AddPosition | fix_remaining_duplicates.py:22-23 | one loop step appends the position to its name's list and a new name to the keys |
| NameGroups.GroupByName | fix_remaining_duplicates.py:21-23 | the grouping loop maps every name to all its positions, with the names in insertion order |
| NameGroups.KeepIfDuplicate | fix_remaining_duplicates.py:25 | one filtering step keeps a group exactly when it has more than one member |
| NameGroups.KeepDuplicates | fix_remaining_duplicates.py:25 | the filtering loop keeps exactly the groups of more than one member, in key order |
| NameGroups.FindDuplicates | fix_remaining_duplicates.py:20-33 | exactly the names held more than once, each with all its positions in list order, in order of first appearance |
| NameGroups.AfterPass | fix_duplicate_artifacts.py:42-71 | a renaming pass changes at most an artifact's name |
| NameGroups.RenameGroup | fix_duplicate_artifacts.py:46-71 | the loop over one group renames every member but the first, and nothing outside the group |
| NameGroups.KeptUnlessRenamed | fix_duplicate_artifacts.py:42-49 | an artifact whose name is held once, or whose group is skipped, is kept |
| NameGroups.RenameMembers | fix_remaining_duplicates.py:40-73 | the loops over the shared names rename every later member of each group not skipped, computed from the names before renaming |
| NameGroups.Renamed | fix_remaining_duplicates.py:36-73 | one result per artifact, each the artifact after the pass |
| NameGroups.RenameDuplicates | fix_remaining_duplicates.py:36-73 | grouping by the current names and renaming the later members gives exactly the pass's result |
| FixDuplicates.StripBrackets | fix_duplicate_artifacts.py:39 | the result holds neither bracket |
| FixDuplicates.PlaceholderFixed | fix_duplicate_artifacts.py:34-39 | only an artifact named "名称" with a full name changes, and only its name, which becomes bracket-free |
| FixDuplicates.PlaceholdersFixed | fix_duplicate_artifacts.py:34-39 | every artifact fixed, in order |
| FixDuplicates.FixPlaceholders | fix_duplicate_artifacts.py:34-39 | the loop fixes every artifact of the array in place |
| FixDuplicates.SizeString | fix_duplicate_artifacts.py:63-64 | the second and third space-separated words of a dimension text with more than two, otherwise the whole text |
| FixDuplicates.Distinguished | fix_duplicate_artifacts.py:52-68 | a renamed member's new name strictly extends its old name |
| FixDuplicates.FixDuplicateNames | fix_duplicate_artifacts.py:18-84 | the groups are taken from the original names, the "名称" records fixed first, and the later members of every other shared name renamed |
| FixDuplicates.OnlyNameChanges | fix_duplicate_artifacts.py:18-84 | only an artifact's name changes |
| FixDuplicates.FirstMemberKept | fix_duplicate_artifacts.py:46-49 | a name held once, and the first member of every group, is kept |
| FixDuplicates.PlaceholderRule | fix_duplicate_artifacts.py:34-44 | a "名称" record only gets its bracket-free full name |
| FixDuplicates.LaterMembersRenamed | fix_duplicate_artifacts.py:46-71 | every later member of a shared name gets the rule's new name, which extends the old one |
| FixDuplicates.OnlyFirstKeepsName | fix_duplicate_artifacts.py:46-71 | within a shared name's group, exactly its first member keeps the name |
| FixDuplicates.IdToArtifact | fix_duplicate_artifacts.py:103 | the keys are exactly the ids present, each mapped to an artifact with that id |
| FixDuplicates.IdToArtifactLast | fix_duplicate_artifacts.py:103 | an id maps to the last artifact carrying it |
| FixDuplicates.IdMapped | fix_duplicate_artifacts.py:103-106 | every artifact id is a key of the id map |
| FixDuplicates.GenericQuiz | fix_duplicate_artifacts.py:107-131 | the generic quiz is about the artifact, numbered 1, with four distinct options and the first one correct |
| FixDuplicates.GenericQuizzes | fix_duplicate_artifacts.py:105-133 | one generic quiz per id, in order |
| FixDuplicates.AppendGenericQuizzes | fix_duplicate_artifacts.py:105-133 | the loop visits every missing id once, in some order, and appends its generic quiz |
| FixDuplicates.AddMissingQuizzes | fix_duplicate_artifacts.py:86-141 | nothing is written when every artifact has a quiz; otherwise one generic quiz per artifact without one is appended after the existing quizzes, no two for the same artifact, and afterwards every artifact has a quiz |
| FixDuplicates.MissingMapped | fix_duplicate_artifacts.py:103-106 | every missing id is a key of the id map, so the lookup never fails |
| FixDuplicates.AppendedQuizzes | fix_duplicate_artifacts.py:105-133 | appending one generic quiz per missing id keeps the old quizzes, adds one per missing id and none twice |
| FixDuplicates.EveryArtifactCovered | fix_duplicate_artifacts.py:92-133 | once every missing id has a new quiz, every artifact has a quiz |
| FixDuplicates.FixAndComplete | fix_duplicate_artifacts.py:160-177 | the names are fixed, then the quizzes are completed against the fixed artifacts, so that every artifact has a quiz |
| FixRemaining.UniqueInfo | fix_remaining_duplicates.py:43-67 | never empty: the first description feature, else the size found in the dimensions, else the part of the location after its last 馆, else the member's number |
| FixRemaining.MuseumLocationFallsThrough | fix_remaining_duplicates.py:62-67 | with the museum's own name as location and no description or dimensions, the member's number is used |
| FixRemaining.InfoName | fix_remaining_duplicates.py:71 | the informative name is the group name followed by the unique info in full-width brackets |
| FixRemaining.InfoRule | fix_remaining_duplicates.py:43-71 | the first pass names member `i` of a group with the group name and that member's unique info |
| FixRemaining.NumberRule | fix_remaining_duplicates.py:84 | the numbered name is the group name followed by " #" and the member's number, so it extends the group name |
| FixRemaining.FixRemainingDuplicates | fix_remaining_duplicates.py:36-96 | the array becomes the result of the informative pass followed by the numbering pass over the names that remain shared |
| FixRemaining.NumberRemaining | fix_remaining_duplicates.py:76-86 | the names still shared are numbered from their second member on; with none shared, nothing changes |
| FixRemaining.PassShape | fix_remaining_duplicates.py:40-73 | a pass with a name-extending rule changes only names, keeps every name held once and every group's first member, and gives later members the rule's extension of the group name |
| FixRemaining.RulesExtendName | fix_remaining_duplicates.py:71-84 | both renaming rules extend the group name |
| FixRemaining.IdToName | fix_remaining_duplicates.py:101 | the keys are the artifact ids, each mapped to the name of the last artifact with that id |
| FixRemaining.Rewritten | fix_remaining_duplicates.py:118-135 | the number of rewrites counted for a text is at most the number of names found |
| FixRemaining.RewriteStep | fix_remaining_duplicates.py:119-134 | a found name counts exactly when it is not the current name and occurs in the text; an uncounted step changes nothing, and a text without the pattern is unchanged |
| FixRemaining.RewrittenCurrent | fix_remaining_duplicates.py:118-135 | a text whose found names all equal the current name is unchanged, with no rewrite counted |
| FixRemaining.RewrittenSingle | fix_remaining_duplicates.py:119-122 | a single stale name occurring in the question is replaced everywhere it stands between 《 and 》, and counted once |
| FixRemaining.Rewrite | fix_remaining_duplicates.py:119-122 | the loop over the found names gives the rewritten text and its count |
| FixRemaining.ReplaceOne | fix_remaining_duplicates.py:120-122 | one loop step rewrites and counts a stale name that occurs in the text, and leaves everything else |
| FixRemaining.RewrittenOptions | fix_remaining_duplicates.py:125-129 | every option keeps its place, with its text rewritten for the found names |
| FixRemaining.UpdatedQuiz | fix_remaining_duplicates.py:110-135 | a quiz about an unknown artifact is unchanged; otherwise only its question, option texts and explanation are rewritten, the question for the names found in it |
| FixRemaining.UpToDateQuizUnchanged | fix_remaining_duplicates.py:110-135 | a quiz whose question names only its artifact's current name is unchanged, with no rewrite counted |
| FixRemaining.OptionsCurrent | fix_remaining_duplicates.py:125-129 | options whose found names all equal the current name are unchanged |
| FixRemaining.RewriteOptions | fix_remaining_duplicates.py:125-129 | the loop over the options gives the rewritten options and their count |
| FixRemaining.UpdateQuiz | fix_remaining_duplicates.py:111-135 | the body of the quiz loop gives the rewritten quiz and its count |
| FixRemaining.MapCounted | fix_remaining_duplicates.py:107-135 | one result per element |
| FixRemaining.MapCountedSnoc | fix_remaining_duplicates.py:107-135 | one more element extends the results by its image and the count by its count |
| FixRemaining.MapCountedAt | fix_remaining_duplicates.py:110-135 | each result is the image of the element at its position |
| FixRemaining.UpdatedQuizzes | fix_remaining_duplicates.py:107-135 | one rewritten quiz per quiz |
| FixRemaining.UpdatedQuizzesAt | fix_remaining_duplicates.py:110-135 | each quiz of the result is the rewrite of the quiz at its position |
| FixRemaining.UpdateQuizzesWithArtifactNames | fix_remaining_duplicates.py:99-144 | every quiz of the array is rewritten in place against the artifacts' current names, and the total number of rewrites is returned |
| FixRemaining.UpdateQuizzes | fix_remaining_duplicates.py:107-135 | the quiz loop rewrites every quiz in place and sums the counts |
| FixRemaining.ValidateMapping | fix_remaining_duplicates.py:147-179 | true exactly when every artifact has a quiz, every quiz names an artifact and no two artifacts share a name |
| FixRemaining.Consistent | fix_remaining_duplicates.py:147-179 | the check passes exactly when every artifact has a quiz, every quiz refers to an artifact, and no two artifacts share a name |
| FixRemaining.CoveredIff | fix_remaining_duplicates.py:152 | no artifact id is missing from the quizzes exactly when every artifact has a quiz |
| FixRemaining.LinkedIff | fix_remaining_duplicates.py:160 | no quiz id is missing from the artifacts exactly when every quiz has its artifact |
| FixRemaining.NoDuplicatesIffDistinct | fix_remaining_duplicates.py:168-172 | no shared-name group exactly when all names are distinct |
| FixRemaining.RepairAndPublish | fix_remaining_duplicates.py:181-218 | the artifacts are repaired, each quiz is rewritten against the repaired names, and the data is published exactly when the check passes |
| MuseumImport.Abbreviate | data_processing/import_to_museum_system.py:77 | a description of at most 150 characters is kept; a longer one becomes its first 150 characters followed by "..." |
| MuseumImport.Summaries | data_processing/import_to_museum_system.py:72-78 | one entry per artifact, in order, each built from that artifact |
| MuseumImport.Recommend | data_processing/import_to_museum_system.py:69-78 | the loop never holds more than 12 entries |
| MuseumImport.SummariesSnoc | data_processing/import_to_museum_system.py:72-78 | one more artifact appends its entry |
| MuseumImport.TakeStep | data_processing/import_to_museum_system.py:71 | appending only while fewer than n are held keeps exactly the first n |
| MuseumImport.RecommendFirstTwelve | data_processing/import_to_museum_system.py:68-78 | the recommended entries are those of the first twelve artifacts with an image, in catalog order |
| MuseumImport.RecommendedFromImages | data_processing/import_to_museum_system.py:68-78 | every entry has an image and a description of at most 153 characters, and there are twelve entries or as many as artifacts with an image, whichever is fewer |
| MuseumImport.ImportArtifacts | data_processing/import_to_museum_system.py:44-90 | the collection is saved unchanged, the recommended subset is built by the loop, and the image map and placeholder files are those of the copy step |
| MuseumImport.ImageFileName | data_processing/import_to_museum_system.py:140-150 | the last path segment of the local image when it holds a "/", else of the image URL when it holds one, else "artifact_<id>.jpg"; a segment never holds a "/" |
| MuseumImport.ImageNames | data_processing/import_to_museum_system.py:130-158 | only non-empty image URLs are mapped |
| MuseumImport.ImageNamesFirst | data_processing/import_to_museum_system.py:133-158 | exactly the non-empty image URLs present are mapped, each to the file name of the first artifact carrying it |
| MuseumImport.Placeholders | data_processing/import_to_museum_system.py:153-169 | at most one placeholder file per artifact |
| MuseumImport.PlaceholdersCover | data_processing/import_to_museum_system.py:153-169 | afterwards every mapped file exists; no file is written twice or over an existing one |
| MuseumImport.CopyImages | data_processing/import_to_museum_system.py:118-169 | the loop builds exactly the URL-to-file map and writes exactly the missing placeholder files, in order |
| MuseumImport.SystemConfig | data_processing/import_to_museum_system.py:187-192 | the import record holds the given timestamp and the numbers of artifacts and quizzes |
| ChatRoute.LastUserMessage | app/api/chat/route.ts:43-53 | the index of the last message whose role is "user", none exactly when no message has that role |
| ChatRoute.LanguageOf | app/api/chat/route.ts:42-55 | Chinese exactly when the last user message holds a character of U+4E00..U+9FA5; English when there is no user message |
| ChatRoute.DetectLanguage | app/api/chat/route.ts:42-55 | the backward scan that stops at the first user message it meets settles on the language of the last user message |
| ChatRoute.LaterRepliesIgnored | app/api/chat/route.ts:44-53 | appending non-user messages does not change the detected language |
| ChatRoute.NewUserMessageDecides | app/api/chat/route.ts:44-53 | after a new user message the language depends on that message alone |
| ChatRoute.SystemPrompt | app/api/chat/route.ts:14-28 | each of the three task modes picks its own builder with the request's artifact information; every other mode gets the default prompt; the prompt is always in the detected language |
| ChatRoute.Post | app/api/chat/route.ts:7-28 | the request's prompt is the one its mode selects, in the language of the last user message |
| LoginDialog.NicknameError | components/UserLoginDialog.tsx:31-44 | no error exactly when the trimmed nickname is non-empty and the untrimmed one has 2 to 20 characters; otherwise the message of the first failing check: blank, too short, too long |
| LoginDialog.PaddedNicknamePasses | components/UserLoginDialog.tsx:31-50 | the length bounds apply before trimming, so " a" passes and is saved as the one-character nickname "a" |
| LoginDialog.RenamedIffTaken | components/UserLoginDialog.tsx:50-55 | the granted nickname differs from the requested one exactly when the requested one is already taken |
| LoginDialog.Notice | components/UserLoginDialog.tsx:50-55 | the rename notice is shown exactly when the trimmed nickname is taken, and names the requested and the granted nickname; otherwise the shown message is kept |
| LoginDialog.Dialog.constructor | components/UserLoginDialog.tsx:26-28 | the dialog opens with an empty nickname, no error and not submitting |
| LoginDialog.Dialog.SubmitValid | components/UserLoginDialog.tsx:46-55 | a profile is created from the trimmed nickname under a unique nickname and saved; the rename notice is set exactly when the granted nickname differs from the trimmed one |
| LoginDialog.Dialog.HandleSubmit | components/UserLoginDialog.tsx:30-61 | an invalid nickname sets its error and leaves the store unchanged; a valid one creates and saves the profile as above |
| LoginDialog.Dialog.HandleChange | components/UserLoginDialog.tsx:93-96 | typing replaces the nickname and clears the error |
| LoginDialog.Dialog.FinishSubmit | components/UserLoginDialog.tsx:58-61 | the delayed callback ends the submission and changes nothing else |
| LoginDialog.Dialog.HandleClose | components/UserLoginDialog.tsx:68-74 | closing while not submitting clears the nickname and the error; otherwise nothing changes |
| LoginDialog.Registered | lib/user-service.ts:119-125 | in a browser the new profile is appended to the saved users and made current; outside one the storage is unchanged |
| LoginDialog.Dialog.Reject | components/UserLoginDialog.tsx:31-44 | a failed check shows its error and changes nothing else |
| ZodiacAnalysis.SignTable | data_processing/zodiac/analyze_zodiac_artifacts.py:32-45 | the name table has twelve different signs as keys |
| ZodiacAnalysis.AnalysisOf | data_processing/zodiac/analyze_zodiac_artifacts.py:94-108 | a parsed answer is returned as it is; a failed call or parse becomes an answer with no sign and confidence 0 |
| ZodiacAnalysis.Recorded | data_processing/zodiac/analyze_zodiac_artifacts.py:137-141 | an answer is kept only when it lists at least one sign; an answer without a confidence counts as confidence 0 |
| ZodiacAnalysis.FailureNeverRecorded | data_processing/zodiac/analyze_zodiac_artifacts.py:106-108 | a failed call never tags an artifact, whatever the threshold |
| ZodiacAnalysis.KnownNames | data_processing/zodiac/analyze_zodiac_artifacts.py:156 | only the Chinese names of the known signs are listed: none when no sign is known, one per sign when all are |
| ZodiacAnalysis.Entries | data_processing/zodiac/analyze_zodiac_artifacts.py:137-159 | at most one tagged entry per artifact |
| ZodiacAnalysis.EntriesExactlyRecorded | data_processing/zodiac/analyze_zodiac_artifacts.py:137-159 | every tagged entry belongs to an artifact with a confident answer naming a sign, and every such artifact has its entry |
| ZodiacAnalysis.UnknownSignsStillListed | data_processing/zodiac/analyze_zodiac_artifacts.py:141-156 | an artifact whose confident answer names only unknown signs is still tagged, with no sign name, and joins no per-sign list |
| ZodiacAnalysis.InitialLists | data_processing/zodiac/analyze_zodiac_artifacts.py:121 | the per-sign lists start empty, one for each of the twelve signs |
| ZodiacAnalysis.AddIds | data_processing/zodiac/analyze_zodiac_artifacts.py:143-145 | appending ids keeps the set of signs |
| ZodiacAnalysis.UnknownSignsIgnored | data_processing/zodiac/analyze_zodiac_artifacts.py:144 | signs missing from the table change no list |
| ZodiacAnalysis.AddIdsEffect | data_processing/zodiac/analyze_zodiac_artifacts.py:143-145 | only the given id is added, only to the named signs, nothing is lost, and every known named sign receives it |
| ZodiacAnalysis.SignLists | data_processing/zodiac/analyze_zodiac_artifacts.py:121-145 | the per-sign lists always have exactly the twelve signs as keys |
| ZodiacAnalysis.SignListsExact | data_processing/zodiac/analyze_zodiac_artifacts.py:132-145 | a sign's list holds exactly the ids of the artifacts whose confident answer names that sign |
| ZodiacAnalysis.SignListsSound | data_processing/zodiac/analyze_zodiac_artifacts.py:132-145 | every id in a sign's list belongs to an artifact whose kept answer names that sign |
| ZodiacAnalysis.SignListsComplete | data_processing/zodiac/analyze_zodiac_artifacts.py:132-145 | every artifact whose kept answer names a sign has its id in that sign's list |
| ZodiacAnalysis.DedupLists | data_processing/zodiac/analyze_zodiac_artifacts.py:165-166 | each list keeps the same ids with no repeats |
| ZodiacAnalysis.FloorDiv | data_processing/zodiac/analyze_zodiac_artifacts.py:125 | Python's `//`: the quotient rounds toward minus infinity, for either sign of the divisor |
| ZodiacAnalysis.BatchCount | data_processing/zodiac/analyze_zodiac_artifacts.py:125 | for a positive batch size the number of batches lies between 0 and the number of artifacts |
| ZodiacAnalysis.SliceIndex | data_processing/zodiac/analyze_zodiac_artifacts.py:128-130 | a slice bound lands inside the list, and an in-range bound is kept as is |
| ZodiacAnalysis.BatchesCover | data_processing/zodiac/analyze_zodiac_artifacts.py:125 | the batch count is the least number of batches that reach every artifact |
| ZodiacAnalysis.BatchStart | data_processing/zodiac/analyze_zodiac_artifacts.py:127-130 | every batch starts before the end of the list |
| ZodiacAnalysis.AddToLists | data_processing/zodiac/analyze_zodiac_artifacts.py:143-145 | the loop over one answer's signs computes the per-sign lists update |
| ZodiacAnalysis.AnalyzeOne | data_processing/zodiac/analyze_zodiac_artifacts.py:133-159 | handling one artifact extends the lists and the tagged entries by exactly that artifact's contribution |
| ZodiacAnalysis.AnalyzeBatch | data_processing/zodiac/analyze_zodiac_artifacts.py:128-159 | a batch extends the lists and the tagged entries by exactly its artifacts, in order |
| ZodiacAnalysis.DedupEach | data_processing/zodiac/analyze_zodiac_artifacts.py:165-166 | the loop de-duplicates exactly the lists of the signs it visits |
| ZodiacAnalysis.DedupSignLists | data_processing/zodiac/analyze_zodiac_artifacts.py:165-166 | every sign's list is de-duplicated |
| ZodiacAnalysis.NegativeBatchesEmpty | data_processing/zodiac/analyze_zodiac_artifacts.py:125-130 | with a negative batch size a batch exists only for at most one artifact, and every slice `artifacts[start:end]` is empty |
| ZodiacAnalysis.AnalyzeZodiacArtifacts | data_processing/zodiac/analyze_zodiac_artifacts.py:110-177 | for a positive batch size the report holds the de-duplicated per-sign lists and the tagged entries of all artifacts; for a negative one it holds twelve empty lists and no entries; either way the number of artifacts, the number tagged and each sign's count |

## Left out

- Network, storage and file I/O: `fetch`, `localStorage`, JSON and CSV reading and writing, and directory creation are replaced by in-memory values. A failed fetch or parse is an absent value.
- The language model calls and prompt texts: the chat route's `streamText` call, the prompt wording of the five prompt builders, and `analyze_artifact_with_gpt`'s request. A prompt is represented by its builder and arguments; the model's answer is a parameter.
- The AI branch of `generate_quiz_data`, `test_openai_connection`, `get_openai_api_key`, and the AI interpretation on the during-visit pages: all are language-model calls.
- `print`, `logging`, `tqdm` progress bars, `time.sleep`, `argparse` and the `--sample` option: output and command-line handling only.
- React loading flags, toasts, `setTimeout` delays and rendering. `LoginDialog.Dialog.FinishSubmit` models only the state change of the delayed callback. `onLoginSuccess` and `onOpenChange` are the parent's.
- The `catch` branch of the login dialog's `handleSubmit`: in the model, storage writes cannot fail.
- The progress percentages of the questionnaire and the review quiz: display arithmetic on reals.
- `QuestionnairePage.Tally`: keeps the interest scores in half points (twice the source's numbers), so that the ½ bonuses for q2 stay integers. The ranking is unchanged.
- Saving the questionnaire result to `localStorage` and the toast in `analyzePreferences`: only the tally and the chosen preference are modelled.
- `clearFilters` on the collections page: it resets the term to "" and the period to "all", for which `CollectionsPage.FilterArtifacts` returns the whole list. It is not a separate member.
- Strings are sequences of characters. JavaScript `length` counts UTF-16 units, which differs only for characters outside the Basic Multilingual Plane. Lower-casing in the search predicate and in `_generate_id` is ASCII-only, where `toLowerCase` and `str.lower` also fold other scripts.
- Python set and dictionary iteration order is taken as first-occurrence order. This applies in `list(set(...))` of the zodiac lists and in the missing-quiz pass. `ZodiacAnalysis.DedupLists` promises the same members without repeats, not an order.
- The regular expressions of `fix_remaining_duplicates.py` (description features, size, 《…》 references) are function parameters. The model states what their results are used for, not how they are matched.
- `_validate_image_url`'s HEAD request: a `reachable` parameter.
- `ZODIAC_KEYWORDS` in `analyze_zodiac_artifacts.py` is never used by the script.
- Confidence values of zodiac answers are `real`s; JSON numbers are not modelled further.
- `MuseumDataImporter.__init__`'s directory checks, `import_quizzes` (it saves the quiz file unchanged), and the README writer and fixed `dataLocations` of `update_system_config`: file-system work only. The import record keeps the counts and the timestamp.
- `MuseumImport.PlaceholdersCover`: file existence is the given set of existing names, so an image name of "" (the directory itself) counts as written unless that set holds it.
- JSON and CSV values are assumed to have the shapes the model declares. Three cases fall outside them. `clean_quiz_data` raises when `options` is not a list or an option is not a dictionary. An option id or a `correctAnswer` of any JSON type passes through unchanged, and the model carries it as a field value. A numeric CSV cell goes through `str(text)` in `clean_text`; the model reads every cell as text or missing.
- The timestamp from `datetime`, `Date.now` and `uuidv4`: parameters.
- Every catalog operation receives the fetched artifact file as one given value. The source fetches the file again on each call, and the file could change between calls; the model assumes it does not.
- ZodiacAnalysis.AnalyzeZodiacArtifacts: requires a non-zero batch size; with 0 the script stops with a division by zero before analysing anything. Negative sizes are modelled.
- React state updates take effect at the next render. The handlers are modelled with their arguments given explicitly. The one place where this changes the outcome is listed under Findings.

## Findings

| source | as written | input that shows it | evidently intended | confidence | as-written member | corrected member |
|---|---|---|---|---|---|---|
| app/collections/page.tsx:104-111 | `handleSearch` calls `setSearchTerm(term)`, then for a blank term calls `filterArtifacts`. That function reads `searchTerm` from the same render, which is still the previous term. | A catalog with one artifact whose name and description do not contain "a". The filter is "all" and the previous term is "a". The box is then emptied. The list stays empty instead of showing the artifact. | Clearing the search shows the list of the active period filter with no term. | not executed; follows from React state updates taking effect at the next render | CollectionsPage.ClearedSearchKeepsOldTerm | CollectionsPage.HandleSearchAgrees |
