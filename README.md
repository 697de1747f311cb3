# aac-web, modelled in Dafny

aac-web is a small augmentative and alternative communication (AAC) web
client. A user who does not speak hears a question through speech
recognition. The client then offers large reply tiles ("Yes please, I'd
like orange juice.", "No thank you.", "Could I have apple juice
instead?"), tiles suggested by a dialogue service, and a page to manage
saved phrases. Most of the client is markup. This project models the
deterministic rules underneath it, one Dafny module per source file:

| module | source file | what it holds |
|---|---|---|
| `TimeBucket` | `src/util/timeBucket.ts` | the hour-of-day to MORNING/AFTERNOON/EVENING/NIGHT map |
| `ConversationPage` | `src/pages/ConversationPage.tsx` | `normalise`, the drink keyword table, the alternative drink, the reply phrases, the prompt and the three top replies, and the page state as a class |
| `ComposePage` | `src/pages/ComposePage.tsx` | `phraseChoice`/`phraseInstead`, `ICON_MAP` and `iconForText`, `splitIconLabel`, the visible-reply limits, and the dialogue-request guard with the page state as a class |
| `PhrasesApi` | `src/api/phrases.ts` | `buildQuery` over an in-place `URLSearchParams`, the URLs, and the `"<status> <statusText>[ - <body>]"` error message |
| `PhraseForm` | `src/components/PhraseForm.tsx` | `canSubmit`, the trimmed payload, and the form as a class with its submit steps |
| `PhrasesPage` | `src/pages/PhrasesPage.tsx` | the search filters, the delete confirmation, and the page as a class with `load`, edit, create, update and delete |
| `SpeechToText` | `src/hooks/useSpeechToText.ts` | the recognition session as a class with `start`, `stop` and the four recognizer events |
| `JsString` | (shared) | the JavaScript string operations the client uses: `trim`, `toLowerCase`, `includes`, and the rendering of a number in a template literal |
| `Wrappers` | (shared) | `Option`, `Result`, `Outcome` (a `Promise<void>` settled) and `Thrown`, which is what a `catch` receives |

Conventions of the model:

- Pure code becomes functions and lemmas.
- Code that updates React state or refs step by step becomes a `class`:
  - each `useState` value and each `useRef` becomes a field;
  - each handler becomes a method whose `modifies` clause names the fields it sets.
- The `await` in `load`, `startEdit` and `handleSubmit`, the token and start awaits of `start`, and the await of `stop` split their handler into steps:
  - the part before the `await`, and the part after it settles;
  - a further method composes the steps for the case where nothing happens in between;
  - other events can therefore run in between the steps, as they can in the browser.
- The page's create, update and delete handlers are single methods: each takes the settled results of its awaits as parameters.
- The outside world is passed in as parameters:
  - the settled value of every promise (server, token service, recogniser);
  - `window.confirm`;
  - the URL encoders;
  - the emoji-prefix regular expression;
  - the hour the clock reports.
- API calls are appended to a log field, so "no call was made" can be stated.
- `trim` and the regular-expression class `\s` strip the same set of code points. `IsWhite` lists that set: the ECMAScript WhiteSpace and LineTerminator characters.

## Model

| member | source | states |
|---|---|---|
| TimeBucket.LocalTimeBucket | src/util/timeBucket.ts:10-16 | hours 5..11 give MORNING, 12..16 AFTERNOON, 17..20 EVENING; within 0..23 NIGHT holds exactly for 21..23 and 0..4 |
| TimeBucket.BucketsPartitionDay | src/util/timeBucket.ts:3-15 | for every hour of the day, the hour lies in a bucket's schedule (its first hour plus its span, round the clock) exactly when the function returns that bucket |
| TimeBucket.SpansCoverDay | src/util/timeBucket.ts:5-8 | the four spans of the schedule add up to 24 hours |
| TimeBucket.Boundaries | src/util/timeBucket.ts:5-8 | the bucket switches at 4/5, 11/12, 16/17 and 20/21 |
| TimeBucket.DaytimeMonotone | src/util/timeBucket.ts:12-14 | between 05:00 and 20:59 the bucket never goes back in the order MORNING < AFTERNOON < EVENING, and is never NIGHT |
| JsString.TrimStart | src/pages/ComposePage.tsx:46 | the result is no longer than the input, is empty or starts with a non-white character, and is strictly shorter when the input starts with white space |
| JsString.TrimStartDrops | src/pages/ComposePage.tsx:46 | what trimStart keeps is a suffix of the input, and everything it drops is white space |
| JsString.TrimEnd | src/pages/ComposePage.tsx:46 | the result is no longer than the input and is empty or ends with a non-white character |
| JsString.TrimEndDrops | src/pages/ComposePage.tsx:46 | what trimEnd keeps is a prefix of the input, and everything it drops is white space |
| JsString.Trim | src/pages/ComposePage.tsx:46 | neither end of the result is white space; the result is empty exactly when the input is all white space |
| JsString.TrimOfTrimmed | src/pages/ComposePage.tsx:46 | trimming a string whose ends are not white space returns it unchanged |
| JsString.TrimIsSlice | src/pages/ComposePage.tsx:46 | the trimmed string is one contiguous slice of the input |
| JsString.TrimIdempotent | src/pages/ComposePage.tsx:46 | trimming twice is trimming once |
| JsString.NonWhite | src/pages/ConversationPage.tsx:63 | the characters of a string that are not white space, in order: never longer than the string, and free of white space |
| JsString.NonWhiteConcat | src/pages/ConversationPage.tsx:63 | taking the non-white characters distributes over concatenation |
| JsString.TrimKeepsNonWhite | src/pages/ConversationPage.tsx:63 | trimming removes only white space: the non-white characters stay, in order |
| JsString.ToLower | src/pages/ComposePage.tsx:55 | same length; no upper-case ASCII letter remains; every character is lowered on its own |
| JsString.ToLowerIdempotent | src/pages/ComposePage.tsx:55 | lowering twice is lowering once |
| JsString.Includes | src/pages/ComposePage.tsx:100 | true exactly when the needle occurs at some index of the string |
| JsString.IncludesPrefix | src/pages/ConversationPage.tsx:73 | a string that contains `a + b` contains `a` |
| JsString.NatToDecimal | src/api/phrases.ts:19 | a non-empty string of decimal digits with no leading zero |
| JsString.DecimalRoundTrip | src/api/phrases.ts:19 | reading the rendered digits back gives the number |
| ConversationPage.MaskPunctuation | src/pages/ConversationPage.tsx:63 | same length; each character that is neither a word character nor white space becomes a space, and every other character is kept |
| ConversationPage.CollapseWhite | src/pages/ConversationPage.tsx:63 | no two spaces are adjacent in the result; it starts with a space exactly where the input starts with white space; it holds only normal characters when the input held only normal characters and white space |
| ConversationPage.ScanInRun | src/pages/ConversationPage.tsx:63 | inside a run of white space, the scan skips exactly what trimStart drops |
| ConversationPage.CollapseWhiteIsScan | src/pages/ConversationPage.tsx:63 | `.replace(/\s+/g, " ")` agrees with an independent left-to-right scan: every maximal run of white space becomes one space and every other character is copied |
| ConversationPage.ScanKeepsWords | src/pages/ConversationPage.tsx:63 | the scan keeps every non-white character, in order |
| ConversationPage.CollapseKeepsWords | src/pages/ConversationPage.tsx:63 | collapsing white space keeps every non-white character, in order |
| ConversationPage.Normalise | src/pages/ConversationPage.tsx:62-64 | the result holds only lower-case letters, digits, `_` and single spaces, with no space at either end |
| ConversationPage.NormaliseIsScan | src/pages/ConversationPage.tsx:62-64 | the normal form is the masked, lower-cased text with each white-space run replaced by one space, then trimmed |
| ConversationPage.NormaliseKeepsWords | src/pages/ConversationPage.tsx:62-64 | the normal form keeps every word character of the masked, lower-cased text, in order |
| ConversationPage.TrimKeepsShape | src/pages/ConversationPage.tsx:63 | trimming a single-spaced string of normal characters gives a normalised string |
| ConversationPage.ToLowerOfNormalised | src/pages/ConversationPage.tsx:63 | lowering a normalised string changes nothing |
| ConversationPage.CollapseOfSingleSpaced | src/pages/ConversationPage.tsx:63 | collapsing white space in a string already single-spaced changes nothing |
| ConversationPage.NormaliseFixesNormalised | src/pages/ConversationPage.tsx:62-64 | a normalised string is its own normal form |
| ConversationPage.NormaliseIdempotent | src/pages/ConversationPage.tsx:62-64 | normalising twice is normalising once |
| ConversationPage.KeyHitsByKeywords | src/pages/ConversationPage.tsx:72-77 | each rule of the keyword table fires exactly when "orange" or "oj" (orange juice), "apple", "water", "milk" or "tea" occurs; the two-word variants never decide anything |
| ConversationPage.Matching | src/pages/ConversationPage.tsx:70-82 | the filter keeps only table drinks whose rule fires; it is empty exactly when no rule fires; its head is the first drink in table order whose rule fires |
| ConversationPage.FirstMatch | src/pages/ConversationPage.tsx:84-86 | a detected drink is one of DRINKS and its rule fires on the question |
| ConversationPage.DetectMentionedDrink | src/pages/ConversationPage.tsx:66-87 | a detected drink is one of DRINKS |
| ConversationPage.DrinksKeysDistinct | src/pages/ConversationPage.tsx:23-29 | the five drinks have five different keys |
| ConversationPage.NoMatchIffNoKeyword | src/pages/ConversationPage.tsx:66-84 | nothing is detected exactly when none of "orange", "oj", "apple", "water", "milk", "tea" occurs in the normalised question |
| ConversationPage.FirstMatchInTableOrder | src/pages/ConversationPage.tsx:23-29 | the i-th drink is detected exactly when its rule fires and no earlier drink's rule does |
| ConversationPage.WaterWins | src/pages/ConversationPage.tsx:24 | a question mentioning water detects Water, whatever else it mentions |
| ConversationPage.FindDrink | src/pages/ConversationPage.tsx:92-96 | a found drink is in the list and has the key; when none is found no drink has the key |
| ConversationPage.FindFirstOfKey | src/pages/ConversationPage.tsx:92-96 | `find` by key returns the first drink of the list with that key |
| ConversationPage.SafeOrderInTable | src/pages/ConversationPage.tsx:91-97 | over any table keyed in the order of DRINKS, the five lookups return the entries at positions 1, 2, 0, 4, 3 |
| ConversationPage.SafeOrderDrinks | src/pages/ConversationPage.tsx:91-97 | the safe order is orange juice, apple juice, water, tea, milk, all taken from DRINKS |
| ConversationPage.PickAlternativeDrink | src/pages/ConversationPage.tsx:89-103 | the loop returns the first drink of the safe order whose key differs from the primary's (any drink when there is no primary), else the fallback |
| ConversationPage.AlternativeIsOrangeJuice | src/pages/ConversationPage.tsx:99-100 | with no primary or a primary other than orange juice, the alternative is orange juice |
| ConversationPage.AlternativeOfOrangeJuice | src/pages/ConversationPage.tsx:99-100 | with orange juice as primary, the alternative is apple juice |
| ConversationPage.AlternativeDiffers | src/pages/ConversationPage.tsx:99-102 | the alternative's key never equals the primary's; the fallback is never used; the alternative is one of DRINKS |
| ConversationPage.PhraseYes | src/pages/ConversationPage.tsx:46-48 | "Yes please, I'd like ", the lower-cased item and "." |
| ConversationPage.PhraseInstead | src/pages/ConversationPage.tsx:52-54 | "Could I have ", the lower-cased item and " instead?" |
| ConversationPage.PhraseNo | src/pages/ConversationPage.tsx:49-51 | a non-empty sentence starting with "N" |
| ConversationPage.NoIsDistinct | src/pages/ConversationPage.tsx:46-54 | the no sentence is never a yes or an instead sentence |
| ConversationPage.YesDrink | src/pages/ConversationPage.tsx:138 | the mentioned drink, which is one of DRINKS, or else the selected drink |
| ConversationPage.PhrasesDetermineItem | src/pages/ConversationPage.tsx:46-54 | two items give the same yes or instead phrase exactly when they lower-case to the same string |
| ConversationPage.Prompt | src/pages/ConversationPage.tsx:132-135 | the trimmed question when it is not blank, otherwise "<name>, would you like a drink?"; never blank |
| ConversationPage.TopReplies | src/pages/ConversationPage.tsx:137-166 | exactly three replies with ids yes, no, instead. Their texts are the yes phrase of the mentioned-or-selected drink, "No thank you." and the instead phrase of the alternative drink |
| ConversationPage.InsteadOffersAnotherDrink | src/pages/ConversationPage.tsx:137-139 | the instead tile offers a drink with a different key from the yes tile's exactly when a drink is mentioned or the selected drink is not orange juice |
| ConversationPage.SameDrinkOnBothTiles | src/pages/ConversationPage.tsx:137-166 | with no drink mentioned and orange juice selected, both the yes tile and the instead tile name orange juice (see Findings) |
| ConversationPage.IntendedAlternative | src/pages/ConversationPage.tsx:89-103 | the alternative computed against the yes drink: its key always differs from the yes drink's, and it is one of DRINKS (see Findings) |
| ConversationPage.IntendedAgreesWhenMentioned | src/pages/ConversationPage.tsx:137-139 | when a drink is mentioned, the intended alternative is the one the code computes |
| ConversationPage.ConversationView.constructor | src/pages/ConversationPage.tsx:108-115 | the name comes from storage, with "" when absent; onboarding is done exactly when a non-empty name is stored; Water is the selected drink |
| ConversationPage.ConversationView.CompleteOnboarding | src/pages/ConversationPage.tsx:185-195 | a blank name input changes nothing; otherwise the trimmed name is stored and shown and the input cleared |
| ConversationPage.ConversationView.ResetName | src/pages/ConversationPage.tsx:197-207 | the stored name is removed; name, onboarding flag, options panel and question are reset; the prompt falls back to the default question |
| ConversationPage.ConversationView.ClearHeardQuestion | src/pages/ConversationPage.tsx:209-211 | only the question is cleared, so the prompt becomes "<name>, would you like a drink?" |
| ConversationPage.ConversationView.OnFinalText | src/pages/ConversationPage.tsx:128-130 | a non-empty final transcript replaces the question; nothing else changes |
| ComposePage.StoredLocation | src/pages/ComposePage.tsx:27-35 | "SCHOOL" and "OUT" are read back as themselves; anything else, including a missing entry, is HOME |
| ComposePage.StoredLocationRoundTrip | src/pages/ComposePage.tsx:27-41 | a stored location is read back as the same location |
| ComposePage.PhraseChoice | src/pages/ComposePage.tsx:45-50 | "Please." for a blank item, otherwise the trimmed item and ", please." |
| ComposePage.PhraseInstead | src/pages/ComposePage.tsx:52-56 | the fixed "something else" sentence for a blank item, otherwise the lower-cased trimmed item inside "Could I have … instead, please?" |
| ComposePage.PhraseChoiceDeterminesItem | src/pages/ComposePage.tsx:45-56 | surrounding white space never matters; two items give the same choice phrase exactly when they trim to the same string |
| ComposePage.InsteadTemplateNotFixed | src/pages/ComposePage.tsx:54-55 | no item put into the instead template gives the fixed "something else" sentence |
| ComposePage.SomethingElseOnlyWhenBlank | src/pages/ComposePage.tsx:52-56 | the instead phrase is the "something else" sentence exactly when the item is blank |
| ComposePage.IconForText | src/pages/ComposePage.tsx:93-109 | "" for blank text; an own key of ICON_MAP gives its icon; otherwise the substring heuristics decide |
| ComposePage.IconIsKnown | src/pages/ComposePage.tsx:58-109 | every icon returned is "" or one of ICON_MAP's icons |
| ComposePage.HeuristicIcon | src/pages/ComposePage.tsx:100-106 | the juice box exactly when "juice" occurs, so it wins over every later rule; "" exactly when none of the keywords occurs |
| ComposePage.HeuristicIconIsKnown | src/pages/ComposePage.tsx:58-106 | every icon a substring rule gives is "" or one of ICON_MAP's icons |
| ComposePage.KeywordIcons | src/pages/ComposePage.tsx:58-106 | the icon of each substring rule is the icon ICON_MAP gives its keyword |
| ComposePage.KeyIsFixed | src/pages/ComposePage.tsx:94 | the lookup key has no white space at either end and is a fixed point of trim-and-lower |
| ComposePage.IconDependsOnKeyOnly | src/pages/ComposePage.tsx:94 | the icon of a text is the icon of its lookup key |
| ComposePage.IconDependsOnKeyOnlyTrim | src/pages/ComposePage.tsx:94 | trimming the text first does not change its icon |
| ComposePage.ExactKeyFirst | src/pages/ComposePage.tsx:97 | an exact key wins over every substring rule |
| ComposePage.JuiceBeforeWater | src/pages/ComposePage.tsx:100-101 | without an exact key, text containing "juice" gets the juice box even if it also contains "water" |
| ComposePage.IconLookupAsWritten | src/pages/ComposePage.tsx:58-97 | the property read finds an own key's icon; it is undefined for every other key except the inherited names |
| ComposePage.IconForTextAsWritten | src/pages/ComposePage.tsx:93-109 | `iconForText` as written never returns undefined, and returns "" for blank text |
| ComposePage.AsWrittenForKey | src/pages/ComposePage.tsx:95-108 | for every key the code as written returns a defined value |
| ComposePage.InheritedName | src/pages/ComposePage.tsx:97 | for an inherited name, the as-written lookup returns a non-string truthy value, while the own-key lookup returns "" |
| ComposePage.InheritedKeyCounterexample | src/pages/ComposePage.tsx:97 | "constructor" and "__proto__" make the code as written return a non-string; the corrected lookup returns "" |
| ComposePage.ConstructorKey | src/pages/ComposePage.tsx:93-97 | on "constructor" the code as written returns a non-string truthy value, and the corrected lookup returns "" |
| ComposePage.ProtoKey | src/pages/ComposePage.tsx:93-97 | on "__proto__" the code as written returns a non-string truthy value, and the corrected lookup returns "" |
| ComposePage.NoHeuristicFires | src/pages/ComposePage.tsx:100-106 | no substring rule fires on a key that lacks one letter of every keyword |
| ComposePage.ConstructorNotMapped | src/pages/ComposePage.tsx:58-90 | "constructor" is not an own key of ICON_MAP and lacks one letter of every keyword |
| ComposePage.ProtoNotMapped | src/pages/ComposePage.tsx:58-90 | "__proto__" is not an own key of ICON_MAP and lacks one letter of every keyword |
| ComposePage.AsWrittenAgreesElsewhere | src/pages/ComposePage.tsx:93-109 | on every key other than the two inherited names, the code as written and the corrected lookup agree |
| ComposePage.SplitIconLabel | src/pages/ComposePage.tsx:113-124 | a blank label gives an empty icon and empty text; with an emoji prefix the icon is the matched emoji and the text is the trimmed rest; without one the text is the trimmed label and the icon is IconForText of it, the corrected lookup of Findings; the text is always trimmed |
| ComposePage.VisibleReplies | src/pages/ComposePage.tsx:319 | at most three replies are shown, and they are the first ones of the response |
| ComposePage.ReplyTilesIff | src/pages/ComposePage.tsx:450 | with `replies` the first three of the response (line 319), the reply tiles render exactly when the response holds at least three replies; they are then its first three |
| ComposePage.VisibleItems | src/pages/ComposePage.tsx:528 | at most eight items of a group are shown, and they are its first ones |
| ComposePage.UpperChar | src/pages/ComposePage.tsx:531 | ASCII lower-case letters become upper-case letters; other characters are kept |
| ComposePage.ItemLabel | src/pages/ComposePage.tsx:530-532 | "Item" for an empty item, otherwise the item with its first character upper-cased |
| ComposePage.ComposeView.constructor | src/pages/ComposePage.tsx:129-149 | the name and location come from storage; no question, no replies, no request remembered or scheduled |
| ComposePage.ComposeView.RunRequestEffect | src/pages/ComposePage.tsx:223-254 | a request is scheduled exactly when there is a name, the trimmed question is non-empty, recognition is not listening, and the question differs from the last one requested; the request carries the name, the trimmed question and the location |
| ComposePage.ComposeView.DebounceElapsed | src/pages/ComposePage.tsx:234-243 | the scheduled request is sent and becomes the last requested question; loading starts and the error is cleared |
| ComposePage.ComposeView.RepliesSettled | src/pages/ComposePage.tsx:244-248 | the response is shown, or the error message ("Failed to get AI replies" for a non-Error); loading ends either way |
| ComposePage.ComposeView.CompleteOnboarding | src/pages/ComposePage.tsx:186-196 | a blank name input changes nothing; otherwise the trimmed name is stored and shown |
| ComposePage.ComposeView.SetLocation | src/pages/ComposePage.tsx:159-161 | the chosen location is stored, and it reads back as itself |
| ComposePage.ComposeView.ResetName | src/pages/ComposePage.tsx:198-212 | the name is removed; question, replies, reply error and the last requested question are cleared; the options panel closes |
| ComposePage.ComposeView.ClearHeardQuestion | src/pages/ComposePage.tsx:214-220 | question, replies, reply error and last requested question are cleared, and the options panel closes |
| ComposePage.ComposeView.OnFinalText | src/pages/ComposePage.tsx:155-157 | a non-empty final transcript replaces the question |
| ComposePage.NoRepeatRequest | src/pages/ComposePage.tsx:230 | once a question has been requested, the same question never schedules another request |
| ComposePage.ShouldRequest | src/pages/ComposePage.tsx:224-230 | a request is only ever scheduled with a name, a non-blank question and recognition not listening |
| ComposePage.GuardEarlyReturns | src/pages/ComposePage.tsx:224-230 | each of the four early returns blocks the request; when none applies, the request is scheduled |
| PhrasesApi.RemoveName | src/api/phrases.ts:9-11 | no entry of the given name remains, and every other entry is kept |
| PhrasesApi.SetPair | src/api/phrases.ts:10-11 | after `set` the named entry has the new value, and every entry of another name is kept; on a list without that name the entry is appended |
| PhrasesApi.Serialize | src/api/phrases.ts:12 | the string is empty exactly when there are no entries, and it starts with the first entry's name and "=" |
| PhrasesApi.SearchParams.Set | src/api/phrases.ts:10-11 | the entries become those of `set` applied to the old entries |
| PhrasesApi.Query | src/api/phrases.ts:8-14 | the query string is empty exactly when both q and category are absent or empty; otherwise it starts with "?" |
| PhrasesApi.BuildQuery | src/api/phrases.ts:8-14 | filling a fresh URLSearchParams with q and category and serialising it gives Query |
| PhrasesApi.QueryBoth | src/api/phrases.ts:10-11 | with both parameters present, the query is "?q=…&category=…", with q first |
| PhrasesApi.QueryOne | src/api/phrases.ts:10-11 | with one parameter present, the query holds only that entry |
| PhrasesApi.EmptyIsAbsent | src/api/phrases.ts:10-11 | an empty-string parameter gives the same query as an absent one |
| PhrasesApi.ListUrl | src/api/phrases.ts:26 | "/api/phrases", then nothing when no parameter is present, else the query starting with "?" |
| PhrasesApi.ItemUrl | src/api/phrases.ts:31 | "/api/phrases/" followed by the encoded id |
| PhrasesApi.BodyText | src/api/phrases.ts:18 | the body, or "" when reading it fails |
| PhrasesApi.ErrorMessage | src/api/phrases.ts:19 | the message starts with the status in decimal, and is exactly status, space and status text when the body is empty |
| PhrasesApi.ErrorMessageParts | src/api/phrases.ts:19 | the message starts with the status in decimal and a space, then the status text. " - " and the body follow exactly when the body is non-empty. The status reads back from the message |
| PhrasesApi.ErrorMessageDistinguishesStatus | src/api/phrases.ts:19 | failures with different status codes never produce the same message |
| PhrasesApi.HandleJson | src/api/phrases.ts:16-22 | a good response yields its JSON; a failed one rejects with an Error |
| PhrasesApi.Remove | src/api/phrases.ts:53-61 | `remove` succeeds exactly when the response is ok |
| PhrasesApi.RemoveAgreesWithHandleJson | src/api/phrases.ts:57-59 | `remove` rejects a failed response with the same message as `handleJson` does |
| PhraseForm.Payload | src/components/PhraseForm.tsx:43 | both fields are trimmed; each is empty exactly when the input was all white space |
| PhraseForm.CanSubmit | src/components/PhraseForm.tsx:35 | the button is enabled exactly when neither field is all white space and no submit is in progress |
| PhraseForm.EnabledPayloadNonEmpty | src/components/PhraseForm.tsx:35 | whenever the submit button is enabled, the payload's text and category are non-empty |
| PhraseForm.PayloadStable | src/components/PhraseForm.tsx:43 | a payload put back into the form gives the same payload again |
| PhraseForm.Form.constructor | src/components/PhraseForm.tsx:17-28 | fields start from the initial props, with "" and `false` for props left out; not submitting, no error |
| PhraseForm.Form.SyncInitial | src/components/PhraseForm.tsx:30-33 | a change of the initial props overwrites both fields |
| PhraseForm.Form.EditText | src/components/PhraseForm.tsx:64 | typing sets the text |
| PhraseForm.Form.EditCategory | src/components/PhraseForm.tsx:75 | typing sets the category |
| PhraseForm.Form.BeginSubmit | src/components/PhraseForm.tsx:37-44 | the error is cleared, the form is busy, and the trimmed payload is handed to onSubmit |
| PhraseForm.Form.SubmitSettled | src/components/PhraseForm.tsx:46-54 | on success the fields are cleared only when clearOnSuccess is set; on failure the fields stay and the error is the message or "Failed to save phrase"; the form is no longer busy |
| PhraseForm.Form.HandleSubmit | src/components/PhraseForm.tsx:37-55 | the whole submit: the payload handed to onSubmit is the trimmed fields as they were at submit time, the error is clear after a success, and busy is false on both paths |
| PhrasesPage.FiltersTrimmed | src/pages/PhrasesPage.tsx:20-23 | each filter is the trimmed input, or undefined when the input is blank |
| PhrasesPage.FiltersArePresent | src/pages/PhrasesPage.tsx:20-23 | a defined filter is never "", so it always reaches the query string |
| PhrasesPage.FiltersIgnoreSurroundingSpace | src/pages/PhrasesPage.tsx:20-23 | white space around the inputs does not change the filters |
| PhrasesPage.Filters | src/pages/PhrasesPage.tsx:20-23 | a defined filter is a non-empty string with no white space at either end |
| PhrasesPage.FindPhrase | src/pages/PhrasesPage.tsx:82 | the first listed phrase with the id, or none exactly when no phrase has it |
| PhrasesPage.ConfirmSubject | src/pages/PhrasesPage.tsx:83 | the confirmation names a listed phrase's text when the id is listed, otherwise the id |
| PhrasesPage.ConfirmMessage | src/pages/PhrasesPage.tsx:83 | `Delete phrase "`, then the subject, then `"?` |
| PhrasesPage.Page.constructor | src/pages/PhrasesPage.tsx:8-18 | empty filters and list, not loading, no error, notice or edit |
| PhrasesPage.Page.ShowNotice | src/pages/PhrasesPage.tsx:25-28 | the notice is shown |
| PhrasesPage.Page.NoticeExpired | src/pages/PhrasesPage.tsx:27 | the notice timer clears the notice |
| PhrasesPage.Page.EditQuery | src/pages/PhrasesPage.tsx:43-46 | typing sets the search input; the load effect re-runs exactly when the trimmed query changes |
| PhrasesPage.Page.EditCategory | src/pages/PhrasesPage.tsx:43-46 | typing sets the category input; the load effect re-runs exactly when the trimmed category changes |
| PhrasesPage.Page.BeginLoad | src/pages/PhrasesPage.tsx:30-34 | the error is cleared, loading starts, and the list is requested with the current filters |
| PhrasesPage.Page.LoadSettled | src/pages/PhrasesPage.tsx:34-40 | success replaces the list; failure keeps it and sets the error ("Failed to load phrases" for a non-Error); loading ends |
| PhrasesPage.Page.Load | src/pages/PhrasesPage.tsx:30-41 | one list call; after a success the list is the server's and there is no error; after a failure the list is unchanged and the error set; loading is false |
| PhrasesPage.Page.BeginEdit | src/pages/PhrasesPage.tsx:48-54 | edit mode for the id, with no phrase loaded yet and no error; the phrase is requested |
| PhrasesPage.Page.EditFetched | src/pages/PhrasesPage.tsx:54-59 | the fetched phrase fills the form; on failure edit mode ends and the error is set ("Failed to load phrase" for a non-Error) |
| PhrasesPage.Page.StartEdit | src/pages/PhrasesPage.tsx:48-60 | the whole `startEdit`: edit mode with the phrase, or no edit mode and the error |
| PhrasesPage.Page.CancelEdit | src/pages/PhrasesPage.tsx:62-65 | both the editing id and the editing phrase are cleared |
| PhrasesPage.Page.CreatePhrase | src/pages/PhrasesPage.tsx:67-71 | a rejected create reaches the form and changes nothing on the page; a successful one shows "Phrase created" and reloads the list |
| PhrasesPage.Page.UpdatePhrase | src/pages/PhrasesPage.tsx:73-79 | outside edit mode nothing happens and no call is made. A rejected update reaches the form. A successful one shows "Phrase updated", leaves edit mode and reloads |
| PhrasesPage.Page.DeletePhrase | src/pages/PhrasesPage.tsx:81-93 | declining the confirmation changes nothing and calls nothing. A rejected delete sets the error ("Failed to delete phrase" for a non-Error). A successful one shows "Phrase deleted" and reloads |
| SpeechToText.InterimText | src/hooks/useSpeechToText.ts:59-61 | the result's text, or "" when there is none |
| SpeechToText.FinalTextAfter | src/hooks/useSpeechToText.ts:63-68 | the trimmed text of a recognised, non-blank utterance, otherwise the previous final text; a new final text is never blank |
| SpeechToText.RecognizedIdempotent | src/hooks/useSpeechToText.ts:63-68 | delivering the same recognised event twice changes nothing the second time |
| SpeechToText.CancelMessage | src/hooks/useSpeechToText.ts:71 | "Speech canceled: " followed by the details when there are any |
| SpeechToText.CancelMessageNamesReason | src/hooks/useSpeechToText.ts:71 | without details, the rest of the message is the reason code in decimal and reads back as the code |
| SpeechToText.Recognizer.RequestStop | src/hooks/useSpeechToText.ts:26 | the recognizer has been asked to stop |
| SpeechToText.Recognizer.Close | src/hooks/useSpeechToText.ts:32 | the recognizer is closed |
| SpeechToText.SpeechSession.constructor | src/hooks/useSpeechToText.ts:6-12 | no recognizer, no stop in progress, not listening, empty texts, no error |
| SpeechToText.SpeechSession.StartBegin | src/hooks/useSpeechToText.ts:41-43 | the error and both texts are cleared before anything else |
| SpeechToText.SpeechSession.TokenSettled | src/hooks/useSpeechToText.ts:46-79 | a token failure turns listening off and sets the error ("Failed to start recognition" for a non-Error); otherwise a new recognizer becomes current and listening turns on |
| SpeechToText.SpeechSession.RecognitionStartSettled | src/hooks/useSpeechToText.ts:81-90 | a rejected start turns listening off and sets the error |
| SpeechToText.SpeechSession.Start | src/hooks/useSpeechToText.ts:40-91 | the whole `start`: texts cleared; any failure leaves listening off with the error set; success leaves a fresh recognizer listening |
| SpeechToText.SpeechSession.Stop | src/hooks/useSpeechToText.ts:14-30 | during a stop in progress it does nothing. With no recognizer, listening goes off and the stop ends. Otherwise the recognizer is asked to stop and the stop waits on it |
| SpeechToText.SpeechSession.StopSettled | src/hooks/useSpeechToText.ts:25-37 | the recognizer waited on is closed, the handle cleared, listening off and the stop flag down |
| SpeechToText.SpeechSession.StopAndWait | src/hooks/useSpeechToText.ts:14-38 | a whole stop ends with no recognizer, not listening and no stop in progress; a recognizer that existed was asked to stop and closed |
| SpeechToText.SpeechSession.OnRecognizing | src/hooks/useSpeechToText.ts:59-61 | the interim text becomes the result's text, or "" |
| SpeechToText.SpeechSession.OnRecognized | src/hooks/useSpeechToText.ts:63-68 | the final text changes only for a recognised, non-blank utterance, to its trimmed text |
| SpeechToText.SpeechSession.OnCanceled | src/hooks/useSpeechToText.ts:70-73 | the error becomes "Speech canceled: …", then the stop path runs |
| SpeechToText.SpeechSession.OnSessionStopped | src/hooks/useSpeechToText.ts:75-77 | the stop path runs; the unmount cleanup does the same |
| Wrappers.MessageOr | src/pages/PhrasesPage.tsx:37 | an Error contributes its message; any other thrown value gives the fallback |

## Left out

- The `fetch` calls, the token service and the speech SDK are not modelled; their settled results are parameters. Audio playback (`speak`), focus handling and timers are left out: only the guard and the timer's effect are modelled, not the 250 ms and 2500 ms delays.
- Local storage is a field. The `try`/`catch` around it that swallows storage exceptions is left out.
- The speech SDK configuration (the language, the microphone input, `fromAuthorizationToken`) is left out, and so are synchronous exceptions from constructing the recognizer.
- The percent-encoding of `URLSearchParams` and `encodeURIComponent` is left out; the encoders are parameters. The two parameter names, `q` and `category`, are written unencoded, which is what form encoding does to them.
- The `\p{Extended_Pictographic}` emoji match of `splitIconLabel` is left out; its result is a parameter.
- JsString.ToLower: lowers only the ASCII letters. `toLowerCase` also lowers other scripts, which the model does not cover.
- ComposePage.UpperChar: the same, for `toUpperCase`.
- ComposePage.ItemLabel: indexes code points where JavaScript indexes UTF-16 code units, so an item starting with an astral character differs.
- ConversationPage.Prompt: stands for the `prompt` memo of both pages. The two memos have the same body (src/pages/ComposePage.tsx:163-166).
- ComposePage.VisibleReplies: assumes the response's `topReplies` is present, as its declared type says. The `?.` guard for a missing list is left out.
- Overlapping asynchronous work is left out: two loads, or a `start` during a `stop`. The split methods let such interleavings be written down, but no property about them is proved.
- Other parts of the repository are not part of this model: the fetch wrappers in src/api/dialogue.ts, src/api/tts.ts, src/api/speechToken.ts and src/api/suggestions.ts, all JSX markup and styling, and the demo seeding.
- PhrasesPage.Page.CreatePhrase, PhrasesPage.Page.UpdatePhrase and PhrasesPage.Page.DeletePhrase: each is one step, so no other event runs between their awaits (the API call and the reload).
- ConversationPage.ConversationView.CompleteOnboarding and ComposePage.ComposeView.CompleteOnboarding: the greeting spoken with `await speak(...)` after the name is saved is left out, with the rest of audio playback.
- SpeechToText.SpeechSession.StopSettled: assumes `close()` returns. If it throws, the `finally` at src/hooks/useSpeechToText.ts:35-37 resets only the stop flag and leaves the recognizer handle and listening as they were; that path is not modelled.
- PhrasesPage.Page.EditQuery and PhrasesPage.Page.EditCategory: report whether the load effect re-runs; the re-run itself is a separate call to the load steps.
- PhrasesApi.HandleJson: does not state what `res.json()` yields beyond passing it through. JSON parsing is the runtime's.

## Findings

| source | as written | input that shows it | evidently intended | confidence | as-written member | corrected member |
|---|---|---|---|---|---|---|
| src/pages/ComposePage.tsx:97 | `ICON_MAP[t]` reads a plain object literal, so the lowered key also finds properties inherited from `Object.prototype`: the `constructor` function and the `__proto__` object, which are truthy and are returned as the "icon" | an option item or reply label "constructor" (or "__proto__") | only the map's own keys are icons; such a text has no icon and `iconForText` returns "" | not executed | ComposePage.InheritedKeyCounterexample | ComposePage.IconForText |
| src/pages/ConversationPage.tsx:138-139 | the instead tile's drink is `pickAlternativeDrink(mentionedDrink, selectedDrink)`, so with no drink mentioned it is the first drink of the safe order, orange juice, whatever drink the yes tile offers | a question that names no drink (or none at all) while orange juice is the selected drink: the tiles read "Yes please, I'd like orange juice." and "Could I have orange juice instead?" | the alternative differs from the yes drink, as the comment in `pickAlternativeDrink` says; computed against the yes drink, it is apple juice here | medium, not executed | ConversationPage.SameDrinkOnBothTiles | ConversationPage.IntendedAlternative |
