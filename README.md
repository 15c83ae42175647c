# MAB Digital Tools — a verified model of the site's search, tools and API routes

MAB Digital Tools is a Next.js site. It has a catalogue of tools and blog posts, a search on the home, tools and blog pages, a contact form, a TikTok preview tool and a client for the Tellabot SMS-verification service. This project models the logic behind those features in Dafny and proves what that logic promises:

- **Slug** (`src/lib/slug.ts`): `toSlug` and `sameSlug`.
- **RelativeDate** (`src/lib/date.ts`): `getRelativeLabel`.
- **Contact** (`src/app/api/contact/route.ts`): the contact route's trimming, validation, subject choice and HTML escaping. The mail service is a function parameter.
- **TikTok** (`src/app/api/tools/tiktok-oembed/route.ts`): the oEmbed preview route. The URL test is its regular expression, expanded into its four prefixes. The oEmbed fetch is a parameter.
- **TellabotRelay** (`src/app/api/tools/tellabot/route.ts`): the Tellabot relay route.
  - Its guard: required fields and the twenty-command allow-list.
  - The query parameters it forwards. These are built in place on a `URLSearchParams` object, modelled as the class `UrlParams.SearchParams`.
  - How it maps the provider's reply.
- **The Tellabot client** (`src/app/tools/tellabot/TellabotClient.tsx`):
  - **TellabotForm**: the pure helpers, namely the `mm:ss` countdown, the SMS text, and the form checks of `handleGetNumber` and `canSubmitRequest`.
  - **TellabotRecords**: the reservation records and every map applied to their list. This covers the countdown, save and restore, an SMS arriving, a cancellation, and new and reactivated records.
  - **TellabotTracker**: a class holding the login flag and the list, whose methods are the client's handlers. Each relay call is modelled by its reply, passed as a parameter.
- **SiteSearch**, **ToolsPage**, **BlogPage** (`src/app/tools/page.tsx`, `src/app/blog/page.tsx`): the query normalisation, the order-keeping filter, the "N result(s) found" label and the URL sync.
- **HomePage** (`src/app/page.tsx`):
  - the keyword pool (`buildKeywordPool`, written as loops over the catalogues);
  - the ranked suggestions;
  - the inline results;
  - the search box's state, as the class `HomePage.HeroSearch`.
- **SiteHeader** (`src/components/Header.tsx`): the active-link rule, the menu flag and where a header search goes.

Shared modules:

- `Text`: the JavaScript whitespace set, ASCII `toLowerCase`, `trim`, `startsWith`, `includes` and decimal digits.
- `Js`: JSON values, truthiness and `String(...)`.
- `UrlParams`: `URLSearchParams`.
- `Wrappers`: `Option` and `Result`.

Clocks, timers, storage, fetches and parsing become parameters. For example, `now`, a parsed time that is absent for an invalid date, a reply datatype, or the function that fetches a URL.

Behaviours of the code that its documentation states otherwise or leaves unsaid; the model follows the code:

- **Tick is not idempotent.** Each tick of the one-second countdown removes one second from every waiting record.
- **Restore clamps the countdown.** Restoring from storage recomputes the countdown as `max(0, floor((expiresAt - now) / 1000))`. A waiting record with nothing left becomes expired. A newly created record, however, counts down the provider's `till_expiration` exactly as given. It starts expired when that is not positive.
- **A late SMS revives an expired record.** A poll reply that arrives after a record expired or was cancelled still moves that record to "message" (`TellabotRecords.LateSmsRevivesExpired`).
- **Reactivation can reuse an id.** When the provider omits the id, a reactivated record takes the source record's id. Ids are therefore not unique, and a later cancellation expires both records (`TellabotRecords.ReactivateMayShareId`).
- **Records without an id merge on reload.** A record the provider gave no id has the id NaN, which equals nothing. Saving writes NaN as `null`, and `null === null`. After a reload, an SMS or a cancellation for one such record therefore applies to all of them (`TellabotRecords.NaNIdsMergeOnReload`).
- **An invalid date reads "NaN years ago".** `getRelativeLabel` labels a date string that does not parse "NaN years ago".
- **TikTok errors.** A provider body that is not JSON is answered 500, not 502, because `res.json()` throws into the outer handler. A `url` that is present but not a string makes `trim` throw, which is also a 500.
- **Hero-search keys.** On the home page, ArrowUp can leave the highlight index past the end of the list after `applySuggestion` shortened it (`HomePage.ArrowBounds`). Submitting scrolls only when the debounced query has at least 3 characters, because the results section exists only then.
- **URL sync.** The blog page tests the parameter count (`size`). The tools page tests the serialised text. Both give the same URL.

## Model

| member | source | states |
|---|---|---|
| Slug.SlugifySpec | src/lib/slug.ts:1-7 | `toSlug` yields a slug: lowercase letters, digits and single inner hyphens, none at either end. It keeps exactly the letters and digits of the lowercased input, in order. It is empty exactly when the input has no letter or digit. |
| Slug.CollapseShape | src/lib/slug.ts:6 | Replacing each non-`[a-z0-9]` run by `-` leaves no two hyphens in a row. The result is empty only for empty input and starts with `-` exactly when the input starts with a non-alphanumeric. |
| Slug.CollapseAlnums | src/lib/slug.ts:6 | The run replacement keeps every letter and digit, in order. |
| Slug.StripHyphensSlug | src/lib/slug.ts:7 | Removing the leading and trailing hyphen of a collapsed string gives a slug with the same letters and digits. |
| Slug.TrimAlnums | src/lib/slug.ts:5 | `trim` removes no letter or digit. |
| Slug.SlugFixpoint | src/lib/slug.ts:1-7 | A string that is already a slug is its own slug. |
| Slug.SlugifyIdempotent | src/lib/slug.ts:1-7 | Slugifying twice is slugifying once. |
| Slug.EmptySlug | src/lib/slug.ts:2 | A missing input slugifies to the empty string. |
| Slug.SameSlugAbsent | src/lib/slug.ts:9-10 | A missing value has the same slug as `b` exactly when `b` has no letters or digits. |
| Slug.SameAsOwnSlug | src/lib/slug.ts:9-10 | Every string has the same slug as its own slug. |
| RelativeDate.ClassifySpec | src/lib/date.ts:15-26 | Under 60 seconds, the future included, is "Just now". Otherwise the unit is the largest one that fits, with its exact second range. The count is the elapsed seconds divided by the unit, rounded down. It is at least 1 and below the next unit's size. |
| RelativeDate.NestedFloor | src/lib/date.ts:17-25 | The successive floor divisions equal one floor division by the unit's length in seconds. |
| RelativeDate.RenderAgo | src/lib/date.ts:18-26 | A count label starts with the count's decimal digits and a space. The unit is plural exactly when the count is not 1. |
| RelativeDate.RenderInjective | src/lib/date.ts:16-26 | Different ages give different labels. |
| RelativeDate.UnparsableDate | src/lib/date.ts:13-26 | A date that does not parse is labelled "NaN years ago", and no parsed date is. |
| RelativeDate.Examples | src/lib/date.ts:15-26 | The bucket edges: 59 s, -5 s, 60 s, 3599 s, 7200 s, 359 days and 360 days. |
| RelativeDate.LabelExamples | src/lib/date.ts:18-20 | "1 minute ago" and "2 hours ago". |
| Contact.EscapeHtmlIsSinglePass | src/app/api/contact/route.ts:69-75 | The four replacements, `&` first, escape each character exactly once. |
| Contact.EscapeHtmlSafe | src/app/api/contact/route.ts:69-75 | Escaped text holds no `<`, `>` or `"`, and every `&` in it starts one of the four entities. |
| Contact.EscapeHtmlRoundTrip | src/app/api/contact/route.ts:69-75 | Decoding the four entities gives back the original text. |
| Contact.EscapeHtmlIdentity | src/app/api/contact/route.ts:69-75 | Text without `&`, `<`, `>` and `"` is left unchanged; `'` is not escaped. |
| Contact.EscapeHtmlConcat | src/app/api/contact/route.ts:69-75 | Escaping distributes over concatenation. |
| Contact.ReplaceAllChars | src/app/api/contact/route.ts:71-74 | After a global replacement the character is gone unless the replacement reintroduces it. Every other character is kept. |
| Contact.EmailParts | src/app/api/contact/route.ts:21 | An accepted address is three non-empty whitespace-free runs joined by `@` and `.`. |
| Contact.EmailFromParts | src/app/api/contact/route.ts:21 | Every address of that shape is accepted. |
| Contact.ValidationGate | src/app/api/contact/route.ts:20-27 | The answer is 400 "Validation failed" exactly when the trimmed fields fail validation. No mail is sent then. |
| Contact.ValidSubmission | src/app/api/contact/route.ts:29-60 | A valid submission sends one mail: reply-to is the address, and the subject is `[MAB Digital Tools] <subject>: <name>`. The escaped fields carry no markup and decode back. The mail service's outcome maps to 200, or to 500 with its message or the default message. |
| Contact.SubjectSpec | src/app/api/contact/route.ts:29-32 | `bug` and `feature` get their own subject. Every other topic is "General Feedback". |
| Contact.MissingTopic | src/app/api/contact/route.ts:17 | A missing topic reads as `feedback`, which is filed as general feedback. |
| Contact.FieldsTrimmed | src/app/api/contact/route.ts:15-18 | The name and the message have no whitespace at either end. |
| TikTok.UrlRequired | src/app/api/tools/tiktok-oembed/route.ts:14-22 | A missing or blank `url` is a 400 "TikTok URL is required." (both directions). A non-string `url` is a 500. |
| TikTok.RejectedWithoutFetch | src/app/api/tools/tiktok-oembed/route.ts:24-31 | A non-blank URL that fails the pattern is a 400 whatever the oEmbed call would do. |
| TikTok.AnswerSpec | src/app/api/tools/tiktok-oembed/route.ts:37-79 | For an accepted URL: 502 exactly for a non-OK status or a body without a truthy `thumbnail_url` and `html`. 500 exactly for a throw or a non-JSON body. Otherwise the five fields are renamed and the URL is echoed. |
| TikTok.PreviewEchoesUrl | src/app/api/tools/tiktok-oembed/route.ts:16-70 | A preview echoes the trimmed URL, which the pattern accepts and which has no surrounding whitespace. |
| TikTok.UrlCaseInsensitive | src/app/api/tools/tiktok-oembed/route.ts:25 | The `i` flag: a URL passes exactly when its lowercase form does. |
| TikTok.PrefixAccepted | src/app/api/tools/tiktok-oembed/route.ts:25 | Each of the four prefixes, followed by any path, passes. |
| TikTok.UrlExamples | src/app/api/tools/tiktok-oembed/route.ts:25 | Short links, look-alike hosts and other schemes fail. |
| TellabotRelay.GuardSpec | src/app/api/tools/tellabot/route.ts:35-57 | The route answers 400 "Missing required parameters" exactly when `cmd`, `user` or `api_key` is falsy. It answers 400 "Unsupported Tellabot command" exactly when they are present and `cmd` is outside the twenty commands. An unreadable or `null` body is a 500. Otherwise the command passes. |
| TellabotRelay.RejectedWithoutCall | src/app/api/tools/tellabot/route.ts:39-57 | A rejected request is answered without the provider call, with 400 or 500. |
| TellabotRelay.ProviderOutcome | src/app/api/tools/tellabot/route.ts:77-110 | After the guard: a failed call is a 500, a non-JSON body a 502 carrying the raw text, and JSON is passed through. |
| TellabotRelay.BuildParams | src/app/api/tools/tellabot/route.ts:59-75 | The in-place `set` calls build exactly the forwarded parameter list. |
| TellabotRelay.ForwardAppends | src/app/api/tools/tellabot/route.ts:59-75 | With distinct, unreserved keys every `set` appends. The parameters are the three base ones followed by the usable extras in order. |
| TellabotRelay.ForwardedParamsSpec | src/app/api/tools/tellabot/route.ts:59-75 | `cmd`, `user` and `api_key` come first and cannot be replaced. An extra field is forwarded, stringified, exactly when it is not `undefined`, `null`, `""` or an object. |
| UrlParams.SetKeySpec | src/app/api/tools/tellabot/route.ts:60-74 | After `set(k, v)` exactly one pair is named `k` and `get(k)` is `v`. The other pairs are kept in order. A new key is appended. |
| UrlParams.DeleteKeySpec | src/app/tools/page.tsx:29 | After `delete(k)`, `get(k)` is absent, and deleting again changes nothing. |
| UrlParams.LookupFound | src/app/api/tools/tellabot/route.ts:74 | `get(k)` finds a value exactly when some pair is named `k`. |
| UrlParams.SearchParams.Set | src/app/api/tools/tellabot/route.ts:60-62 | The object's pairs become `set(k, v)` of the old ones. |
| UrlParams.SearchParams.Delete | src/app/tools/page.tsx:29 | The object's pairs become `delete(k)` of the old ones. |
| TellabotForm.FormatSecondsClock | src/app/tools/tellabot/TellabotClient.tsx:125-132 | A positive countdown prints as minutes digits, `:`, and two seconds digits below 60. Read back they give the countdown, and the minutes have two digits exactly below 100 minutes. |
| TellabotForm.FormatSecondsZero | src/app/tools/tellabot/TellabotClient.tsx:126 | `00:00` is printed exactly when the countdown is not positive. |
| TellabotForm.SmsTextShown | src/app/tools/tellabot/TellabotClient.tsx:555-561 | The SMS text is never empty and starts with a non-empty reply. An empty reply shows the pin or "SMS received.". A pin is visible exactly when the reply is empty or already contains it. |
| TellabotForm.SmsTextExample | src/app/tools/tellabot/TellabotClient.tsx:558-560 | A reply that contains its pin gets ` (PIN: …)` appended. |
| TellabotForm.CheckRequestFormSpec | src/app/tools/tellabot/TellabotClient.tsx:417-477 | The form passes exactly when the user is logged in with credentials and a service is chosen, and the chosen filter is well formed: a state, a 3-digit area code in 201..999, or an 11-digit MDN. The parameters are then `cmd`, `user`, `api_key`, `service` and at most the one selected filter. |
| TellabotForm.CanSubmitAgreesWithCheck | src/app/tools/tellabot/TellabotClient.tsx:709-722 | Every form the handler accepts has its button enabled. Enabled forms that are still rejected lack a credential or have an area code outside 201..999. |
| TellabotRecords.TickOne | src/app/tools/tellabot/TellabotClient.tsx:254-261 | Only a waiting record changes. Its countdown drops by one, floored at 0, and it expires exactly when nothing is left. A waiting record keeps time left. |
| TellabotRecords.TicksUntilExpiry | src/app/tools/tellabot/TellabotClient.tsx:249-267 | A record with `n` seconds waits with `n - k` seconds after `k < n` ticks and is expired from the `n`-th tick on. |
| TellabotRecords.RestoreOne | src/app/tools/tellabot/TellabotClient.tsx:194-210 | The restored countdown is the whole seconds left, at least 0. A waiting record with nothing left is expired. Every other field is the stored one. |
| TellabotRecords.PersistRoundTrip | src/app/tools/tellabot/TellabotClient.tsx:188-245 | Save then restore keeps every record in place, with every field except three. A NaN id comes back as `null`, because `JSON.stringify` writes NaN as `null`. The countdown is recomputed. The mode changes only from waiting to expired. |
| TellabotRecords.ReloadedIdsMatch | src/app/tools/tellabot/TellabotClient.tsx:194-245 | After a reload two ids are equal under `===` exactly when they were before, or when neither was a number. |
| TellabotRecords.NaNIdsMergeOnReload | src/app/tools/tellabot/TellabotClient.tsx:563-574 | Two records without a provider id share no SMS before a reload. After it, a message polled for one is stored in both. |
| TellabotRecords.NewRecordIds | src/app/tools/tellabot/TellabotClient.tsx:498-651 | A new record's id is `Number(item.id)`: NaN when missing or non-numeric, 0 for `null`. A reactivated record falls back to the source's id, where a restored `null` id gives 0. |
| TellabotRecords.ReceiveSms | src/app/tools/tellabot/TellabotClient.tsx:563-574 | Every record with the polled id gets mode "message" and the text, whatever its mode. The others are unchanged. |
| TellabotRecords.CancelById | src/app/tools/tellabot/TellabotClient.tsx:601-612 | Every record with the id is expired with 0 seconds and "Number cancelled.". The others are unchanged. |
| TellabotRecords.NewRecordsCountDown | src/app/tools/tellabot/TellabotClient.tsx:498-673 | A new or reactivated record counts down the provider's time to live (0 if absent) from `now`. It waits exactly when that is positive and has no SMS. A reactivated record keeps the source's service. |
| TellabotRecords.ReactivateMayShareId | src/app/tools/tellabot/TellabotClient.tsx:651 | Without a provider id the reactivated record shares the source's id, so cancelling it also expires the source. |
| TellabotRecords.NoChangeStartsWaiting | src/app/tools/tellabot/TellabotClient.tsx:194-612 | Ticking, restoring, an SMS and a cancellation never make a record wait that was not waiting. An expired record stays expired under ticks, restore and cancellation. |
| TellabotRecords.LateSmsRevivesExpired | src/app/tools/tellabot/TellabotClient.tsx:563-574 | An SMS for an expired record still moves it to "message". |
| TellabotTracker.Tracker.PollTargets | src/app/tools/tellabot/TellabotClient.tsx:270-281 | Logged in: exactly the waiting records. Logged out: none. |
| TellabotTracker.Tracker.GateIdle | src/app/tools/tellabot/TellabotClient.tsx:162-271 | The `hasWaitingRequests` gate on the countdown and the poller. Without a waiting record a tick changes nothing and no record is polled. With one, a tick changes the list. |
| TellabotTracker.Tracker.Login | src/app/tools/tellabot/TellabotClient.tsx:318-331 | Logged in exactly when the `balance` call succeeded. The records are unchanged. |
| TellabotTracker.Tracker.Logout | src/app/tools/tellabot/TellabotClient.tsx:686-707 | Logged out with no records. |
| TellabotTracker.Tracker.Restore | src/app/tools/tellabot/TellabotClient.tsx:188-216 | The records become the restored list. Every waiting record has time left. |
| TellabotTracker.Tracker.Tick | src/app/tools/tellabot/TellabotClient.tsx:252-264 | The records become one countdown step of the old ones, keeping the invariant. |
| TellabotTracker.Tracker.ReceivePoll | src/app/tools/tellabot/TellabotClient.tsx:537-581 | An error, a failure or no messages changes nothing. Otherwise every record with the id holds the first message's text, with the success flash. |
| TellabotTracker.Tracker.Cancel | src/app/tools/tellabot/TellabotClient.tsx:583-622 | Logged out: nothing happens. A failure or an error keeps the records and shows the failure message. Success expires every record with the id. |
| TellabotTracker.Tracker.RequestNumber | src/app/tools/tellabot/TellabotClient.tsx:417-535 | A form failing its checks is reported without a call. Error, failure and empty replies keep the records, each with its flash. A non-empty success puts the new record in front. |
| TellabotTracker.Tracker.Reactivate | src/app/tools/tellabot/TellabotClient.tsx:624-684 | Like `RequestNumber`, with the reactivated record in front of the unchanged list. |
| TellabotTracker.FilterWaiting | src/app/tools/tellabot/TellabotClient.tsx:275 | Keeps exactly the waiting records. |
| SiteSearch.NormShape | src/app/tools/page.tsx:36-37 | A normalised query is lowercase, single-spaced and has no space at either end. |
| SiteSearch.NormIdempotent | src/app/tools/page.tsx:36-37 | Normalising twice is normalising once. |
| SiteSearch.NormBlank | src/app/tools/page.tsx:36-37 | A query normalises to empty exactly when it is all whitespace. |
| SiteSearch.CollapseSpacesShape | src/app/tools/page.tsx:37 | `replace(/\s+/g, " ")` leaves only single plain spaces. The result is empty only for empty input and starts with a space exactly when the input does. |
| SiteSearch.FilterAppend | src/app/tools/page.tsx:42-45 | The filter keeps catalogue order: filtering a concatenation filters each part. |
| SiteSearch.MatchEmpty | src/app/tools/page.tsx:42-45 | The empty query selects every entry. |
| SiteSearch.ResultsLabelSpec | src/app/tools/page.tsx:59 | The label starts with the count's digits and is plural exactly when the count is not 1. |
| SiteSearch.SyncedParamsSpec | src/app/tools/page.tsx:27-29 | After the sync `q` is the one `q` parameter when it is non-empty, and there is none otherwise. Every other parameter is kept in order. |
| ToolsPage.FilteredBlank | src/app/tools/page.tsx:39-46 | An empty or blank query lists every tool in order. |
| ToolsPage.FilteredMembers | src/app/tools/page.tsx:39-46 | A tool is listed exactly when its lowercased name and description contain the normalised query. |
| ToolsPage.FilteredOrder | src/app/tools/page.tsx:39-46 | Results keep catalogue order. |
| ToolsPage.SyncUrl | src/app/tools/page.tsx:25-34 | The URL is `/tools` exactly when no parameter remains, and otherwise `/tools?` followed by the synced parameters. |
| BlogPage.FilteredBlank | src/app/blog/page.tsx:41-48 | An empty or blank query lists every post in order. |
| BlogPage.FilteredMembers | src/app/blog/page.tsx:41-48 | A post is listed exactly when its lowercased title, excerpt and content contain the normalised query. |
| BlogPage.FilteredOrder | src/app/blog/page.tsx:41-48 | Results keep catalogue order. |
| BlogPage.SyncUrl | src/app/blog/page.tsx:27-36 | The URL is `/blog` exactly when no parameter remains, and otherwise `/blog?` followed by the synced parameters. |
| HomePage.CollectToolPhrases | src/app/page.tsx:15-19 | The tools loop pushes each tool's non-empty name, description and slug words, in catalogue order. |
| HomePage.CollectPostPhrases | src/app/page.tsx:22-27 | The posts loop appends each post's non-empty title, excerpt, slug words and tags, in order. |
| HomePage.BuildKeywordPool | src/app/page.tsx:11-40 | The pool is the de-duplicated lowercased, trimmed tokens of length at least 3. Every entry is such a keyword, and no entry repeats. |
| HomePage.WordsSpec | src/app/page.tsx:33 | Splitting on `[^a-zA-Z0-9]+` loses and adds nothing: the words joined are the letters and digits of the phrase. |
| HomePage.WordsAlnum | src/app/page.tsx:33 | Every word is a non-empty run of letters and digits. |
| HomePage.CandidatesKeywords | src/app/page.tsx:36-37 | Every candidate is lowercase, trimmed and at least 3 characters long. |
| HomePage.Dedupe | src/app/page.tsx:39 | `new Set` keeps each value once and loses none. |
| HomePage.DedupeFirstOrder | src/app/page.tsx:39 | `Array.from(new Set(...))` lists the values in the order of their first occurrence. |
| HomePage.PoolKeywords | src/app/page.tsx:30-39 | The pool holds distinct keywords. |
| HomePage.PhraseInPool | src/app/page.tsx:11-40 | Every catalogue phrase, and every word in it, lowercased and at least 3 long, is in the pool. |
| HomePage.InsertSpec | src/app/page.tsx:55 | Inserting into a ranked list keeps it ranked and adds exactly the new keyword. |
| HomePage.RankSpec | src/app/page.tsx:49-55 | Ranking orders by score and is a permutation. |
| HomePage.SuggestionsSpec | src/app/page.tsx:44-60 | Under 3 query characters there are no suggestions. Otherwise there are at most `limit`, each a keyword containing the query, highest score first. |
| HomePage.SuggestionsTop | src/app/page.tsx:49-57 | No left-out match outscores a shown suggestion. With fewer than `limit` shown, every match is shown. |
| HomePage.PrefixFirst | src/app/page.tsx:53-55 | Keywords that start with the query come before those that only contain it, shorter first within each group. |
| HomePage.InlineSpec | src/app/page.tsx:83-97 | Under 3 characters there are no inline results. Otherwise an entry is shown exactly when its text contains the debounced query. |
| HomePage.InlineOrder | src/app/page.tsx:83-97 | Inline results keep catalogue order. |
| HomePage.SeeAllAgrees | src/app/page.tsx:292-297 | "See all N" leads to a tools page with the same N tools. |
| HomePage.ArrowBounds | src/app/page.tsx:234-241 | ArrowDown from -1 or above stays inside the list. ArrowUp stays at 0 or above, and inside the list exactly when it started at most one past its end. |
| HomePage.SubmitScrollsSpec | src/app/page.tsx:103-111 | For a normalised debounced query, submit scrolls exactly when it has at least 3 characters. |
| HomePage.HeroSearch.Change | src/app/page.tsx:210-214 | Typing sets the query, opens the suggestions and clears the highlight. |
| HomePage.HeroSearch.Focus | src/app/page.tsx:215 | Focus opens the suggestions, changes nothing else and keeps the search invariant. |
| HomePage.HeroSearch.Blur | src/app/page.tsx:216 | Blur closes the suggestions, changes nothing else and keeps the search invariant. |
| HomePage.HeroSearch.Debounce | src/app/page.tsx:68-74 | The debounced query becomes the normalised query. |
| HomePage.HeroSearch.Clear | src/app/page.tsx:249-253 | Clear empties the query, closes the suggestions and clears the highlight. |
| HomePage.HeroSearch.ApplySuggestion | src/app/page.tsx:113-116 | The query becomes the suggestion and the suggestions close. The highlight is kept. |
| HomePage.HeroSearch.Submit | src/app/page.tsx:103-111 | The suggestions close and the highlight clears. It scrolls exactly when the debounced query has at least 3 characters. |
| HomePage.HeroSearch.KeyDown | src/app/page.tsx:217-242 | Escape clears. Enter applies the highlighted visible suggestion, or submits. The arrows move the highlight only while suggestions are visible. Other keys change nothing. |
| SiteHeader.IsActiveSpec | src/components/Header.tsx:28-33 | No link is active without a path. Home is active only on `/`. Any other link is active on its own path and below it. |
| SiteHeader.IsActiveExamples | src/components/Header.tsx:28-33 | `/tools` is active on `/tools/x`, not on `/toolsx`, and home is not active on `/tools`. |
| SiteHeader.AtMostOneActive | src/components/Header.tsx:16-33 | At most one menu link is active on any path. |
| SiteHeader.Header.Active | src/components/Header.tsx:28-33 | A highlighted link implies a path. The home link is highlighted exactly on `/`. |
| SiteHeader.Header.ToggleMenu | src/components/Header.tsx:35 | The menu flag flips. |
| SiteHeader.Header.CloseMenu | src/components/Header.tsx:36-51 | The menu closes, as Escape does. |
| SiteHeader.Header.RouteChanged | src/components/Header.tsx:39-41 | A navigation records the path. The menu closes exactly when the pathname changed; a navigation to the same pathname, such as a search from the blog's drawer, leaves it as it was. |
| SiteHeader.Header.SearchNavigate | src/components/Header.tsx:64-77 | A blank query goes nowhere. Otherwise the target is the trimmed query on `/blog` exactly when the path starts with `/blog` and not `/tools`, and on `/tools` in every other case. |

## Left out

- **Time.** Timers, debounce and blur delays, intervals and `Date.now()` are left out. Each handler or timer firing is one atomic method, and the current time is a parameter.
- **Storage.** `localStorage` is modelled by the stored-record list only. The remembered credentials and the `rememberMe` flag (`performLogin`, lines 336-348) are not modelled.
- **Network and JSON.** Fetches and `JSON.parse` become reply datatypes or function parameters. The order in which concurrent replies arrive, and the in-flight flags (`isRequesting`, `isCancellingId`, `isReactivatingId`, `isLoggingIn`), are not modelled. Those flags only disable buttons.
- **Login.** `performLogin`'s `list_services` parsing, sorting by `localeCompare`, the service labels and the flash messages of login are not modelled. `Tracker.Login` keeps only the logged-in outcome.
- **Characters and encoding.** Unicode NFKD normalisation, non-ASCII case mapping and UTF-16 code-unit lengths are not modelled. Strings are sequences of characters, and `toLowerCase` maps ASCII letters only.
- **URL encoding.** Percent-encoding (`encodeURIComponent`, `URLSearchParams.toString`) is not modelled. Serialisation joins raw `name=value` pairs with `&`.
- **Fixed text and markup.** The HTML markup around the escaped contact fields is not modelled. Neither are the oEmbed request URL and its User-Agent header, the Resend environment constants, or the `highlight()` rendering.
- **Number formats.** JSON numbers are integers. Prices and markups with fractions, and a numeric string such as "3e2" typed into the area-code field, are outside the model. The inputs keep digits only.
- **Duplicate JSON keys.** The entries of a JSON object are read through the first entry with a key. `JSON.parse` keeps the last duplicate, so the lemmas about forwarded parameters assume distinct keys, as `Object.entries` gives.
- **Dates.** `formatDateUTC` (`src/lib/date.ts:1-10`) depends on `Intl` and is not modelled.
- **Score scaling.** The suggestion score `(startsWith ? 2 : 0) + 1 - length * 0.0005` is scaled by 2000 to integers, which gives the same order. `limit` is a natural number.
- HomePage.Rank: sorts stably, as `Array.prototype.sort` does, but the contracts state only that the result is ranked by score and is a permutation of the matches. The relative order of keywords with equal scores is not stated.
