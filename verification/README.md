# AI Chat Aggregator new-tab page, modelled in Dafny

The new-tab page of the AI Chat Aggregator browser extension shows three
things. This project models the logic behind each of them.

- **AI history panels.** The browser's history log is split between three
  chat services: ChatGPT, Claude and Gemini. An entry belongs to a service
  when its URL contains one of the service's domains. Each entry is reduced
  to the address it shows, which is the URL's origin followed by its path.
  Home pages and sign-in, auth, settings and list pages are dropped. An
  address already shown is skipped, so its first occurrence in history order
  wins. Each panel keeps at most thirty rows. A row's title has the service
  suffixes removed, is trimmed, and is cut to 35 characters plus `...`.
- **Schedule panel.** The page reads the calendar list and keeps only the
  calendars that are neither deleted nor deselected. When the list request
  fails, the primary calendar is used alone. Each calendar's events for the
  day are fetched and tagged with the calendar's colour, or `#4285f4` when it
  has none. A calendar whose request fails contributes no events. A 401 reply
  also drops the cached token. All events are concatenated in calendar order
  and stably sorted by start instant.
- **Weather icon.** A WMO weather interpretation code is mapped to one of
  nine icons.

Modules:

- `Wrappers` is `Option`.
- `Seqs` holds filter and flatten with their lemmas.
- `Text` holds `includes`, a regular expression anchored on a literal suffix,
  and `trim` with the ECMAScript white-space set.
- `Urls` is a simplified origin-plus-path parser.
- `Sorting` is a stable sort by an integer key, with the proof that a stable
  sort's result is unique.
- `History`, `Calendar` and `Weather` model the three panels.
- `HistoryExamples` and `CalendarExamples` hold worked examples on concrete
  inputs.

The history classifier takes the URL parser as a parameter (`parse`), so its
properties hold for any parser. `Urls.Canonical` is the concrete parser the
examples use. Replies from the calendar service are parameters of the model:
a `Response` is a status with optional items, or `Failed` for a network or
decoding error. Event fetches are given as a function from calendar id to
reply.

### Behaviour worth knowing

Three behaviours of the page are easy to misread. The model states each of
them as the code has it.

- **Domain match.** A service's domain is matched as a substring of the
  whole raw URL, query and fragment included. It is not limited to the host.
  `History.MatchesService` is stated that way.
- **Title suffixes.** All three suffix patterns are removed from every title,
  whichever service the title belongs to. They are `/- ChatGPT$/`,
  `/Claude$/` and `/ - Gemini$/`, removed in that order. The `Claude`
  pattern takes no leading ` - `, so `"Trip plan - Claude"` is displayed as
  `"Trip plan -"`. `HistoryExamples.ClaudeSuffixLeavesDash` proves this.
- **All-day events.** `new Date('YYYY-MM-DD')` is read as midnight UTC, not
  as local midnight. In Japan (UTC+9) an all-day event is therefore keyed at
  09:00 local time. It ties with a 09:00 meeting, and the tie keeps calendar
  order. A meeting at 08:00 local time is listed before the all-day event,
  so an all-day event is not necessarily at the top of the day's list. The
  two `CalendarExamples` lemmas show both orders.

## Model

| member | source | states |
|---|---|---|
| `History.MatchesService` | newtab.js:379-381 | An entry belongs to a service when its raw URL, query and fragment included, contains one of the service's domains as a substring. `HistoryExamples.ConversationMatchesChatGpt` applies it. |
| `History.IsNonContent` | newtab.js:393-398 | An address is dropped when it ends with `/` or contains `/login`, `/auth`, `/settings` or `/recents`. `History.ClassifyServiceProvenance` proves that no row has such an address. |
| `History.DedupFirst` | newtab.js:384-407 | The `seenUrls` pass keeps a visit when no earlier kept visit has its address. `History.DedupKeepsFirstOccurrences` relates it to the declarative definition. |
| `History.Candidate` | newtab.js:388-407 | An entry whose URL does not parse, or parses to a home page or a login/auth/settings/recents page, contributes nothing. Any other entry contributes exactly one visit. That visit carries the parsed origin-plus-path address and the entry's own title and visit time. |
| `History.CandidateSource` | newtab.js:387-411 | Every candidate of a run of entries is a content page, yielded by one of those entries. |
| `History.DedupUrlsUnique` | newtab.js:384-407 | The `seenUrls` pass keeps no address twice and loses no address: the addresses kept are exactly the addresses seen. |
| `History.DedupKeepsFirstOccurrences` | newtab.js:401-407 | Deduplication keeps exactly the visits that are the first occurrence of their address, in input order. It agrees with the independent declarative definition `FirstOccurrences`. |
| `History.Take` | newtab.js:414 | `slice(0, 30)` gives a prefix of the list. It is the whole list when that has at most 30 elements, and exactly the first 30 otherwise. |
| `History.RawTitle` | newtab.js:429 | A missing or empty title reads as the untitled placeholder. A non-empty title is kept as is, and the result is never empty. |
| `History.CleanTitle` | newtab.js:431 | The cleaned title is a slice of the raw title, and it neither starts nor ends with ECMAScript white space. |
| `History.ChatGptSuffixRemoved` | newtab.js:431 | For every `x`, a title `x + "- ChatGPT"` loses that suffix, and the `Claude` and ` - Gemini` patterns still apply to `x` before trimming. |
| `History.ClaudeSuffixRemoved` | newtab.js:431 | For every `x`, a title `x + "Claude"` loses only the word, and the ` - Gemini` pattern still applies to `x` before trimming. |
| `History.GeminiSuffixRemoved` | newtab.js:431 | For every `x`, a title `x + " - Gemini"` is shown as `x` trimmed. |
| `History.UnsuffixedTitleIsTrimmed` | newtab.js:431 | A non-empty title that ends with none of the three suffixes is only trimmed. |
| `History.CleanTitleFixpoint` | newtab.js:431 | A non-empty title with none of the suffixes and no white space at either end is shown as it is. |
| `History.Truncate` | newtab.js:433-435 | A title is at most 38 characters after truncation. A title of at most 35 characters is kept unchanged. A longer one becomes its first 35 characters followed by `...`. |
| `History.DisplayTitle` | newtab.js:429-435 | A display title is at most 38 characters. A cleaned title of at most 35 characters is shown unchanged, and a longer one as its first 35 characters followed by `...`. |
| `History.ClassifyService` | newtab.js:379-435 | One service's panel: the entries matching the service, reduced to candidates, deduplicated, cut to 30 and rendered. The `ClassifyService` lemmas below state its properties. |
| `History.ClassifyServiceLoop` | newtab.js:379-414 | The page's imperative loop, with its `seenUrls` set, computes the functional classification. It yields at most 30 rows, with no address twice. |
| `History.ClassifyServiceUnique` | newtab.js:384-414 | A service's panel has at most 30 rows, and no two rows share an address. |
| `History.ClassifyServiceProvenance` | newtab.js:379-407 | Every row comes from a history entry with these properties: its raw URL contains one of the service's domains, and it parses to the row's address, which is a content page. The row carries that entry's visit time and display title. |
| `History.ClassifyServiceFirstOccurrences` | newtab.js:384-414 | A panel is the first occurrences of each address among the service's candidates, in history order, cut to 30 and rendered. Nothing is re-sorted by visit time. |
| `History.ClassifyServiceComplete` | newtab.js:379-414 | A panel with fewer than 30 rows shows every address that the service's history yields. |
| `History.ServiceHistoryAppend` | newtab.js:379-381 | Filtering by domain distributes over concatenation of the history. |
| `History.DroppedEntryIsIgnored` | newtab.js:379-410 | An entry is dropped when it does not belong to the service, its URL fails to parse, or it is a non-content page. A dropped entry leaves the panel exactly as if it were absent, and later entries are still processed. |
| `History.ClassifyAll` | newtab.js:374-455 | There are three panels, one per service. All of them show the load error exactly when the history could not be read. Otherwise panel `i` shows exactly the rows `ClassifyService` computes for service `i`, at most 30 of them. |
| `HistoryExamples.ConversationMatchesChatGpt` | newtab.js:339-345 | A `chatgpt.com` conversation URL, with anything after it, belongs to the ChatGPT service. |
| `HistoryExamples.LoginIsNonContent` | newtab.js:393-398 | The ChatGPT login page is a non-content page. |
| `HistoryExamples.ConversationWithQueryParses` | newtab.js:389-390 | The origin plus path of a conversation URL drops its query string. |
| `HistoryExamples.ChatGptSuffixStripped` | newtab.js:431 | `"Trip plan - ChatGPT"` is displayed as `"Trip plan"`. |
| `HistoryExamples.GeminiSuffixStripped` | newtab.js:431 | `"Trip plan - Gemini"` is displayed as `"Trip plan"`. |
| `HistoryExamples.ClaudeSuffixLeavesDash` | newtab.js:431 | `"Trip plan - Claude"` is displayed as `"Trip plan -"`, because the Claude pattern takes no leading dash. |
| `HistoryExamples.MissingTitleIsUntitled` | newtab.js:429-431 | A missing or empty title is displayed as the untitled placeholder. |
| `HistoryExamples.SecondVisitIsDuplicate` | newtab.js:401-407 | The second visit to an address already kept is skipped. |
| `HistoryExamples.ChatGptScenario` | newtab.js:379-435 | The history holds, newest first, a conversation URL with a query string, the same conversation without one, and the login page. The ChatGPT panel is one row: the conversation with the newest entry's title, stripped, and its visit time. |
| `Text.IndexOf` | newtab.js:380 | The search returns the first position at which the substring occurs, or none when it occurs nowhere. This is the `includes` the domain match uses. |
| `Text.StripSuffix` | newtab.js:431 | Replacing a literal pattern anchored with `$` removes the suffix once when the string ends with it, and otherwise leaves the string unchanged. |
| `Text.Trim` | newtab.js:431 | `trim` returns a slice of the string that neither starts nor ends with white space. Everything cut off is white space. |
| `Text.TrimIsUnique` | newtab.js:431 | Any white-space-bounded slice like that is what `trim` returns. |
| `Text.TrimIdempotent` | newtab.js:431 | Trimming twice is the same as trimming once. |
| `Urls.Canonical` | newtab.js:389-390 | The origin plus path never contains a query or fragment character. |
| `Urls.CanonicalIdempotent` | newtab.js:389-390 | Reducing an address that is already origin plus path gives back the same address. |
| `Urls.QueryAndFragmentDropped` | newtab.js:389-390 | A URL made of scheme, host, path and a query or fragment reduces to scheme, host and path. |
| `Seqs.Filter` | newtab.js:234 | Every element a filter keeps satisfies the predicate and comes from the input, never more often than it occurs there, and every satisfying element of the input is kept. |
| `Seqs.FilterKeepsCounts` | newtab.js:234 | An element that satisfies the predicate is kept exactly as often as it occurs in the input, and any other element is not kept at all. |
| `Seqs.FilterIsSubsequence` | newtab.js:234 | A filter keeps list order. |
| `Seqs.FlattenMember` | newtab.js:258 | Every element of `flat()` comes from one of the inner lists. |
| `Seqs.FlattenIncludes` | newtab.js:258 | Every element of every inner list is in `flat()`. |
| `Sorting.SortByKey` | newtab.js:259-263 | The sort is non-decreasing by key, and it is a permutation of its input. |
| `Sorting.SortIsStable` | newtab.js:259-263 | The sort is stable: elements with equal keys keep their input order. |
| `Sorting.StableSortIsUnique` | newtab.js:259-263 | Any sorted, stable rearrangement of the input is this sort's result, so the engine's choice of stable sort does not matter. |
| `Calendar.ResolveCalendars` | newtab.js:217-239 | A failed or non-2xx list request falls back to the primary calendar alone. Otherwise the result is the calendars that are not deleted and not deselected, in list order, each as often as it appears in the list. |
| `Calendar.IsVisible` | newtab.js:234 | A calendar is asked for events unless it is marked deleted or explicitly deselected. An absent `selected` counts as selected. |
| `Calendar.ColorFor` | newtab.js:297 | An event takes its calendar's colour when that colour is non-empty, and `#4285f4` otherwise. |
| `Calendar.Outcome` | newtab.js:283-301 | A calendar's request yields its items, or none when absent, exactly when the reply has a 2xx status. Any other reply, or a failure, yields nothing. |
| `Calendar.CalendarEvents` | newtab.js:295-302 | Each event the calendar returned is kept in order and tagged with the calendar's colour. A failed calendar gives no events. |
| `Calendar.ExpiredTokenYieldsNothing` | newtab.js:283-287 | A 401 reply yields no events. |
| `Calendar.PerCalendarAppend` | newtab.js:251-255 | The per-calendar results follow the calendar list: the results for two runs of calendars are the results of each run, concatenated. |
| `Calendar.DateKey` | newtab.js:260-262 | A date-only start is keyed at midnight UTC of its day. `CalendarExamples.DayNumbers` fixes the day count on a known date. |
| `Calendar.StartKey` | newtab.js:259-262 | An event's sort key is its `dateTime` instant when it has one, and otherwise the midnight-UTC key of its `date`. |
| `Calendar.Aggregate` | newtab.js:258-265 | The schedule is sorted by start instant and is a permutation of the concatenated per-calendar events. It is also a stable rearrangement of them. |
| `Calendar.FailedCalendarContributesNothing` | newtab.js:251-266 | A calendar whose request failed leaves the schedule exactly as if it were not in the list. |
| `Calendar.EventProvenance` | newtab.js:251-263 | Every event in the schedule was returned by a calendar whose request succeeded, and it carries that calendar's colour. |
| `Calendar.EventIncluded` | newtab.js:251-263 | Every event that a successful calendar returned is in the schedule, with that calendar's colour. |
| `Calendar.ScheduleIsDetermined` | newtab.js:255-263 | Any sorted, stable rearrangement of the concatenated events equals the schedule. |
| `Calendar.LoadSchedule` | newtab.js:181-209 | Without a token the panel shows the connect prompt, and only then. Otherwise today's and tomorrow's lists are each sorted, and each is a stable rearrangement, hence a permutation, of the events of the resolved calendars. |
| `CalendarExamples.EpochIsDayZero` | newtab.js:260-262 | The day count behind all-day keys starts at 1970-01-01, the epoch of JavaScript dates. |
| `CalendarExamples.DayNumbers` | newtab.js:260-262 | The all-day date 2026-10-09 is keyed at day 20735 after the epoch, at midnight UTC. |
| `CalendarExamples.AllDayTiesWithNineInTokyo` | newtab.js:259-263 | An all-day event ties with a 09:00 Japan meeting, and calendar order decides the tie. |
| `CalendarExamples.EightInTokyoPrecedesAllDay` | newtab.js:259-263 | An 08:00 Japan meeting is listed before an all-day event of the same day, even when the all-day event's calendar is listed first. |
| `Weather.Glyph` | newtab.js:513-522 | Each icon is written as the emoji the code returns for it, code point for code point. `Weather.GlyphsDistinct` shows that distinct icons give distinct text. |
| `Weather.WeatherIcon` | newtab.js:511-523 | A code is shown with the icon of the WMO band that covers it. |
| `Weather.WeatherIconIsBandIcon` | newtab.js:511-523 | The chain of range tests agrees, for every integer, with the first matching band of the WMO table. |
| `Weather.CoveringBandIsUnique` | newtab.js:511-523 | In a table of pairwise disjoint bands, listed in any order, the band covering a code decides its icon. |
| `Weather.TestOrderIsIrrelevant` | newtab.js:511-523 | Two disjoint tables with the same bands in different orders give every code the same icon, so the order of the range tests does not matter. |
| `Weather.ThermometerForUncoveredCodes` | newtab.js:522 | The thermometer is shown exactly for the codes that no band covers. |
| `Weather.DocumentedCodesHaveIcons` | newtab.js:511-523 | Every code that the Open-Meteo forecast service documents gets an icon other than the thermometer. |

## Left out

- Sign-in and tokens (newtab.js:89-175). The Chrome identity callbacks are
  out, and so is the authenticated flag. The token is a parameter of
  `Calendar.LoadSchedule`.
- Dropping the cached token on a 401 reply is a browser side effect. The
  model only records that such a reply yields no events.
- Network requests and JSON decoding (newtab.js:217-232, 268-293, 471-500)
  are out. Their results are given as `Response` values, and a decoding
  error reads as `Failed`.
- Concurrency is out. `Promise.all` is a sequence of per-calendar outcomes
  in calendar order.
- The history query (newtab.js:365-371) is applied by the browser. Its
  seven-day window and 1000-result cap are therefore not part of the
  classifier.
- The history query failing is modelled as `None` input to
  `History.ClassifyAll`. A missing panel container is a page-layout matter
  and is left out.
- Time and locale work is out:
  - the day bounds computed with `setHours` (newtab.js:244-248);
  - the date and time formatting for display;
  - the clock.
- Event start times are given as milliseconds since the epoch. RFC 3339
  date-time parsing is not modelled.
- `Calendar.StartKey` does not model an unparsable start, which makes the
  comparator return NaN.
- Weather fetching and rounding of temperatures are out because they use
  floating point. The thermometer shown after a failed forecast
  (newtab.js:503) is part of that I/O.
- `Weather.WeatherIcon` takes an integer code. A fractional or non-numeric
  code from the forecast reply is not modelled.
- Wallpaper caching, DOM rendering, timers and the install hook in
  background.js are out because they are I/O and presentation.
- The `WEATHER_ICONS` table (newtab.js:459-469) is never referenced by the
  page, so it is left out.
- `History.Truncate` (and so `History.DisplayTitle`): JavaScript measures
  and cuts strings in UTF-16 code units, while the model uses code points. The two agree unless a
  title contains characters outside the Basic Multilingual Plane, such as
  emoji.
- `Urls.Canonical` is a simplified origin-plus-path reader: the scheme, then
  `://`, then a non-empty authority, then the path up to `?` or `#`. It does
  not model WHATWG URL parsing details:
  - case folding of the host;
  - default-port removal;
  - percent-encoding;
  - user info;
  - `.`/`..` segments;
  - the opaque origins of non-hierarchical schemes.

  The classifier's properties hold for any parser because it takes the
  parser as a parameter.
