# ReposFeed, modelled in Dafny

`ReposFeed` (repos-feed.js) is a browser widget that runs one repository
search against the GitHub API and writes the result into a container
element: a loading notice, then a list of repository cards, an empty-state
notice, or an error notice. Each card shows the star count abbreviated with
"k"/"m" and the last update as a relative phrase ("today", "3 days ago",
"2 weeks ago", ...) or a calendar date.

This project models the widget's decision logic and state:

- `Strings` — the decimal text of integers (`${n}`, `num.toString()`), its
  inverse `ParseInt`, and the substring tests `EndsWith` and `Contains`
  (`String.prototype.includes`).
- `RelativeDate` — `formatDate`: whole elapsed days by floor division, the
  bucket they fall into (`AgeOf`), the English phrase of each bucket, and a
  reader `ParsePhrase` that recovers the bucket from the phrase. The
  round-trip lemma shows that the phrase (number and plural "s") carries
  exactly the bucket.
- `StarCount` — `formatNumber`: the "m"/"k"/plain choice, the one-decimal
  value to the nearest tenth, and a reader `ParseOneDecimal` for it.
- `Feed` — repositories, cards, the response `Outcome` (a parsed body, a
  non-ok HTTP status, or a rejected request carrying a JavaScript error), the
  container's `View` (unrendered, loading, empty, list of cards, error), the
  catch block's error classification, and the class `ReposFeed` holding the
  `loading` flag and the view. `fetchRepos` is split at its `await` into
  `BeginFetch` (set `loading`, show the loading notice) and `CompleteFetch`
  (classify the outcome, render it, clear `loading`); `FetchRepos` runs both.
  Its final view is `OutcomeView(outcome, now)` when a container exists, and
  the old view otherwise.

A missing container is modelled the way the code behaves. `showLoading`,
`showError` and `displayRepos` do nothing without one. When the items are
empty, the write at line 48 fails on the null container with a TypeError. The
catch block handles it, and the resulting `showError` also does nothing.

## Model

| member | source | states |
|---|---|---|
| `Strings.NatToString` | repos-feed.js:146 | The decimal text of a non-negative integer is a non-empty string of digits with no leading zero, unless the value is 0. |
| `Strings.ParseIntToString` | repos-feed.js:146 | The text `${i}` of any integer, including a negative one, reads back as `i`, so the printed count identifies the number. |
| `Strings.ContainsIsIncludes` | repos-feed.js:55 | `Contains(s, t)`, used for `message.includes('Failed to fetch')`, holds exactly when `t` occurs in `s` at some index. |
| `RelativeDate.ElapsedDays` | repos-feed.js:117-118 | The day count is the floor of elapsed ms / 86,400,000: `days * MsPerDay <= now - updated < (days + 1) * MsPerDay`, also for negative spans. |
| `RelativeDate.AgeOf` | repos-feed.js:120-134 | 0 is today and 1 is yesterday. Any other count below 7, negative ones included, is "days" with the count unchanged. 7..29 is weeks, with weeks in 1..4 and equal to floor(days/7). 30..364 is months, with months in 1..12 and equal to floor(days/30). 365 or more is older. Each of these is an if-and-only-if. |
| `RelativeDate.FormatDate` | repos-feed.js:115-135 | A calendar-date result carries the updated instant. An unparsable (NaN) timestamp always gives the calendar-date branch. |
| `RelativeDate.ParsePhraseOfPhrase` | repos-feed.js:120-131 | Every relative phrase reads back as the bucket and count it was made from. |
| `RelativeDate.PhraseInjective` | repos-feed.js:120-131 | Two buckets with the same phrase are the same bucket. |
| `RelativeDate.WeeksPlural` | repos-feed.js:127-128 | The week phrase ends in "s ago" exactly when the week count exceeds 1. |
| `RelativeDate.MonthsPlural` | repos-feed.js:130-131 | The month phrase ends in "s ago" exactly when the month count exceeds 1. |
| `RelativeDate.FormatDateReadsBack` | repos-feed.js:115-135 | For a valid instant, a relative label reads back as the bucket of the elapsed whole days. A calendar date is given only from 365 days on. |
| `RelativeDate.FormatDateToday` | repos-feed.js:117-121 | The label is "today" if and only if the day count is 0. |
| `RelativeDate.FormatDateYesterday` | repos-feed.js:117-123 | The label is "yesterday" if and only if the day count is 1. |
| `RelativeDate.FormatDateDays` | repos-feed.js:124-125 | For counts below 7 other than 0 and 1, the label is "<count> days ago". A timestamp in the future gives a negative count in this branch. |
| `RelativeDate.FormatDateWeeks` | repos-feed.js:126-128 | For 7..29 days the label is relative, and it is plural exactly from 14 days on. |
| `RelativeDate.FormatDateMonths` | repos-feed.js:129-131 | For 30..364 days the label is relative, and it is plural exactly from 60 days on. |
| `RelativeDate.FutureInstant` | repos-feed.js:116-125 | A timestamp 1 ms after `now` is labelled "-1 days ago". |
| `RelativeDate.FormatDateExamples` | repos-feed.js:115-135 | An instant equal to `now` gives "today", 10 days ago gives "1 week ago", and 400 days ago gives a calendar date. |
| `StarCount.RoundedTenths` | repos-feed.js:142-144 | The shown one-decimal value is within half a tenth of num / unit. |
| `StarCount.ParseOneDecimalOfOneDecimal` | repos-feed.js:142-144 | The "W.D" text of a non-negative tenths count reads back as that count. |
| `StarCount.FormatNumberSuffix` | repos-feed.js:140-147 | The last character is "m" iff num >= 1,000,000. It is "k" iff 1,000 <= num < 1,000,000. It is a digit iff num < 1,000. |
| `StarCount.FormatNumberPlain` | repos-feed.js:146 | Below 1,000 the text reads back as the count itself. |
| `StarCount.FormatNumberAbbreviated` | repos-feed.js:141-145 | From 1,000 on, the text before the suffix reads back as a tenths value within half a tenth of the count in thousands or millions. |
| `StarCount.ThousandsRange` | repos-feed.js:143-144 | In the "k" branch the shown value lies between 1.0 and 1000.0. |
| `StarCount.ThousandsBoundary` | repos-feed.js:143-144 | 999,999 takes the "k" branch and renders as "1000.0k". |
| `StarCount.FormatNumberExamples` | repos-feed.js:140-147 | 999 gives "999", 1500 gives "1.5k" and 2,300,000 gives "2.3m". |
| `Feed.CreateRepoCard` | repos-feed.js:87-110 | The card's name is the escaped full name. A description is shown, escaped, exactly when the repository's description is non-empty. The language is never empty: it is the repository's own when non-empty, else "AutoHotkey". The star title keeps the raw count. The star text is `FormatNumber` of the count, the update label is `FormatDate` of `updated_at`, and the link is the raw `html_url`. |
| `Feed.Cards` | repos-feed.js:80 | There is one card per repository, in input order. |
| `Feed.CatchMessage` | repos-feed.js:53-59 | A caught error shows the connectivity message when it is a TypeError or its message contains "Failed to fetch". Otherwise it shows its own message. |
| `Feed.OtherFailureView` | repos-feed.js:53-59 | A rejection that is neither a TypeError nor mentions "Failed to fetch", such as a body that is not JSON, ends in an error view showing its own message. |
| `Feed.SyntaxErrorView` | repos-feed.js:45-58 | A JSON parse failure with message "Unexpected token" shows "Unexpected token". |
| `Feed.StatusMessageKept` | repos-feed.js:34-59 | No HTTP-status error message is taken for a network failure by the catch block, so the status message reaches the view. |
| `Feed.HttpErrorView` | repos-feed.js:34-43 | Status 403 ends in the rate-limit message and 404 in the not-found message. Any other non-ok status ends in "GitHub API error: <status>". |
| `Feed.HttpErrorStatusReadBack` | repos-feed.js:40-41 | For a generic HTTP error, the status can be read back from the shown message. |
| `Feed.NetworkFailureView` | repos-feed.js:53-56 | A rejection whose error is a TypeError, or whose message contains "Failed to fetch", ends in the connectivity message. |
| `Feed.FetchRejectionView` | repos-feed.js:53-58 | The browser's fetch rejection shows the connectivity message. No HTTP status error shows that message. |
| `Feed.ErrorExactlyOnFailure` | repos-feed.js:34-59 | The final view is an error exactly when the request did not end with a parsed body. It is never the loading view, so every outcome ends in a terminal view. |
| `Feed.EmptyOrList` | repos-feed.js:47-52 | Missing or zero-length items end in the empty view. Otherwise the list view holds exactly one card per item, in order. |
| `Feed.ReposFeed.constructor` | repos-feed.js:4-8 | The container's presence is recorded. The limit is the given one, or 10 when it is absent or 0. The feed starts not loading and unrendered. |
| `Feed.ReposFeed.ShowLoading` | repos-feed.js:161-165 | The view becomes the loading notice when there is a container. Otherwise nothing changes. |
| `Feed.ReposFeed.ShowError` | repos-feed.js:170-179 | The view becomes the escaped error message when there is a container. Otherwise nothing changes. |
| `Feed.ReposFeed.DisplayRepos` | repos-feed.js:69-82 | Without a container nothing changes. An empty list shows "No repositories found.". Otherwise the view is the list of cards. |
| `Feed.ReposFeed.BeginFetch` | repos-feed.js:15-18 | `loading` is true, and the loading notice is shown when there is a container. |
| `Feed.ReposFeed.CompleteFetch` | repos-feed.js:34-63 | `loading` is false after every outcome. The view is `OutcomeView(outcome, now)` with a container; without one it is unchanged, the failed write at line 48 included. |
| `Feed.ReposFeed.FetchRepos` | repos-feed.js:15-64 | `loading` ends false. With a container the final view is `OutcomeView(outcome, now)`; without one it is the view before the call. No error escapes the call. |

## Left out

- The request itself: the URL and query, the headers, `fetch` and `response.json()` (lines 23-32, 45) are input. The model takes the `Outcome` they produce. A JSON parse failure is a `Failed` outcome carrying its error. `limit` is kept on the object but only feeds the URL.
- Markup: the HTML text of the loading, empty, error and card templates (lines 48, 76, 81, 95-109, 163, 172-177) is represented by `View` and `Card`. The fixed hosting note in the error block is not represented.
- `escapeHtml` delegates to the browser's serializer. `Html.Escaped` only marks text that went through it; the escaping itself is not modelled.
- Clock and locale: `now` is a parameter. The source reads the clock once per card, while the model uses one `now` for a whole render. `toLocaleDateString` is the opaque `CalendarDate(timestamp)`. Parsing the `updated_at` string into a `Date` is input (`Timestamp`).
- RelativeDate.ElapsedDays: exact integer floor division. The source divides in floating point, which can round up to the next integer for spans within a millisecond of a day boundary near the ends of the Date range (about 10^8 days).
- StarCount.RoundedTenths: exact rounding of the rational num / unit, halves upwards. `toFixed(1)` rounds the binary double, so at exact ties its digit may differ (1,150,000 stars shows "1.1m" there, "1.2m" here). Number-to-text in exponent notation, used from 10^21 on, is not modelled.
- Star counts are integers. A missing `stargazers_count` makes the source throw inside card creation (caught as a TypeError); that path is not modelled.
- The console logging in the catch block and in `displayRepos` is not modelled.
- Overlapping `fetchRepos` calls: `BeginFetch` and `CompleteFetch` may be interleaved by a caller, and the last completion sets the view. The model does not include a scheduler, and the source does not coordinate calls.
- The `window.ReposFeed` export (lines 183-185) is environment glue.
