# Portfolio page behaviour: statistics aggregation and small UI state

This project models, in Dafny, the sequential logic of the portfolio site's
`js/main.js`. The main part is `fetchGitHubStats`, the statistics card. It
lists a user's repositories page by page (at most ten pages; it stops at the
first empty page). It sums their stars. It sums the numeric values of the
contribution service's `total` object. It probes up to twenty repositories
for a commit count, which it reads from the `Link` header with the pattern
`page=(\d+)>; rel="last"`. It reads the pull-request and issue counts. Then it
writes five text fields. If anything outside the per-probe `try` throws, it
writes a fixed fallback record instead.

Beside it the model covers:
- the contribution-year dropdown: the option list, the chart image address and
  the per-year count text;
- the theme toggle and its icon;
- the typing effect;
- the active navigation link.

Modelling choices:
- **Network as input.** Every awaited request is an input value of type
  `Fetch<T> = Got(T) | Threw`. `Responses` gathers one run's answers:
  - the profile;
  - the listing pages, where `pages[p - 1]` answers page `p` and a page past
    the end of the input is an empty page;
  - the contribution `total` object;
  - one `Probe` (`Fail | NoHeader | Header(link)`) per repository, by
    position, where a missing answer counts as `Fail`;
  - the two search results.
- **JSON objects.** The `total` object is a sequence of key/value entries in
  property order, which is the order `Object.values` returns. Each value is
  `Num(n)` or `Other`.
- **Text fields.** A field is `Shown`:
  - `Lit(text)`, a literal string;
  - `Localized(n, suffix)`, meaning `n.toLocaleString()` followed by `suffix`.
    `toLocaleString` itself stays opaque;
  - `Raw(n)`, a number written into `textContent` without formatting. This is
    what `userData.public_repos || "0"` does.
- **Dates.** `new Date().getFullYear()` and `getTime()` become parameters.
- **Integers** are unbounded. Decimal text (the `?t=` timestamp) and
  `parseInt` of a digit run are modelled exactly by `Decimal.Digits` and
  `Decimal.Value`.
- **Mutable UI state is a class.** The theme attribute, the saved preference
  and the icon's classes are fields of `ThemeToggle`. The typed text and its
  index are fields of `Typewriter`. The set of active navigation links is a
  field of `NavMenu`.

The code differs from a plain reading of its comments in a few places. The
model follows the code:
- The commit field falls back to `public_repos` unformatted, and to `"0"` when
  that is falsy.
- `totalStars.toLocaleString() || "0"` always shows the formatted total,
  because `toLocaleString` never returns an empty string.
- The contribution request's `y` parameter is the selection verbatim, since
  `selectedYear === "last" ? "last" : selectedYear` is the identity.
- A short but non-empty page does not end the listing; only an empty page or
  the ten-page ceiling does.

## Model

| member | source | states |
|---|---|---|
| Decimal.Digits | js/main.js:657 | the decimal text of a number is non-empty, all digits, and has no leading zero |
| Decimal.ValueOfDigits | js/main.js:559 | reading back (`parseInt`) the decimal text of `n` gives `n` |
| Decimal.DigitsOfValue | js/main.js:559 | writing out the value of a canonical digit run gives the run back (the other direction of the round trip) |
| Decimal.Value | js/main.js:559 | `parseInt` of a digit run is 0 exactly when every digit is "0", so a run without a leading zero is a positive page number |
| LinkHeader.DigitRun | js/main.js:557 | the length of the maximal run of digits at a position: everything inside is a digit and the next character is not |
| LinkHeader.MatchAt | js/main.js:557 | trying `page=(\d+)>; rel="last"` at one position yields a capture exactly when the reference predicate IsMatch holds, and the capture is the only one possible there |
| LinkHeader.FindFrom | js/main.js:557 | the search returns the leftmost match position with its capture, and `None` only when no position matches |
| LinkHeader.LastPage | js/main.js:557-559 | there is no number exactly when the pattern matches nowhere; otherwise the number is the value of the digit run of the leftmost match, since a non-global `match` returns the first match |
| LinkHeader.LastPageOfLink | js/main.js:555-560 | a header with `page=<n>>; rel="last"` after text that does not contain `>; rel="last"` (GitHub's `rel="next", rel="last"` form) reads as `n`, whatever follows |
| LinkHeader.Leftmost | js/main.js:557 | a match with no match before it is exactly what the search returns, position and capture |
| LinkHeader.MatchGroupIsRun | js/main.js:557 | in any match the captured group is exactly the maximal digit run after `page=` (greedy `\d+`) |
| LinkHeader.RunIsMatch | js/main.js:557 | a non-empty digit run after `page=` followed by `>; rel="last"` is a match |
| LinkHeader.NoEarlierMatch | js/main.js:557 | no match starts before such a `page=<n>` |
| LinkHeader.NoEarlierTail | js/main.js:557 | no `>; rel="last"` occurs before the one that follows `page=<n>` |
| LinkHeader.OccursAtPieces | js/main.js:557 | a match at a position splits into `page=`, the digits and the tail at the right offsets |
| GitHubStats.FirstStop | js/main.js:509-522 | the first page from `p` on that is empty or throws, or 11 when pages 1..10 all have repositories; every page before it has repositories |
| GitHubStats.RequestCount | js/main.js:509-522 | between 1 and 10 requests are made; every page before the last one requested has repositories, and the last one requested is empty or throws unless it is page 10 |
| GitHubStats.ListRepos | js/main.js:509-522 | the listing throws exactly when some requested page throws (a page up to 10 with repositories on every page before it); otherwise it is the concatenation, in order, of all requested pages |
| GitHubStats.FetchAllRepos | js/main.js:505-522 | the `while (hasMore && page <= 10)` loop returns the listing outcome `ListRepos` (the in-order concatenation of the pages before the first empty one, or `Threw`) and makes `RequestCount` requests |
| GitHubStats.FullTenthPage | js/main.js:509-510 | when pages 1..10 all have repositories, exactly 10 requests are made (page 11 never) and all ten pages are listed |
| GitHubStats.SecondPageEndsListing | js/main.js:509-521 | a non-empty first page of any length leads to a request for page 2; an empty page 2 then ends the loop after 2 requests, with page 1's repositories |
| GitHubStats.RepoCeiling | js/main.js:509-512 | with pages of at most 100 repositories, at most 1000 repositories are listed |
| GitHubStats.ConcatPagesLength | js/main.js:519 | pages 1..n of at most `size` repositories concatenate to at most `n * size` |
| GitHubStats.SumStarsAppend | js/main.js:525-528 | the star sum of two concatenated lists is the sum of their star sums, so it is 0 for no repositories |
| GitHubStats.SumStars | js/main.js:525-528 | the `reduce` over the listed repositories: a single repository's total is its own stars, and no repository's stars exceed the total (additivity is `SumStarsAppend`) |
| GitHubStats.StarsOverPages | js/main.js:519-528 | the star total over the accumulated list equals the page-by-page sum of star totals |
| GitHubStats.ContributionTotal | js/main.js:537-544 | the accumulation is 0 when `total` is absent, and otherwise the sum of the numeric values only |
| GitHubStats.NumericSumAppend | js/main.js:539-543 | the numeric sum is additive over concatenation of entries |
| GitHubStats.OtherEntryIgnored | js/main.js:540-542 | a non-numeric entry anywhere (e.g. `note: "n/a"`) leaves the sum unchanged |
| GitHubStats.NumericSumIsTotalOfNumbers | js/main.js:537-544 | the accumulation equals the plain sum of the numeric values taken in order |
| GitHubStats.TotalAppend | js/main.js:539-543 | the plain sum is additive over concatenation |
| GitHubStats.ProbeValue | js/main.js:550-564 | a probe adds a positive amount only when it succeeded with a non-empty `Link` header on which the pattern matched, and then adds the matched page number |
| GitHubStats.ProbeCommits | js/main.js:547-565 | the loop's total is the sum of the probe values of the first 20 repositories, or all of them when there are fewer |
| GitHubStats.ProbeFailureIsLocal | js/main.js:550-564 | turning one probe into a failure removes only that probe's own value from the sum (the loop continues) |
| GitHubStats.LaterProbesIgnored | js/main.js:548 | answers beyond the probed prefix never change the sum |
| GitHubStats.ProbeLimit | js/main.js:548 | the number probed is at most 20 and at most the number of repositories, and equals one of them |
| GitHubStats.CountText | js/main.js:585-590 | a search count is shown formatted exactly when `total_count` is truthy, and as "0" otherwise |
| GitHubStats.Summarize | js/main.js:579-596 | commits are the probe sum when it is > 0, else `public_repos` unformatted when truthy, else "0"; stars are the formatted total; the contribution text is "<N> contributions in the last year" exactly when N > 0, else "Active contributor on GitHub" |
| GitHubStats.ComputedIsNotFallback | js/main.js:579-606 | a record computed without an exception always differs from the fallback record |
| GitHubStats.FetchGitHubStats | js/main.js:494-607 | the result is the fallback record ("500+", "50+", "25+", "20+", "1000+ contributions in the last year") exactly when a request outside the probe `try` throws; otherwise it is the record computed from all responses |
| GitHubStats.ProbeFailureOnlyAffectsCommits | js/main.js:550-564 | a failing probe never makes the run fall back and never changes any field but the commit count |
| ContributionChart.OptionValue | js/main.js:618-624 | the option value is "last" exactly for the leading option, never for a year |
| ContributionChart.YearOptions | js/main.js:618-626 | the list is "last" followed by every year from the current year down to 2015, in that order; a year is offered exactly when it lies in that range |
| ContributionChart.ChartColor | js/main.js:643 | the chart colour is a six-digit lower-case hex colour: "0077ed" exactly for the "dark" theme, "0071e3" for any other |
| ContributionChart.ChartSource | js/main.js:641-657 | the image address is exactly the chart host, then the selected year and "/" unless the selection is "last", then the theme's chart colour, "/", the user name and `?t=` followed by the timestamp (start, end and length together fix it) |
| ContributionChart.YearSegmentUnlessLast | js/main.js:650-654 | the address carries the selected year as its first path segment exactly when the selection is not "last" |
| ContributionChart.YearParam | js/main.js:660 | the request's year parameter is the selection verbatim |
| ContributionChart.ContributionsUrl | js/main.js:660-662 | the contribution request is exactly the contributions service address for the user followed by `?y=` and the selection verbatim, "last" included |
| ContributionChart.YearLabel | js/main.js:675 | the year is named by the selection verbatim exactly when the selection is not "last", which is named "the last year" |
| ContributionChart.YearText | js/main.js:664-685 | a positive sum is shown as "<N> contributions in <year>"; a zero or negative sum as "No contributions in <year>"; a failed request as "Active contributor in <year>"; the year is named by `YearLabel` |
| ContributionChart.UpdateContributionChart | js/main.js:633-686 | the handler sets the image address `ChartSource` (host, optional year, theme colour, user, timestamp), requests `ContributionsUrl`, sums the numeric `total` values with `ContributionTotal` and writes the `YearText` of that sum, or of the failure |
| ContributionChart.OptionLabels | js/main.js:618-626 | for every theme and timestamp, each offered year is named by its own digits and gets a year segment; only "last" is named "the last year" and gets none |
| Theme.InitialTheme | js/main.js:10 | the initial theme is the saved value, or "light" when nothing or "" is saved |
| Theme.Flip | js/main.js:17 | the new theme is "light" or "dark", and "dark" exactly when the old one was "light" |
| Theme.FlipTwice | js/main.js:17 | toggling twice restores the theme exactly when it was "light" or "dark" |
| Theme.IconClasses | js/main.js:25-33 | the icon has the moon class exactly in the dark theme and the sun class otherwise; other classes are untouched |
| Theme.ThemeToggle.constructor | js/main.js:10-12 | at load the theme comes from the saved preference and the icon matches it |
| Theme.ThemeToggle.Click | js/main.js:15-22 | a click flips the theme, saves it and updates the icon, which keeps the icon consistent with the theme |
| Theme.ClickTwice | js/main.js:15-22 | two clicks from "light" or "dark" restore the theme, and the saved value is that theme |
| Typewriter.Typewriter.constructor | js/main.js:109-111 | the text is captured, and the element starts empty at index 0 |
| Typewriter.Typewriter.Step | js/main.js:113-119 | one callback appends the next character and advances the index, or does nothing once the text is complete; the shown text stays a prefix |
| Typewriter.Typewriter.Run | js/main.js:113-122 | after `ticks` callbacks the shown text is the prefix `ticks` characters longer, capped at the whole text |
| Navigation.LastMatch | js/main.js:84-98 | the last section in document order that has a link and is in band `(top-100, top-100+height]`; `None` exactly when no such section exists |
| Navigation.TopsIncrease | js/main.js:84-94 | sections laid end to end have increasing offsets |
| Navigation.AtMostOneInBand | js/main.js:90-94 | with sections laid end to end, no two sections are in band at once |
| Navigation.ContiguousMatch | js/main.js:84-98 | with sections laid end to end, the active link is that of the one section in band |
| Navigation.NavMenu.constructor | js/main.js:42 | the menu holds the section links and the initially active ones |
| Navigation.NavMenu.Highlight | js/main.js:81-99 | after a scroll, exactly one link is active, that of `LastMatch`, when some section matches; otherwise the active links are unchanged |

## Left out

- DOM reads and writes, `localStorage`, `console`, the clipboard and `window.scrollTo`. They become inputs, outputs and class fields.
- Timers and asynchrony: `setTimeout`, `setInterval`, `async`/`await` and the IntersectionObserver. Only their step relations are kept: one `typeWriter` callback, and `Run` for a chain of callbacks.
- The second click listener on the theme button, which re-runs `updateContributionChart` after 100 ms. It is a timer around a modelled operation.
- `toLocaleString` formatting is kept opaque as `Localized(n, suffix)`, because it depends on the locale.
- JavaScript numbers are modelled as unbounded integers. NaN, fractions and `parseInt` precision loss above 2^53 are not modelled.
- Malformed responses are not modelled: a listing page whose body is not an array (for example a rate-limit error object), a `total` that is neither an object nor falsy, and a repository without `stargazers_count`. Only a thrown request or parse stands for failure.
- `updateContributionChart`'s early return when the dropdown or the chart image is missing. The model starts after that guard.
- The dropdown's `change` listener wiring, the `scrolled` navbar class, the mobile menu, the scroll animations, the counter animation, the parallax effect, the hover effects, the card tilt, the footer year, the back-to-top button, the injected CSS and `fetchYouTubeVideos`/`displayVideos`. These are cosmetic or one-shot DOM wiring without sequential logic.
- Link lookup in `highlightNavigation`: a link is identified by the id of its section. `querySelector` activates only the first `.nav-link` with a given `href`, so the model does not tell apart several links to one section.
- Navigation.NavMenu.constructor: requires the initially active links to have sections. A page whose initially active link has no section is not modelled.
- UTF-16: `charAt` works on UTF-16 code units, while the model's characters are Unicode scalar values. Text outside the Basic Multilingual Plane would be typed in a different number of steps.
