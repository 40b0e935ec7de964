# GitHub profile finder — a Dafny model

This project models the profile-finder page of GithubFinder
(`GithubFinder/src/Components/Github.jsx`). The page holds five pieces of state:
`username`, `userData`, `loading`, `error` and `isDarkMode`.

- Submitting the form runs `fetchUser`. It ignores a blank username. Otherwise it
  clears the last result, shows the loading screen, requests
  `https://api.github.com/users/<username>`, and maps the answer to a profile or an
  error message.
- `handleReset` returns to the empty form.
- `toggleTheme` flips the theme. Two effects load the theme from storage and save it
  back as `'dark'` or `'light'`.
- Four conditions over the state pick which screen renders: the form, the loading
  spinner, the error card or the profile.
- The profile view shows a "Joined D Mon YYYY" line, falls back from the display name
  to the login, and shows missing counts as 0.

Modules:

- `Nullable`: the `Option` type, which stands for a JavaScript value that may be
  null or undefined.
- `JsText`: the JavaScript string behaviour the page depends on. This covers
  `String.prototype.trim` with ECMAScript's whitespace and line-terminator set, the
  truthiness of a nullable string, and the decimal text of an integer in a template
  literal. The decimal text comes with a parser that reads it back.
- `ProfileDisplay`: the user record, `formatDate`, the display fallbacks and the
  choice of screen.
- `ProfileFinder`: the class `Finder`, which holds the five state fields. Its methods
  are the component's handlers and effects. The module also holds the pure mapping
  from a fetch outcome to the resulting `userData`/`error`, and the theme
  persistence functions.

The network answer is a parameter. `FetchOutcome` is `Answered(status, body)`, or
`Thrown(message)` for an exception from `fetch` or from `response.json()`. The same
goes for the stored theme and the system colour-scheme preference, which are passed
in, and for the calendar fields of `new Date(created_at)`.

`Finder.Valid()` is the invariant every handler keeps, provided a response is
applied only while its lookup is the one in flight (see `CompleteLookup` under
"## Left out"):

- while `loading`, neither a profile nor an error is held;
- a profile and an error are never both held.

Separately, `RenderedScreens` proves that exactly one of the four screens renders in
every state, whatever the flags are.

Some behaviour one might expect is absent from the code, so the model leaves it out
too:

- a 403 status gets the generic failure message, with no separate rate-limit case;
- `handleReset` leaves `loading` as it is;
- nothing records a search history;
- nothing computes a profile score or a join duration;
- no guard drops a stale response. The model applies a response only while its
  lookup is in flight (`CompleteLookup` requires `loading`). Overlapping lookups
  are left out; see "## Left out".

## Model

| member | source | states |
|---|---|---|
| `JsText.Trim` | GithubFinder/src/Components/Github.jsx:27 | `username.trim()` is a contiguous slice of the username with only whitespace before and after it, and it neither starts nor ends with whitespace |
| `JsText.BlankIffAllWhitespace` | GithubFinder/src/Components/Github.jsx:27 | the guard `!username.trim()` holds exactly when every character of the username is whitespace |
| `JsText.Decimal` | GithubFinder/src/Components/Github.jsx:75 | an integer's template-literal text is digits after a minus sign exactly for a negative number, with no leading zero except for 0 itself |
| `JsText.DecimalRoundTrip` | GithubFinder/src/Components/Github.jsx:75 | an integer's decimal text parses back to the same integer |
| `JsText.DecimalCanonical` | GithubFinder/src/Components/Github.jsx:75 | the decimal reader accepts exactly one text per integer, the one a template literal writes: no leading zero, no "-0" |
| `ProfileDisplay.FormatDate` | GithubFinder/src/Components/Github.jsx:71-76 | the result is 'Not Available' exactly when the date string is null, undefined or empty; otherwise it begins with "Joined ", and an Invalid Date gives "Joined NaN undefined NaN" |
| `ProfileDisplay.MonthsDistinct` | GithubFinder/src/Components/Github.jsx:74 | the twelve month abbreviations are pairwise distinct |
| `ProfileDisplay.MonthFromFinds` | GithubFinder/src/Components/Github.jsx:74 | looking up `months[m]` in the table gives back index m |
| `ProfileDisplay.FormatDateRoundTrip` | GithubFinder/src/Components/Github.jsx:71-76 | for a valid date, the "Joined D Mon Y" line reads back to that date's day, month index and year |
| `ProfileDisplay.ReadJoinedExact` | GithubFinder/src/Components/Github.jsx:75 | any text that reads back as a date is exactly "Joined " + day + " " + month abbreviation + " " + year for that date, so the round trip fixes the whole line, digits included |
| `ProfileDisplay.FormatDateInjective` | GithubFinder/src/Components/Github.jsx:71-76 | two valid dates with the same "Joined" line are the same date |
| `ProfileDisplay.ValidDateNotInvalidLine` | GithubFinder/src/Components/Github.jsx:73-75 | a valid date never produces the Invalid Date line "Joined NaN undefined NaN" |
| `ProfileDisplay.DisplayName` | GithubFinder/src/Components/Github.jsx:236 | the heading is the name when it is non-empty and the login otherwise, so it is never blank when the login is set |
| `ProfileDisplay.ShownCount` | GithubFinder/src/Components/Github.jsx:250-258 | a missing repository, follower or following count shows as 0, and a present count shows as itself |
| `ProfileDisplay.RenderedScreens` | GithubFinder/src/Components/Github.jsx:115-205 | exactly one of the default, loading, error and profile screens renders for any `loading`/`userData`/`error`; each one renders exactly when its condition holds |
| `ProfileFinder.RequestUrl` | GithubFinder/src/Components/Github.jsx:34 | the request address is the users endpoint followed by the untrimmed username, which can be read back from it |
| `ProfileFinder.Settled` | GithubFinder/src/Components/Github.jsx:36-49 | a lookup leaves exactly one of `userData` and `error` set: the profile exactly for a 2xx answer, "User not found..." for 404, "Failed to fetch data..." for any other status, and the exception's message when something throws |
| `ProfileFinder.PersistedTheme` | GithubFinder/src/Components/Github.jsx:21-23 | the stored theme is 'dark' exactly in dark mode and 'light' exactly in light mode |
| `ProfileFinder.ThemeOnLoad` | GithubFinder/src/Components/Github.jsx:13-18 | a non-empty saved value turns dark mode on exactly when it is 'dark'; with nothing saved, the system preference decides |
| `ProfileFinder.ThemeRoundTrip` | GithubFinder/src/Components/Github.jsx:13-23 | a stored theme is restored on load, whatever the system prefers |
| `ProfileFinder.Finder.Screens` | GithubFinder/src/Components/Github.jsx:115-205 | exactly one screen renders in every state: the loading screen exactly while loading, the profile only with a user, the error only with a non-empty error |
| `ProfileFinder.Finder.SubmitDisabled` | GithubFinder/src/Components/Github.jsx:134 | the search button is disabled exactly while loading or while the username is all whitespace |
| `ProfileFinder.Finder.constructor` | GithubFinder/src/Components/Github.jsx:6-10 | the initial state has an empty username, no data, no error, is not loading, uses the light theme, and shows the default screen |
| `ProfileFinder.Finder.SetUsername` | GithubFinder/src/Components/Github.jsx:127 | typing replaces the username and changes nothing else |
| `ProfileFinder.Finder.BeginLookup` | GithubFinder/src/Components/Github.jsx:26-34 | a blank username changes nothing and sends no request; otherwise the state becomes loading with no data and no error, the loading screen shows, and the request goes to the untrimmed username's address; an enabled button always sends a request |
| `ProfileFinder.Finder.CompleteLookup` | GithubFinder/src/Components/Github.jsx:36-49 | after the answer, loading is off and `userData`/`error` are what `Settled` maps the outcome to; an ok answer shows the profile and a failing status shows the error screen |
| `ProfileFinder.Finder.FetchUser` | GithubFinder/src/Components/Github.jsx:26-50 | the whole lookup: a no-op for a blank username; otherwise one request for that username, ending not loading with exactly one of profile and error |
| `ProfileFinder.Finder.QuickSearchAsWritten` | GithubFinder/src/Components/Github.jsx:151-154 | as written, the quick-search button sets the username but looks up the username from before the click, or nothing when that one was blank |
| `ProfileFinder.Finder.QuickSearch` | GithubFinder/src/Components/Github.jsx:151-154 | as intended, quick search looks up the clicked name |
| `ProfileFinder.QuickSearchAsWrittenRequestsNothing` | GithubFinder/src/Components/Github.jsx:147-154 | from the empty form, the quick-search button as written sends no request |
| `ProfileFinder.QuickSearchRequestsClickedUser` | GithubFinder/src/Components/Github.jsx:147-154 | from the empty form, the corrected button requests the clicked user's address |
| `ProfileFinder.Finder.HandleReset` | GithubFinder/src/Components/Github.jsx:59-63 | the username, data and error are cleared while loading and the theme are kept, so a finished lookup returns to the default screen |
| `ProfileFinder.Finder.ToggleTheme` | GithubFinder/src/Components/Github.jsx:66-68 | the theme flips, the stored value changes with it, and nothing else changes |
| `ProfileFinder.ToggleThemeTwice` | GithubFinder/src/Components/Github.jsx:66-68 | toggling twice restores the theme and changes nothing else |
| `ProfileFinder.Finder.LoadTheme` | GithubFinder/src/Components/Github.jsx:13-18 | the load effect turns dark mode on exactly when `ThemeOnLoad` says so, and otherwise leaves the theme as it is |
| `ProfileFinder.ReloadTheme` | GithubFinder/src/Components/Github.jsx:13-23 | a newly mounted finder that loads the stored value takes the theme the previous one had, and shows the default screen |

## Left out

- The `fetch` call and `response.json()` are network I/O. The response is the
  parameter `FetchOutcome`. A failing fetch or a body that does not parse is a
  `Thrown` outcome carrying its message. An ok answer is assumed to decode to a user
  object, not to JSON `null` or an array.
- `localStorage` and `window.matchMedia` are browser calls. The saved value and the
  system preference are parameters, and `PersistedTheme` is the value written. The
  extra write of 'light' made by the save effect on the first render, before the
  loaded theme takes effect, is not modelled.
- `new Date(...)` parsing and the local time zone are library behaviour.
  `FormatDate` takes the resulting calendar fields, or None for an Invalid Date. The
  year is an unbounded integer rather than the Date range.
- React batches the setter calls inside one handler. The model applies them in
  order. No handler reads a field it has just set, so the final state is the same.
- Rendering is not modelled: the Tailwind class map (lines 79-89), the JSX layout,
  the avatar, the bio, the links and the "Searching for..." text. `RenderedScreens`
  keeps only which screen is present.
- `handleSubmit` (lines 53-56) only calls `preventDefault` and then `fetchUser`, so
  `FetchUser` stands for it.
- Timer delay is not modelled. `QuickSearchAsWritten` runs the button's stale
  `fetchUser` at once, as one step. The 100 ms wait matters to the outcome, though:
  it leaves time for a second lookup to start before the timer fires. See the next
  line.
- GithubFinder/src/Components/HomePage.jsx and GithubFinder/src/App.jsx are not part
  of this model. They are static markup and routing.
- `ProfileFinder.Finder.CompleteLookup`: overlapping lookups are not modelled, so
  the model applies a response only while `loading` holds. In the source they can
  arise only through the quick-search timer. For example: type "foo", click
  "@AsifMhaldar", then click Search (or the quick-search button again) within
  100 ms. Two requests are then in flight. Each response is applied at lines 44-48
  with no check, even after the other has cleared `loading`. If one answers 200
  and the other 404, both `userData` and `error` end up set, which `Finder.Valid()`
  excludes.
- `ProfileDisplay.ShownCount`: counts are integers. A JSON count that is not an
  integer is not modelled.

## Findings

| source | as written | input that shows it | evidently intended | confidence | as-written member | corrected member |
|---|---|---|---|---|---|---|
| GithubFinder/src/Components/Github.jsx:151-154 | the button calls `setUsername(name)` and then, from a timer, the `fetchUser` of the render that drew the button; that closure still holds the old `username` | with the form empty, click "@AsifMhaldar": the guard sees '' and no request is sent; with "foo" typed, the request goes to `/users/foo` | look up the clicked name | high, not executed | `ProfileFinder.Finder.QuickSearchAsWritten`, `ProfileFinder.QuickSearchAsWrittenRequestsNothing` | `ProfileFinder.Finder.QuickSearch`, `ProfileFinder.QuickSearchRequestsClickedUser` |
