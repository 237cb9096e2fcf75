# gofetch: a verified model of the store, the request layer and the home screen

gofetch is a React web client for a dog-adoption service. A signed-in user browses a
paginated, filterable table of dogs and marks favorites. They then ask the service for
one match among those favorites. This project models the core of the client in Dafny
and proves properties of that model.

The modules follow the program's files:

- `Requests` (`requests.dfy`) models `src/network/requests.ts`. It covers:
  - the status check;
  - the authentication wrapper;
  - the axios call builder and its merged config;
  - login and logout;
  - the filtering of undefined search parameters;
  - the two chained fetches, `fetchDogs` and `fetchMatch`.

  The remote service is the `Server` value. Each of its fields gives the reply to one
  kind of request, or an `Err` when that request throws. Every fetch also returns the
  requests it issued, in order, as a trace.
- `Reducer` (`reducer.dfy`) models `src/store/reducer.ts`. It is the `AppState` class
  with the slice's five reducers as methods that update its fields in place. The
  favorites toggle is also available as the function `Toggled`, with its laws proved.
- `Home` (`home.dfy`) models `src/components/home/Home.tsx`. The `Catalog` class holds:
  - the screen's `page`, `rowsPerPage`, `params`, `dogs` and query `data`;
  - the filter panel's `filterType`;
  - the debounce timer the effect's cleanup clears.

  Its methods are the pagination handlers and the filter panel's handlers, which write
  the screen's `params` and `page`. They also include the favorites effect, the refetch
  when the timer fires, and the effect that copies fetched dogs into the screen. The
  `Valid` invariant keeps the offset equal to `page * rowsPerPage` and allows at most
  one scheduled refetch.
- `Components` (`components.dfy`) models `src/components/home/components.tsx`:
  - the app bar, as a class with the toast and the modal flag, which covers the match
    button, the toast, and log out;
  - the input sanitising of the filter panel, as functions;
  - the dog card's favorite state, heart button and age caption;
  - the match modal, as a class holding the match query's data, with its effect.
- `Sequences` and `Text` (`sequences.dfy`, `text.dfy`) model the JavaScript library
  behaviour the core relies on:
  - `Array.prototype.filter` for removing one value;
  - `String.prototype.replace` with a regular expression that has no `g` flag, so only
    the first offending character is removed;
  - `split` and `join`;
  - the decimal rendering of an integer age inside JSX text.
- `Wrappers` (`wrappers.dfy`) holds `Option`. `None` stands for `undefined`.

Where the source's comments and its code differ, the model follows the code:

- `successfulRequest` accepts `200 <= status < 299`, so status 299 counts as a failure.
- `makeAuthRequest` re-throws a rejected request instead of answering `false`.
- The log-out handler awaits `logoutUser()` and dispatches `setLoginStatus(false)` only
  when that call does not throw. Under axios' default status validation only a 2xx
  reply resolves, so the one resolving reply that fails the status check is 299. It
  logs the user out all the same.
- `fetchDogs` tests `!filteredParams.ids`. An empty `ids` array is truthy, so it still
  selects the ids branch: one batch request for no ids, a total of 0, and no search.
- The age inputs' `replace(/[^0-9]/, "")` has no `g` flag, so it removes only the first
  offending character. This is proved as `Text.ReplaceRemovesOne`. The zip input's
  `replace(/[^0-9\n]/, "")` likewise removes only the first character that is not a
  digit or a newline. Characters are Unicode scalar values here; see "Left out".
- The favorites effect of the filter panel writes `ids` without resetting `from` or
  the page.
- `updateFavorites` removes every occurrence of a present id, not just the first.
- The favorites effect of the filter panel depends on the store's favorites. So every
  heart click (`Components.OnHeartClick`) is followed by one run of
  `Home.Catalog.SyncFavoritesFilter`, which reschedules a refetch even under the "All"
  filter. The model leaves composing the two calls to the caller.

## Model

| member | source | states |
|---|---|---|
| Sequences.Remove | src/store/reducer.ts:38 | filtering out a value never lengthens the list |
| Sequences.RemoveMembers | src/store/reducer.ts:38 | the removed value no longer occurs, every kept element comes from the list, and every other element of the list is kept |
| Sequences.RemoveAbsent | src/store/reducer.ts:37-38 | filtering out a value that does not occur returns the list unchanged |
| Sequences.RemoveAppend | src/store/reducer.ts:38 | filtering distributes over concatenation |
| Sequences.RemoveCons | src/store/reducer.ts:38 | a kept head stays at the front of the filtered list |
| Sequences.RemoveKeepsOrder | src/store/reducer.ts:38 | a kept element sits between what is kept before it and what is kept after it, so the order is preserved |
| Sequences.RemoveCounts | src/store/reducer.ts:38 | every occurrence of the value goes, and every other element keeps its multiplicity |
| Sequences.RemoveKeepsNoDup | src/store/reducer.ts:38 | filtering keeps a duplicate-free list duplicate-free |
| Text.FirstOutside | src/components/home/components.tsx:376 | the first match of `[^0-9]` (or `[^0-9\n]`): everything before it is in the class, and the character there is not |
| Text.ReplaceFirstOutside | src/components/home/components.tsx:376 | `replace` without the `g` flag: text already in the class is returned unchanged, otherwise exactly the first offending character is cut out |
| Text.CountOutsideAppend | src/components/home/components.tsx:376 | the number of offending characters adds up over concatenation |
| Text.CountOutsideZero | src/components/home/components.tsx:376 | no offending character if and only if the whole text is in the class |
| Text.ReplaceRemovesOne | src/components/home/components.tsx:376 | one replacement lowers the number of offending characters by exactly one, so later ones survive |
| Text.Split | src/components/home/components.tsx:416 | `split("\n")` yields at least one part, and no part contains the separator |
| Text.JoinSplit | src/components/home/components.tsx:413-416 | joining the parts of a split gives the text back |
| Text.SplitNoSep | src/components/home/components.tsx:416 | text without the separator splits into itself alone |
| Text.SplitAfterPart | src/components/home/components.tsx:416 | a part followed by the separator splits into that part, then the split of the rest |
| Text.Join | src/components/home/components.tsx:413 | `join("\n")`: no parts give the empty text; the text starts with the first part, followed by the separator when more parts come |
| Text.SplitJoin | src/components/home/components.tsx:413-416 | splitting the join of separator-free parts gives the parts back |
| Text.JoinDigitLines | src/components/home/components.tsx:413 | joining digit-only lines with newlines gives text in `[0-9\n]` only |
| Text.DigitChar | src/components/home/components.tsx:560 | a digit character whose code is `'0'` plus the digit |
| Text.Decimal | src/components/home/components.tsx:560 | a non-empty run of digits, with no sign and no leading zero except for 0 itself |
| Text.DecimalRoundTrip | src/components/home/components.tsx:560 | reading the rendered digits back gives the number |
| Text.IntText | src/components/home/components.tsx:560 | an integer renders to non-empty text |
| Text.DecimalInjective | src/components/home/components.tsx:560 | different non-negative numbers render differently |
| Text.SignOfText | src/components/home/components.tsx:560 | the text starts with a minus sign exactly when the integer is negative |
| Text.IntTextInjective | src/components/home/components.tsx:560 | different integers render differently |
| Requests.SuccessfulRequest | src/network/requests.ts:30-32 | success is the 2xx class with 299 excluded |
| Requests.MakeAuthRequest | src/network/requests.ts:34-46 | no request gives 'Not Implemented'; a rejection is re-thrown with its error; otherwise the value is the status check |
| Requests.MergedConfig | src/network/requests.ts:56 | the config has the caller's keys and values plus `withCredentials`, which is true unless the caller sets it |
| Requests.AxiosRequest | src/network/requests.ts:55-69 | a call exists exactly for the four enum values, with the given verb, URL and merged config; only PUT and POST carry the body |
| Requests.Filtered | src/network/requests.ts:126 | a key reaches the query string exactly when its property is defined, with that property's value; an absent parameter object gives no keys |
| Requests.LogoutCall | src/network/requests.ts:86 | the logout call is the POST to `/auth/logout` with no body and credentials on |
| Requests.LoginCall | src/network/requests.ts:79-80 | the login call is the POST to `/auth/login` with `{name, email}` and credentials on |
| Requests.LoginUser | src/network/requests.ts:79-80 | never 'Not Implemented'; it throws exactly when the POST throws, and is true exactly for a successful status |
| Requests.LogoutUser | src/network/requests.ts:86 | never 'Not Implemented'; it throws exactly when the POST throws, and is true exactly for a successful status |
| Requests.FetchDogs | src/network/requests.ts:124-153 | without `ids`: one search with the filtered parameters, then one batch of its result ids, resolving to the search reply with the dogs; with `ids`: one batch of them and their count as total; any throw stops the chain |
| Requests.DogsOutcomeUnique | src/network/requests.ts:124-153 | the requests and the result are determined by the replies and the parameters |
| Requests.IdsModeNeverSearches | src/network/requests.ts:137-151 | with `ids` given, even empty, no search is issued, only one batch of those ids, and the total is their number |
| Requests.SearchModeBatchesResultIds | src/network/requests.ts:129-136 | without `ids`, the search comes first with no `ids` key, and on success the batch asks for exactly the ids the search returned, with the search's total |
| Requests.FetchMatch | src/network/requests.ts:173-198 | match, then dog batch, then locations, each built from the previous reply; an empty batch throws before the location lookup; an empty location list resolves to an undefined location |
| Requests.MatchOutcomeUnique | src/network/requests.ts:173-198 | the requests and the result are determined by the replies and the favorites |
| Requests.MatchChainInOrder | src/network/requests.ts:173-198 | a resolved match took exactly three requests in order, and returns the first dog of the batch and the first location of its zip code |
| Reducer.Toggled | src/store/reducer.ts:36-42 | the id is in the result exactly when it was not in the list, and every other id keeps its membership |
| Reducer.ToggleTwice | src/store/reducer.ts:36-42 | toggling twice restores a list without the id exactly, and restores membership in every case, with the id moved to the end |
| Reducer.ToggleKeepsNoDup | src/store/reducer.ts:36-42 | toggling keeps a duplicate-free favorites list duplicate-free |
| Reducer.AppState.constructor | src/store/reducer.ts:16-20 | logged out, no dogs, no favorites, no match and no location |
| Reducer.AppState.SetLoginStatus | src/store/reducer.ts:30-32 | sets the login flag; favorites, dogs, match and location stay |
| Reducer.AppState.SetDogs | src/store/reducer.ts:33-35 | replaces the dogs; nothing else changes |
| Reducer.AppState.UpdateFavorites | src/store/reducer.ts:36-42 | removes every occurrence of a present id, appends an absent one, and keeps the list duplicate-free; nothing else changes |
| Reducer.AppState.UpdateMatch | src/store/reducer.ts:43-45 | stores the match; nothing else changes |
| Reducer.AppState.UpdateLocation | src/store/reducer.ts:46-48 | stores the location, which may be undefined; nothing else changes |
| Components.MatchButtonLabel | src/components/home/components.tsx:200 | "View my match" exactly when a match is stored, otherwise "Find my match" |
| Components.AppBar.constructor | src/components/home/components.tsx:80-81 | no toast, and the modal is closed |
| Components.AppBar.OnMatchClick | src/components/home/components.tsx:189-198 | with favorites it opens the modal and leaves the toast; without any it shows the warning toast and leaves the modal |
| Components.AppBar.HideToast | src/components/home/components.tsx:106-108 | clears the toast; the modal flag stays |
| Components.AppBar.CloseMatchModal | src/components/home/components.tsx:643-645 | closes the modal; the toast stays |
| Components.AppBar.OnLogOut | src/components/home/components.tsx:128-132 | issues the logout call only; the user is logged out exactly when that call does not throw; favorites, dogs, match and location stay |
| Components.SanitizeAge | src/components/home/components.tsx:375-379 | digit-only input is kept as typed; otherwise one fewer non-digit remains |
| Components.ParseZipCodes | src/components/home/components.tsx:414-423 | the sanitised lines, or undefined exactly when the first line is empty |
| Components.ZipField | src/components/home/components.tsx:413 | an undefined or empty list displays as empty text; otherwise the text starts with the first zip code, and a newline follows it when more come |
| Components.ZipFieldRoundTrip | src/components/home/components.tsx:413-420 | the field's displayed text of digit-only zip codes, parsed back unedited, gives the same zip codes |
| Components.ZipEmptyFirstLineClears | src/components/home/components.tsx:415-420 | an empty input, or one starting with a newline, clears the zip filter |
| Components.IsFavorite | src/components/home/components.tsx:490 | the card is a favorite exactly when the dog's id is among the favorites |
| Components.OnHeartClick | src/components/home/components.tsx:502-505 | the store's favorites become the toggle of the dog's id, so the card's favorite state flips; nothing else in the store changes |
| Components.AgeLabel | src/components/home/components.tsx:560 | "1 year old" exactly for age 1, otherwise the age followed by "years old" |
| Components.AgeLabelInjective | src/components/home/components.tsx:560 | the caption determines the age |
| Components.AgeLabelOfTwo | src/components/home/__tests__/components.test.tsx:168 | a two-year-old's card reads "2 years old" |
| Components.ModalTitle | src/components/home/components.tsx:688 | "Match found!" exactly when a match is stored, otherwise "Finding your match..." |
| Components.MatchModal.constructor | src/components/home/components.tsx:647-650 | the match query starts with no data |
| Components.MatchModal.Effect | src/components/home/components.tsx:652-671 | it asks for the match exactly when open with none stored; it copies the data's dog and location into the store only when none is stored; favorites, dogs and login stay |
| Components.MatchModal.Settle | src/components/home/components.tsx:647-650 | the query runs `fetchMatch` on the favorites, and a failure keeps the previous data |
| Components.MatchModal.Show | src/components/home/components.tsx:652-671 | a stored match means no request and no change to match or location. When open with no match and no earlier data, the `fetchMatch` chain is issued twice, because the run after the data arrives still sees no match. The second chain is answered by its own `Server` value, so its replies may differ. The store gets the dog and location of the first chain that resolves, or nothing when neither does; the query's data is the last resolved match. With stale data and the modal open, the stale dog and location are stored at once, and the chain is issued once. With stale data and the modal closed, the stale dog and location are stored with no request. The store's favorites, dogs and login flag never change |
| Home.PageCount | src/components/home/Home.tsx:132 | the paginator's count is the fetched total, and 0 without data |
| Home.Catalog.constructor | src/components/home/Home.tsx:44-70 | page 0, 25 rows, the initial parameters, no dogs, the "All" filter, and the first refetch scheduled |
| Home.Catalog.Reschedule | src/components/home/Home.tsx:63-70 | the debounce effect clears the previous timer and leaves exactly one new one scheduled |
| Home.Catalog.ResetPage | src/components/home/components.tsx:288-291 | back to the first page |
| Home.Catalog.OnPageChange | src/components/home/Home.tsx:83-86 | the offset becomes the new page times the page size, the page follows, the filters stay, and a refetch is rescheduled |
| Home.Catalog.OnRowsPerPageChange | src/components/home/Home.tsx:88-93 | the new page size with offset 0 and page 0, and a refetch rescheduled |
| Home.Catalog.ToggleBreed | src/components/home/components.tsx:349-358 | the selection loses the breed if it was checked, otherwise gains it at the end; offset and page go to 0 |
| Home.Catalog.ChangeAgeMin | src/components/home/components.tsx:375-379 | stores the sanitised minimum age; offset and page go to 0 |
| Home.Catalog.ChangeAgeMax | src/components/home/components.tsx:389-393 | stores the sanitised maximum age; offset and page go to 0 |
| Home.Catalog.ChangeZipCodes | src/components/home/components.tsx:414-423 | stores the parsed zip codes, or undefined; offset and page go to 0 |
| Home.Catalog.SyncFavoritesFilter | src/components/home/components.tsx:270-278 | `ids` becomes the favorites under the "favorites" filter and undefined otherwise; offset and page stay |
| Home.Catalog.SelectFilterType | src/components/home/components.tsx:321 | re-selecting the current filter changes nothing and schedules no refetch; a new choice is stored, and its effect sets or lifts the favorites restriction and reschedules the refetch |
| Home.Catalog.SyncDogs | src/components/home/Home.tsx:72-76 | the displayed dogs are the data's dogs whenever there is data |
| Home.Catalog.RefetchFires | src/components/home/Home.tsx:57-70 | the fired timer is gone; `fetchDogs` runs with the current parameters; a failure keeps the previous data; the displayed dogs follow the data |
| Home.AtMostOnePending | src/components/home/Home.tsx:63-70 | at most one refetch is ever scheduled |

## Left out

- Rendering, styling, animations and layout of every component are left out. The
  model covers state and requests only.
- The transport is left out: `fetch`, axios, JSON encoding and `querystring.stringify`.
  The service's replies are the `Server` value's fields, and a request is recorded by
  its endpoint and payload. Axios rejecting a response outside the 2xx class belongs to
  the transport: such a reply is an `Err` from `Server.send`.
- A reply whose body cannot be read as the expected shape is an `Err` of that reply.
  One such case is a match reply with no `match` id, which would post `[null]`, the JSON of `[undefined]`.
- Delays are left out. The 500 ms debounce becomes a timer handle that the next change
  clears, and firing is an explicit call.
- react-query internals are left out: caching, `isLoading`, and the query run at mount.
  The refetch and the match query are modelled by what their `data` becomes. A failed
  query keeps its previous data.
- `window.scrollTo`, the menu anchors, and the remaining open/close state of the menus
  are left out. They are presentation only.
- The `console.error` logging in `makeAuthRequest`, and its `tag` parameter, are left
  out. They only label the log line.
- `fetchBreeds` is left out. It is one GET whose list only feeds the rendering of the
  breed checkboxes.
- The login screen, `App.tsx`, `index.tsx` and the test setup are not part of this
  model.
- Text.ReplaceFirstOutside: a `string` here is a sequence of Unicode scalar values. The
  source's regular expressions have no `u` flag, so they match UTF-16 code units. For
  a character outside the Basic Multilingual Plane, the source removes only its first
  surrogate, while the model removes the whole character.
- Text.FirstOutside: it indexes Unicode scalar values, not UTF-16 code units, for the
  same reason.
- Components.SanitizeAge: an age input that holds a character outside the Basic
  Multilingual Plane is stored without that whole character. The source would keep its
  second surrogate.
- Components.ParseZipCodes: the same UTF-16 difference applies to the zip input's
  replace, which comes before the split.
- JavaScript numbers are modelled as unbounded integers: the dog's age, the search total,
  the page size and the offset. Fractional values, the exponent notation `String`
  uses from 1e21 upwards, and floating-point rounding are not modelled.
- Home.Catalog.RefetchFires: the awaited requests of a refetch are one atomic step. A
  change of `params` while they are still in flight cannot happen in the model.
  Neither can an older reply arriving later and overwriting `data`, although the
  source has no guard against either. The dogs query is an enabled `useQuery` under a
  client with no overridden defaults, so react-query's defaults apply. These are not
  in the trace: the up to three retries of a failed `fetchDogs`, and the refetches on
  window focus and on reconnect that bypass the debounce timer.
- Components.MatchModal.Settle: likewise, the match chain is one atomic step, so a
  change of favorites while it is in flight is not modelled.
- Home.Catalog.OnRowsPerPageChange: the paginator's event value is treated as an
  integer. JavaScript's coercion of the string it may carry is not modelled.
- Components.MatchModal.Show: after a failed match the model stops at the effect's
  third run. React-query's retries and the runs triggered by `isLoading` changes are
  not modelled, so any requests they would add are not in the trace.
- Components.MatchModal.Effect: the effect's re-run conditions (its dependency list)
  are not modelled. Each call is one run.
- Sequences.Remove: its own contract states only the length bound; the membership
  facts are in `Sequences.RemoveMembers`.
