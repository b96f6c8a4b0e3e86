# Club booking store — a Dafny model of `server.py`

The booking server keeps two module-level lists loaded at start-up: `clubs` and
`competitions` (`server.py:23-24`). A club is a record with a name, an email and
points. A competition is a record with a name, a date and a `numberOfPlaces`.
Three request handlers work on these lists:

- `showSummary` logs a club in by email. It takes the first club whose email
  matches. If none matches, it shows the login page with "Sorry, that email was
  not found."
- `book` shows the booking page. It takes the first club and the first
  competition with the names given in the URL.
- `purchasePlaces` is the only handler that changes state. It finds the
  competition, then the club, then parses the requested places with `int()`.
  It then overwrites that competition's `numberOfPlaces` in place with the old
  value minus the request. It checks nothing else.

The model has four modules:

- `Wrappers` (`wrappers.dfy`) holds `Option`.
- `PyInt` (`py_int.dfy`) models Python `int()` on a string: an optional sign
  followed by ASCII digits. It comes with the rendering `str()` and both round
  trips.
- `Lookup` (`lookup.dfy`) models the idiom every handler uses,
  `[x for x in s if p(x)][0]`:
  - `Filter` is the comprehension.
  - `Head` is `[0]`. It returns `None` where Python raises IndexError.
  - `FirstIndex` is an independent first-match search.
  - `HeadOfFilter` proves the two agree.
- `Server` (`server.py`'s logic):
  - Records are datatypes, and a handler's result is a `Page`: a rendered
    template or an escaped exception.
  - `showSummary` and `book` only read the lists, so they are functions of them.
  - `purchasePlaces` is specified by the function `PurchaseSpec`. The class
    `Store` implements it: its method `PurchasePlaces` overwrites one element of
    the `competitions` array in place, with `modifies competitions` only.

Some details of the code that the model keeps:

- `numberOfPlaces` is `Places = Text(string) | Number(int)`. The loaded file
  holds strings, and line 69 stores a Python int back. Line 69 re-reads the
  stored value with `int()`, so stored text that is not an integer raises
  ValueError. This happens only after the request has been parsed.
- `request.form` is a `map<string, string>`. A missing field is a KeyError
  (`MissingField`). The comprehension reads the form field once per element, so
  with an empty list the IndexError comes first and the form is never read.
- The checks run in source order: competition, then club, then the requested
  places, then the stored places.
- The test suite expects behaviour that `server.py` does not have: a 12-place
  cap, deduction of club points, and rejection of past competitions and of
  negative amounts. The model follows the code. `scenarios.dfy` states, on the
  tests' own inputs, what the code does instead. Each of its lemmas is an
  instance of a general lemma above. They record the inputs and add no
  property of their own.

## Model

| member | source | states |
|---|---|---|
| `Lookup.Filter` | server.py:39 | The comprehension keeps only elements that satisfy the condition, and only elements taken from the list (sub-multiset). |
| `Lookup.FilterKeepsMatches` | server.py:39 | The comprehension drops nothing: every element of the list that satisfies the condition is in the result. |
| `Lookup.FilterAppend` | server.py:39 | The comprehension keeps list order: filtering `a + b` gives the filtered `a` followed by the filtered `b`. With `Filter`'s own contract this fixes the whole result. |
| `Lookup.Head` | server.py:39 | `[0]` fails (IndexError) exactly on an empty list; otherwise it is the first element. |
| `Lookup.FirstIndex` | server.py:65 | The first position whose element satisfies the condition, with none before it; `None` exactly when no element does. |
| `Lookup.HeadOfFilter` | server.py:39 | `[x for x in s if p(x)][0]` is the element at the first matching position, and fails exactly when there is none. |
| `Lookup.HeadOfFilterIsFirst` | server.py:51 | When the comprehension is non-empty, its first element occurs in the list with no matching element before it. |
| `Lookup.FirstIndexSameMatches` | server.py:65 | Lists that agree element-wise on the condition have the same first match. |
| `PyInt.ParseInt` | server.py:67 | `int()` succeeds exactly on an optional sign followed by one or more digits; a negative result needs a leading `-`, and a leading `+` gives a non-negative one. |
| `PyInt.ParseShowInt` | server.py:67 | `int(str(n)) == n` for every integer n. |
| `PyInt.ShowParseInt` | server.py:67 | A canonical literal (no `+`, no leading zero, no `-0`) is `str()` of the integer `int()` reads from it. |
| `PyInt.ParseIntPlus` | server.py:67 | `int("+" + d) == int(d)` for every run of digits `d`. |
| `PyInt.ParseIntLeadingZero` | server.py:67 | `int("0" + d) == int(d)` for every run of digits `d`, so `"007"` reads as 7. |
| `PyInt.ParseIntMinus` | server.py:67 | `int("-" + d) == -int(d)` for every run of digits `d`, so `"-0"` reads as 0. With the round trips, this fixes the value of every accepted literal. |
| `PyInt.ParseIntRejects` | server.py:67 | A string with a character that is neither a digit nor a leading sign (for example `abc`) makes `int()` raise ValueError. |
| `Server.StoredInt` | server.py:69 | `int()` of a stored `numberOfPlaces` succeeds exactly on a Python int or on text that is an integer literal; a stored int reads back as itself. |
| `Server.PlacesOf` | server.py:65-69 | The places of the first competition with a name can be read only when a competition with that name exists. |
| `Server.ShowSummary` | server.py:35-44 | The login handler as a function of the lists and the form. Its contract is stated by `Server.ShowSummaryOutcome`. |
| `Server.ShowSummaryOutcome` | server.py:35-44 | Login shows the first club whose email equals the submitted one, with all competitions. If no club matches, or there are no clubs, it shows the login page with "Sorry, that email was not found." A missing email field escapes as KeyError only when there are clubs. |
| `Server.Book` | server.py:49-58 | The booking-page handler as written. Its contract is stated by `Server.BookOutcome`. |
| `Server.BookOutcome` | server.py:49-58 | The booking page shows the first club and the first competition with the given names. A missing club escapes as IndexError, and then a missing competition does. The "Something went wrong" branch is never taken. |
| `Server.BookUnknownClubRaises` | server.py:51-58 | As written, an unknown club name ends in IndexError, not in the flash message. |
| `Server.BookAsIntended` | server.py:53-58 | The booking page with the error branch reachable, as the guard intends. Its contract is stated by `Server.BookAsIntendedOutcome`. |
| `Server.BookAsIntendedOutcome` | server.py:53-58 | The guarded booking page books exactly when both names exist, and then agrees with `Book`; otherwise it flashes "Something went wrong". |
| `Server.CompetitionFound` | server.py:65 | A competition with the name exists exactly when the search by name finds a position. |
| `Server.ClubFound` | server.py:66 | The comprehension by club name is non-empty exactly when some club has that name. |
| `Server.ClubFoundFirst` | server.py:66 | The club the comprehension yields is the first club with that name. |
| `Server.FindCompetition` | server.py:65 | The competition lookup succeeds exactly when the form names an existing competition, at its first position. Otherwise it fails with KeyError (non-empty list, field missing) or IndexError. |
| `Server.FindClub` | server.py:66 | The club lookup succeeds exactly when the form names an existing club, and yields the first club with that name. Otherwise it fails with KeyError or IndexError as above. |
| `Server.RequestedPlaces` | server.py:67 | The request succeeds exactly when the `places` field is an integer literal, and yields its value with no range check. Otherwise it fails with KeyError or ValueError. |
| `Server.Deduct` | server.py:69 | Fails with ValueError exactly when the stored places are not an integer. Otherwise only the matched record changes: it now holds a Python int equal to the old value minus the request, and keeps its name and date. |
| `Server.PurchaseSpec` | server.py:63-71 | The purchase handler as a function of the lists before it. Its contract is stated by `Server.PurchaseFrame`, `Server.PurchaseBooksIff`, `Server.PurchaseChecksInOrder`, `Server.PurchaseKeepsLookup` and `Server.PurchaseSucceeds`. |
| `Server.PurchaseFrame` | server.py:65-71 | A failed purchase leaves the competitions unchanged. A successful one changes only the first competition with the posted name, and never a name or a date. It shows the welcome page with the updated list and "Great-booking complete!". |
| `Server.PurchaseBooksIff` | server.py:65-70 | A purchase succeeds exactly when the competition and the club are found, the request is an integer literal and the stored places read as an integer. The amount itself is never checked. |
| `Server.PurchaseChecksInOrder` | server.py:65-69 | The first failing check decides the error, in the order competition, club, requested places, stored places. |
| `Server.PurchaseKeepsLookup` | server.py:65-69 | After any purchase, every lookup by competition name finds the same position as before. |
| `Server.PurchaseSucceeds` | server.py:65-71 | When all checks pass, the competition reads back as old places minus the request, and the page shows the first club with the posted name. |
| `Server.PurchaseAcceptsAnyAmount` | server.py:67-70 | Every integer amount is booked, including negative ones and ones above the remaining places. The places can therefore go negative or grow. |
| `Server.PurchaseTwiceAdds` | server.py:69 | Two purchases of `a` then `b` on the same competition, by the same club or by different ones, leave old places minus `a` minus `b`. |
| `Server.Store.constructor` | server.py:23-24 | The store holds the loaded clubs and competitions. |
| `Server.Store.PurchasePlaces` | server.py:63-71 | The handler's page and the new competitions are those of `PurchaseSpec` on the old ones. Only the competitions array may change. |
| `Scenarios.PurchaseOnTestData` | server.py:65-71 | An instance of `Server.PurchaseAcceptsAnyAmount`. On the test data (25 places, club with 20 points), buying n places leaves 25 - n, and the club still shows 20 points. |
| `Scenarios.FivePlacesKeepPoints` | server.py:65-71 | Instance of `Scenarios.PurchaseOnTestData` for 5 on a test input: five places leave 20 places, and the club keeps its 20 points. |
| `Scenarios.ThirteenPlacesAccepted` | server.py:67-70 | Instance of `Scenarios.PurchaseOnTestData` for 13 on a test input: thirteen places are booked, because there is no 12-place cap. |
| `Scenarios.NegativeAmountAccepted` | server.py:67-70 | Instance of `Scenarios.PurchaseOnTestData` for -1 on a test input: `-1` is booked and raises the places to 26. |
| `Scenarios.PastCompetitionAccepted` | server.py:65-70 | Instance of `Server.PurchaseAcceptsAnyAmount` on a test input: "Past Comp", dated 2020, is booked like any other competition. |
| `Scenarios.TextAmountRefused` | server.py:67 | Instance of `Server.PurchaseChecksInOrder` on a test input: `abc` raises ValueError, and the competitions are unchanged. |
| `Scenarios.UnknownEmailNotFound` | server.py:39-44 | Instance of `Server.ShowSummaryOutcome` on a test input: an unknown email shows the login page with "Sorry, that email was not found." |

## Findings

| source | as written | input that shows it | evidently intended | confidence | as-written member | corrected member |
|---|---|---|---|---|---|---|
| server.py:51-58 | `[...][0]` raises IndexError before the `if foundClub and foundCompetition` guard runs, and a found record is never falsy. The error branch is therefore dead. | `/book/Comp/NoSuchClub`, or any name not in the lists | a missing club or competition flashes "Something went wrong-please try again" and shows the welcome page | high, not executed | `Server.BookUnknownClubRaises` | `Server.BookAsIntendedOutcome` |

The rest of the model keeps `Book` as written. `BookAsIntended` exists only to
state the evidently intended behaviour.

## Left out

- Loading `clubs.json` and `competitions.json` (`loadClubs`, `loadCompetitions`) is file I/O. The `Store` constructor takes the loaded lists as parameters instead.
- Flask routing, `render_template`, `flash`, `redirect`/`url_for`, `index` and `logout` are web-framework plumbing. Each handler's result is a `Page` value: the template with its arguments and the flashed message, or the exception that escapes.
- HTTP status codes are not modelled. An escaped KeyError becomes a 400 answer and any other escaped exception a 500; the model stops at the `Error` value.
- Concurrent requests are not modelled. The module-level lists are shared without locking, and each purchase is modelled as one atomic step.
- ParseInt (`PyInt.ParseInt`): does not accept the surrounding whitespace, `_` digit separators or non-ASCII Unicode digits that Python `int()` also accepts. It also accepts literals of any length, where CPython 3.11 and later (and the 3.7.14, 3.8.14, 3.9.14 and 3.10.7 security releases) raise ValueError above `sys.get_int_max_str_digits()` digits, 4300 by default; so a `places` field of more than 4300 digits, or stored text that long, is booked by the model but fails at `server.py:67` or `server.py:69` in those runtimes. That limit is a runtime setting, not part of this program.
- Records are values. Line 69 updates the matched dict in place; the model replaces that array element with an updated record. Other references to the same dict are not modelled.
- The record fields are fixed: `Club(name, email, points)` and `Competition(name, date, numberOfPlaces)`. A loaded record that lacks a key (a KeyError in the comprehension) is not modelled.
- A `/pointsDisplay` route does not exist in `server.py` (only a TODO comment), so there is nothing to model.
- `locust/locustfile.py` and the `tests/` harnesses are not modelled. They are load-test and test-client code; `scenarios.dfy` uses the tests' inputs only as data.
