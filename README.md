# instasight account model

instasight logs into an Instagram account in a browser. It scrolls the
"followers" and "following" dialogs to scrape usernames, then reports two
follow-back gaps:

- `not_followed_by`: accounts you follow that do not follow you.
- `not_following_back`: accounts that follow you whom you do not follow.

This project models the part of the program that does not need a browser:

- the `Account` data holder, with its credentials and four username collections;
- the name-based lookups and the append operation on those collections;
- the two gap evaluations;
- the URL that `navigate` builds;
- the filter that turns scraped anchor texts into usernames;
- the ten scroll passes that load one dialog into the account.

Modules:

- `Wrappers`: `Option` and `Result`.
- `Text`: Python's `str.strip()` (with Python's full whitespace set) and `str.lower()`, and the `strip().lower()` normalisation of collection names.
- `Collections`: element sets of username lists, `set(a) - set(b)`, and `list(set(...))` as a method that returns a duplicate-free list in no promised order.
- `Accounts`: the `Account` class, the closed name-to-collection dispatch, short client methods that state the follow-back properties, and the as-written subscript lookup.
- `Navigation`: the base URL and the trailing-slash rule.
- `Scrape`: the username filter and the ten-pass loading loop.

The model keeps these behaviours of the source:

- The derived collections are lists built by `list(set(...))` (app.py:47, 52), not sets. The model stores them as duplicate-free sequences and promises no order.
- Only the size and append operations normalise the name with `strip().lower()` (app.py:36, 41). The getter uses the name as given (app.py:31). The model keeps this asymmetry and proves it (`Accounts.PaddedNameSizeOnly`).

The model departs from the source as written here:

- As written, every lookup subscripts the object (`self[collection]`, app.py:32, 37, 42). `Account` has no `__getitem__`, so each such call raises `TypeError`. The model implements the evident intent: look up the attribute `_<name>`. It does this with a closed `CollectionName` datatype and records the defect under "## Findings".
- Appending is limited to `following` and `followers`, the two names in the parameter's `Literal` type (app.py:39). Any other name is `InvalidCollection`.

## Model

| member | source | states |
|---|---|---|
| `Accounts.Account.constructor` | app.py:13-27 | The username and password are stored exactly as given, so `GetUsername` and `GetPassword` return them. All four collections start empty. The derived lists are duplicate-free. |
| `Accounts.Account.GetUsername` | app.py:21-23 | Returns the stored username, which the constructor sets to the given one. |
| `Accounts.Account.GetPassword` | app.py:25-27 | Returns the stored password, which the constructor sets to the given one. |
| `Accounts.ParseName` | app.py:29-31 | A name selects a collection only if it is exactly that collection's own name. |
| `Accounts.ParseWritable` | app.py:39-41 | For appending, a name selects only `following` or `followers`, and only its own collection. |
| `Accounts.ParseKey` | app.py:29-31 | `ParseName` inverts each collection's name. `ParseWritable` accepts exactly the two writable names. |
| `Accounts.KeyIsLowerIdentifier` | app.py:29 | Every collection name is non-empty and uses only lower-case ASCII letters and `_`. |
| `Accounts.KeyIsNormal` | app.py:36 | Every collection name is unchanged by `strip().lower()`, so size and append accept it as given. |
| `Accounts.Account.GetCollection` | app.py:29-32 | A lookup succeeds exactly for the four collection names, with no trimming or case folding. It then returns the collection with that name. Any other name fails with `InvalidCollection(name)`. |
| `Accounts.Account.GetTotalFromCollection` | app.py:34-37 | Size is the length of what `GetCollection` returns for `strip().lower()` of the name. It fails with the same error when that lookup fails. |
| `Accounts.SizeMatchesCollection` | app.py:29-37 | On a name that is already normalised, size succeeds exactly when the getter does and equals the length of the getter's list. |
| `Accounts.PaddedNameSizeOnly` | app.py:31-36 | For every collection and every whitespace character, a name with a leading space is accepted by size and refused by the getter. |
| `Accounts.PaddedKeyNormalises` | app.py:36 | Normalising a collection name with one leading whitespace character gives back the collection name. |
| `Accounts.PaddedKeyUnknown` | app.py:31 | No collection name starts with whitespace, so the getter refuses a padded name. |
| `Accounts.SizeIgnoresRenormalising` | app.py:36 | Normalising the name before asking for the size changes nothing. |
| `Accounts.Account.AddUsersToCollection` | app.py:39-43 | Appends to the normalised writable name's collection: its new contents are the old contents followed by `usernames`, in order and with duplicates kept. Returns `|usernames|`. The other collections and the credentials are unchanged. Any other name fails with `InvalidCollection`, and then nothing changes. |
| `Accounts.AppendNothing` | app.py:39-43 | Appending `[]` leaves all four collections unchanged and reports 0 when it succeeds. |
| `Accounts.Account.EvalNotFollowedBy` | app.py:45-48 | `x` is in the result iff `x` is in `following` and not in `followers`. The result has no duplicates and one entry per name in that difference. It is stored in `notFollowedBy`. `following`, `followers`, the other gap and the credentials are unchanged. |
| `Accounts.Account.EvalNotFollowingBack` | app.py:50-53 | `x` is in the result iff `x` is in `followers` and not in `following`. The result has no duplicates and one entry per name. It is stored in `notFollowingBack`. Everything else is unchanged. |
| `Accounts.ReevaluateGaps` | app.py:45-53 | Evaluating each gap a second time with no append in between gives the same set of usernames and the same length. |
| `Accounts.EvaluateBothGaps` | app.py:45-53 | `not_followed_by` shares no user with `followers`. `not_following_back` shares no user with `following`. The two gaps share no user, and the stored gaps are the returned ones. |
| `Accounts.LoadSameList` | app.py:39-53 | In a new account, appending the same list to `following` and to `followers` makes both gaps empty. |
| `Accounts.GapSizeCountsUsers` | app.py:34-37 | In a valid account, the size of `not_followed_by` or `not_following_back` is the number of distinct users in that list. |
| `Accounts.GetCollectionAsWritten` | app.py:32 | The lookup as written: subscripting an object without `__getitem__` fails for every name. |
| `Accounts.AsWrittenRejectsDeclaredName` | app.py:29-32 | The declared name `following` fails as written, but the intended lookup returns the `following` list. |
| `Collections.Elements` | app.py:47 | `set(s)` has exactly the usernames that occur in `s`. |
| `Collections.DistinctCardinality` | app.py:47 | A list without duplicates, such as `list(set(...))` returns, has as many entries as there are distinct usernames in it. |
| `Collections.Difference` | app.py:47 | `set(a) - set(b)` has exactly the usernames that occur in `a` and nowhere in `b`. |
| `Collections.ListOfSet` | app.py:47 | `list(s)` of a set contains no duplicates, lists exactly the members of `s`, and has length `|s|`. It promises no order. |
| `Collections.DifferenceAvoidsSecond` | app.py:47 | A gap contains only users of its first side and no user of its second side. |
| `Collections.GapsDisjoint` | app.py:47-52 | The two gaps never share a username. |
| `Collections.GapPartition` | app.py:47 | `set(a)` splits into the gap `a - b` and the users shared with `b`, and the two parts are disjoint. |
| `Collections.SameUsersNoGaps` | app.py:47-52 | If both sides have the same element sets (any order, any duplicates), both gaps are empty. |
| `Collections.NoGapsSameUsers` | app.py:47-52 | If both gaps are empty, both sides have the same element sets. |
| `Collections.ExampleGaps` | app.py:47-52 | Following `[a, b, c]` and followers `[b, c, d]` give the gaps `{a}` and `{d}`. |
| `Text.IsSpace` | app.py:36 | The characters `str.strip()` removes: Python's `str.isspace` set, meaning the ASCII controls tab to carriage return, the separators U+001C to U+001F, the space, U+0085, the no-break space, U+1680, U+2000 to U+200A, the line and paragraph separators, U+202F, U+205F and U+3000. |
| `Text.TrimStart` | app.py:36 | Returns the suffix of `s` that starts at its first non-space. Every character removed is whitespace. |
| `Text.TrimEnd` | app.py:36 | Returns the prefix of `s` that ends at its last non-space. Every character removed is whitespace. |
| `Text.Strip` | app.py:36 | `strip()` is empty exactly when the text is all whitespace. Otherwise it starts and ends with a non-space. |
| `Text.StripIsInfix` | app.py:36 | `strip()` returns the slice of the text between a leading run and a trailing run of whitespace. Nothing else is removed, and nothing is removed from the middle. |
| `Text.AllSpaceSplit` | app.py:36 | A text is all whitespace exactly when nothing is left after trimming its front. |
| `Text.StripOfStripped` | app.py:36 | A text that neither starts nor ends with whitespace is unchanged by `strip()`. |
| `Text.LowerChar` | app.py:36 | Python's `lower()` on one character: ASCII capitals become their lower-case letters, the Kelvin sign becomes `k`, and every other character is kept. |
| `Text.LowerCharIsLower` | app.py:36 | No ASCII capital survives lowering. A character that changes becomes an ASCII lower-case letter. |
| `Text.Lower` | app.py:36 | `lower()` keeps the length and lowers each character. |
| `Text.LowerKeepsSpaces` | app.py:36 | Lowering a character never changes whether it is whitespace. |
| `Text.Normalise` | app.py:36 | The `strip().lower()` normalisation that size (app.py:36) and append (app.py:41) apply to a collection name. |
| `Text.NormaliseBlank` | app.py:36 | A name normalises to nothing exactly when it is all whitespace, and normalising never makes it longer. |
| `Text.NormalisedHasNoEdgeSpace` | app.py:36 | A normalised name does not start or end with whitespace. |
| `Text.NormaliseIdempotent` | app.py:36 | `strip().lower()` applied twice equals applied once. |
| `Text.LowerIdempotent` | app.py:36 | `lower()` applied twice equals applied once. |
| `Text.LowerFixed` | app.py:36 | A text with no character that `lower()` changes is unchanged by `lower()`. |
| `Text.LowerIdentifierIsNormal` | app.py:36 | A text made only of lower-case ASCII letters and `_` is its own `strip().lower()`. |
| `Text.IdentifierCharIsNormal` | app.py:36 | A lower-case ASCII letter or `_` is not whitespace and is unchanged by `lower()`. |
| `Navigation.BaseUrl` | app.py:56-58 | The site's base URL over HTTPS, with no trailing `/`. |
| `Navigation.WithTrailingSlash` | app.py:62-63 | The path always ends in `/`, gains at most one character, and keeps the original path as a prefix. A path that already ends in `/` is unchanged. |
| `Navigation.NavigationUrl` | app.py:56-64 | The URL always starts with `https://www.instagram.com` and ends with `/`. After the base it is the slash-terminated path. |
| `Navigation.WithTrailingSlashIdempotent` | app.py:62-63 | Adding the trailing slash twice equals adding it once. |
| `Navigation.ShortestSlashExtension` | app.py:62-63 | No extension of the path that ends in `/` is shorter than the normalised path. |
| `Navigation.NavigationUrlInjective` | app.py:62-64 | Two paths give the same URL exactly when they agree after the trailing slash is added. |
| `Navigation.NavigationExamples` | app.py:62-71 | The login path is used unchanged, a profile path gains a `/`, and the empty path gives the site root. |
| `Scrape.IsUsername` | app.py:112 | A text is kept when it is not all whitespace. |
| `Scrape.UsernameSurvivesStrip` | app.py:112 | A text counts as a username exactly when `u.text.strip()` leaves a non-empty string, which is the filter's test. |
| `Scrape.KeepNamed` | app.py:112 | The anchor texts that are not all whitespace, unstripped and in input order; `KeepNamedFilters` and `KeepNamedCounts` prove this. |
| `Scrape.KeepNamedFilters` | app.py:112 | The kept texts are a subsequence of the input, so input order is kept. Every kept text has non-whitespace content. Every input text with non-whitespace content is kept, unstripped. |
| `Scrape.KeptIffNotBlank` | app.py:112 | A text is kept exactly when it contains a character other than whitespace. |
| `Scrape.KeepNamedCounts` | app.py:112 | Each username appears in the output exactly as often as in the input. A blank text never appears. |
| `Scrape.KeepNamedKeepsUsernames` | app.py:112 | A list made only of usernames passes through unchanged. |
| `Scrape.KeepNamedIdempotent` | app.py:112 | Filtering twice equals filtering once. |
| `Scrape.ScrapedNames` | app.py:108-113 | What the passes append in total: each pass's usernames, pass after pass, with names read again on a later pass appended again. |
| `Scrape.ScrapedNamesAreUsernames` | app.py:108-113 | Every name loaded over the passes has non-whitespace content. |
| `Scrape.ScrapedNamesStep` | app.py:108-113 | The names of the first `i + 1` passes are the names of the first `i` passes followed by pass `i`'s usernames. |
| `Scrape.ScrapedNamesHoldsPass` | app.py:108-113 | Each pass's usernames are among the loaded names, as often as they occur in that pass. |
| `Scrape.ScrapedNamesHoldsTwoPasses` | app.py:108-113 | The usernames of two different passes are both among the loaded names, counted together. |
| `Scrape.RereadUserDuplicated` | app.py:108-113 | A username that two passes both read is loaded at least twice. The collections keep duplicates. |
| `Scrape.FetchUsers` | app.py:108-114 | After the ten passes, the selected collection is its old contents followed by each pass's usernames, pass after pass. Every other field is unchanged. A non-writable name changes nothing and reports failure. |

## Left out

- Browser driving is left out: starting Chrome, finding elements by name, link text or XPath, clicking, scrolling by script, and `close` (app.py:4-7, 98-107, 109-111, 118-122). These are calls into Selenium against a live page. The model receives the anchor texts of each pass as a parameter.
- The login and two-factor flow (`login`, app.py:68-90) and the credential prompts (app.py:137-138) are left out. They are interactive input, sleeps and page lookups.
- `save_to_file` (app.py:124-131) is left out because it writes files.
- Logging (app.py:9-10 and throughout) is left out because it only writes messages.
- The `__main__` script (app.py:134-151) is left out. It runs the steps above and only logs the errors it catches.
- `Scrape.FetchUsers` does not compute the size message the source logs after the passes (app.py:114), because logging is left out. It also does not model the navigation and dialog lookup before the loop, or exceptions other than an invalid collection name. It returns only whether the load succeeded.
- `Accounts.Account.AddUsersToCollection`: an open attribute lookup on `_<name>` would also accept `not_followed_by` and `not_following_back`. `Literal` hints are not enforced at run time, so this would extend a derived list. The model refuses these, following the declared `Literal` type.
- `Accounts.Account.GetCollection`: an open attribute lookup would also reach non-collection attributes, such as `username` reaching `_username`. The closed dispatch refuses every name other than the four collection names.
- `Accounts.Account.GetTotalFromCollection`: through the same closed dispatch, a name such as `" Username "` gives `Err(InvalidCollection("username"))`, where an open attribute lookup would return the length of the stored username.
- `Text.Lower` handles only the ASCII capitals and the Kelvin sign, which lowers to `k`. Python's `lower()` uses the full Unicode case tables. Other characters are left unchanged, so they never turn a name into a collection name. Python can also lengthen a string: U+0130 (`İ`) lowers to two characters, `i` and a combining dot. So the model's promises that lowering keeps the length and that `Text.NormaliseBlank` never makes a name longer hold for the model only, not for Python.
- `Text.NormaliseBlank`: its promise that normalising never makes a name longer holds only for the modelled `lower()`; Python lowers U+0130 to two characters.
- `Text.LowerCharIsLower`: its promise that a changed character becomes an ASCII lower-case letter holds only for the modelled `lower()`; Python lowers `É` to `é`.
- `Text.LowerChar`: maps one character to one character, so it cannot express the two-character lowercase of U+0130. It leaves every other non-ASCII character unchanged, including capitals that Python lowers to another non-ASCII character.
- `Accounts.Account.EvalNotFollowedBy` and `Accounts.Account.EvalNotFollowingBack` do not model the order of the lists they return. Python's set iteration order depends on string hashing. The model picks an arbitrary order.
- Aliasing is not modelled. The source returns the stored list object itself, so a caller that mutated the result would mutate the account. The model returns values. A case where this matters: `a.add_users_to_collection(a.get_collection("following"), "following")` extends the list with itself. The source's `len(usernames)` is then taken after the `extend`, so it returns 2n for a list of length n. The model's `Accounts.Account.AddUsersToCollection` returns n.

## Findings

| source | as written | input that shows it | evidently intended | confidence | as-written member | corrected member |
|---|---|---|---|---|---|---|
| app.py:32 | `self[collection]` subscripts the `Account` object, which defines no `__getitem__`. | `get_collection("following")` raises `TypeError: 'Account' object is not subscriptable`. | Look up the attribute `_<name>` and return that collection. | high; not executed | `Accounts.GetCollectionAsWritten` | `Accounts.Account.GetCollection` |
