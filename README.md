# Landing-key search over a decoded flight record

`bot.py` is a diagnostic script for a flight-simulation airline bot. It fetches
the latest completed flight from the airline's API and hunts through the full
flight record for anything that looks like landing data (landing rate,
touchdown speed, vertical speed, FPM). The hunt is `recursive_search`
(bot.py:12-34). It walks the decoded JSON value depth-first. For every dict
member it builds a path: `key` at the root, `path.key` below that, and
`path[i]` for list elements. It reports each member whose key contains, after
lowercasing, one of `rate`, `touchdown`, `landing`, `fpm`, `vs` or `speed`,
provided the member's value is an int, float, str or bool. It recurses into
every dict value and every list element whether or not the key matched.

This project models that walk and proves what it reports.

- `json_model.dfy` (module `JsonModel`): decoded JSON as a datatype. Objects
  are (key, value) pairs in insertion order. Floats are opaque payloads.
  `IsScalar` is Python's `isinstance(v, (int, float, str))`, so a bool passes
  and null does not.
- `text.dfy` (module `Text`): ASCII lowercasing, the substring test, the
  keyword test, and decimal text for integers, with round-trip lemmas.
- `search.dfy` (module `LandingSearch`): the walk as the imperative method
  `RecursiveSearch`. It extends a local list member by member with `for`
  loops, as the source does. It is proved equal to the ghost specification
  `Search`.
- `positions.dfy` (module `Positions`): an independent description of the
  output. A *position* is the list of member/element indices from the root.
  It is *reportable* when it ends at a member whose key matches and whose
  value is a scalar. The walk reports exactly the reportable positions, each
  once, in pre-order.
- `paths.dfy` (module `PathSyntax`): the path strings. Every reported path
  extends the starting path. Paths are pairwise distinct when keys are plain.
  Three concrete inputs show paths colliding when keys are not plain: one
  with a dotted key, one with a key holding `[`, one with an empty key.
- `render.dfy` (module `Render`): the text line the source stores for each
  hit. Its value text is Python's `str()`, with the text of a float supplied
  by the caller.

The source keeps each hit as a formatted string. The model keeps it as a
`Finding(path, value)`, and `Render.Report` turns the list of findings into
the source's list of lines.

## Model

| member | source | states |
|---|---|---|
| `LandingSearch.MemberPath` | bot.py:18 | definition: `new_path` of a dict member, the key alone when the current path is empty, otherwise the path, a dot and the key |
| `LandingSearch.ItemPath` | bot.py:32 | definition: the path of list element `i`, the current path followed by `[`, the decimal text of `i` and `]` |
| `LandingSearch.OwnEntry` | bot.py:21-25 | definition: the entry a dict member contributes for itself, one finding when its key matches and its value is a scalar, none otherwise |
| `LandingSearch.Search` | bot.py:12-34 | definition: the specification of the walk; a dict reports its members' loop, a list its elements' loop, anything else nothing |
| `LandingSearch.MemberSearch` | bot.py:17-28 | definition: what the first `n` iterations of the dict loop report, each member's own entry followed by everything beneath its value |
| `LandingSearch.ItemSearch` | bot.py:30-32 | definition: what the first `n` iterations of the list loop report |
| `Text.Lower` | bot.py:22 | definition: `k.lower()` on ASCII letters, every other character unchanged |
| `Text.MatchesKeyword` | bot.py:21-22 | definition: the key test, some keyword of the six occurs at some offset of the lowercased key |
| `JsonModel.IsScalar` | bot.py:24 | definition: `isinstance(v, (int, float, str))`, true for bools and false for null, lists and dicts |
| `Render.ValueText` | bot.py:25 | definition: `str(v)` of a reported value; `True`/`False` for a bool, the signed decimal text for an int, the string itself, the caller's text for a float |
| `Text.IntText` | bot.py:25 | definition: `str(i)` of an integer, a minus sign before the digits of a negative one |
| `LandingSearch.RecursiveSearch` | bot.py:12-34 | the loop-based walk returns exactly `Search(data, path)`: own entry of each member, then everything beneath its value, members in order, list elements in index order |
| `LandingSearch.SearchBounds` | bot.py:14-34 | every reported value is an int, float, str or bool, and there are at most as many entries as dict keys in the input |
| `LandingSearch.MemberSearchBounds` | bot.py:17-28 | the same two bounds for the first `n` iterations of the loop over a dict's members |
| `LandingSearch.ItemSearchBounds` | bot.py:30-32 | the same two bounds for the first `n` iterations of the loop over a list's elements |
| `LandingSearch.NothingToReport` | bot.py:14-34 | a scalar, null, empty dict or empty list at the root yields an empty result |
| `Text.KeywordAt` | bot.py:21-22 | any key in which a keyword occurs, in any ASCII case, matches |
| `Text.MatchesKeywordIgnoresCase` | bot.py:22 | a key and its lowercase form match alike |
| `Text.DecimalText` | bot.py:32 | the decimal text of an index is non-empty, all digits, and has no leading zero |
| `Text.DecimalRoundTrip` | bot.py:32 | reading back the decimal text of a number gives the number |
| `Text.DecimalInjective` | bot.py:32 | different indices have different decimal texts |
| `Text.IntTextRoundTrip` | bot.py:25 | the text of any integer, sign included, parses back to that integer |
| `Positions.SearchReportsReportable` | bot.py:17-32 | the walk reports one entry per reportable position and no other; entry `i` is the path and value at the `i`-th position; positions are distinct and strictly increasing in pre-order |
| `Positions.SearchEnumeratesHits` | bot.py:17-32 | entry `i` of the walk is the path and scalar at the `i`-th listed position |
| `Positions.MemberSearchEnumeratesHits` | bot.py:17-28 | the same correspondence for the first `n` members of a dict |
| `Positions.ItemSearchEnumeratesHits` | bot.py:30-32 | the same correspondence for the first `n` elements of a list |
| `Positions.HitsSound` | bot.py:21-25 | every listed position ends at a member whose key matches and whose value is a scalar |
| `Positions.MemberHitsSound` | bot.py:17-28 | the first `n` members of a dict contribute only reportable positions below those members |
| `Positions.ItemHitsSound` | bot.py:30-32 | the first `n` list elements contribute only reportable positions below those elements |
| `Positions.HitsComplete` | bot.py:17-32 | every reportable position is listed, however deep and whatever the keys above it |
| `Positions.MemberHitsComplete` | bot.py:17-28 | every reportable position below one of the first `n` members is listed |
| `Positions.ItemHitsComplete` | bot.py:30-32 | every reportable position below one of the first `n` elements is listed |
| `Positions.HitsOrdered` | bot.py:17-32 | listed positions are strictly increasing in pre-order: a member before its descendants, earlier members and elements before later ones |
| `Positions.MemberHitsOrdered` | bot.py:17-28 | the same order for the first `n` members of a dict |
| `Positions.ItemHitsOrdered` | bot.py:30-32 | the same order for the first `n` elements of a list |
| `Positions.BeforeIrreflexive` | bot.py:17-32 | no position precedes itself, so the ordered positions are pairwise distinct |
| `Positions.DescendsIntoEveryMember` | bot.py:27-28 | whatever is reportable beneath a dict member is reported at the path built from that member's key, whether or not the key matched |
| `Positions.NothingBelowReported` | bot.py:24-28 | nothing beneath a reported member is reportable, since its value is a scalar |
| `PathSyntax.MemberPathBelow` | bot.py:18 | below a non-empty path, a member's path is that path, a dot and the key |
| `PathSyntax.ItemPathBelow` | bot.py:32 | an element's path is the current path, `[`, the decimal index and `]` |
| `PathSyntax.PathsBelowStart` | bot.py:18-32 | started at a list or below a non-empty path, every reported path is the start path followed by `.` or `[` and more |
| `PathSyntax.MemberPathsBelow` | bot.py:17-28 | when the current path is non-empty or every key among the first `n` members is non-empty, each entry of a dict's loop is at or below the path of one of its members |
| `PathSyntax.ItemPathsBelow` | bot.py:30-32 | each entry of a list's loop is strictly below the path of one of its elements |
| `PathSyntax.KeysApart` | bot.py:18 | no path lies at or below the paths of two different plain keys |
| `PathSyntax.IndicesApart` | bot.py:32 | no path lies below the paths of two different list indices |
| `PathSyntax.UniquePaths` | bot.py:17-32 | when keys are non-empty, free of `.` and `[`, and distinct within each dict, no two entries share a path |
| `PathSyntax.EntryBelowChild` | bot.py:18-32 | with plain keys, the path of a reportable position is at or below the path of the first child it enters, and strictly below it when it goes deeper |
| `PathSyntax.EntryPathsDistinct` | bot.py:18-32 | with plain keys, two different reportable positions are written with two different paths |
| `PathSyntax.DottedKeyCollision` | bot.py:18 | `{"a": {"speed": 1}, "a.speed": 2}` yields two entries with path `a.speed` |
| `PathSyntax.BracketKeyCollision` | bot.py:18-32 | `{"a": [{"speed": 1}], "a[0]": {"speed": 2}}` yields two entries with path `a[0].speed`: a key holding `[` spells out a list element's path |
| `PathSyntax.EmptyKeyCollision` | bot.py:18 | `{"": {"speed": 1}, "speed": 2}` yields two entries with path `speed`: an empty key leaves the path empty, so the walk beneath it drops the dot |
| `Render.Line` | bot.py:25 | definition: the line for one finding, the marker, the path, ` = ` and the value's text, one after the other |
| `Render.Report` | bot.py:14-34 | definition: the list of strings the source returns, one line per finding, in the order of the findings |
| `Render.ReportConcat` | bot.py:25-32 | rendering two lists of findings one after the other gives their two lists of lines joined |
| `Render.ReportMemberStep` | bot.py:17-28 | one iteration of the dict loop, in lines: the earlier lines, then the member's own line when it is reported (`found.append`), then the lines from beneath its value (`found.extend`); so rendering the walk's findings gives the strings the source builds level by level |
| `Render.ReportItemStep` | bot.py:30-32 | one iteration of the list loop, in lines: the earlier lines, then the lines from beneath the element (`found.extend`) |
| `Render.IntLineRoundTrip` | bot.py:25 | the integer written at the end of a line parses back to the reported integer |
| `Render.BoolLine` | bot.py:25 | a bool is written as `True` or `False` |

The source's function only reads its input and builds a fresh list. The model
has immutable values and no requires on `Search` or `RecursiveSearch`, so the
walk is total and cannot change its input.

## Left out

- `main` (bot.py:36-72): the HTTP requests, the status checks, the console output and the JSON dump of the flight result. These are I/O around the airline's API.
- `async`/`await` and `asyncio.run`: nothing runs concurrently with the walk, so it is modelled as a synchronous method.
- The API key, base URL and headers (bot.py:8-10): configuration read from the environment.
- JSON decoding: the model starts from a decoded value. A decoder yields dicts with distinct keys; the model's objects may hold repeated keys, and only `UniquePaths`, `EntryBelowChild` and `EntryPathsDistinct` assume they do not (through `PlainKeys`).
- Python's float formatting: a float's text is a parameter of `Render.ValueText`.
- Unicode case mapping: `Lower` folds only ASCII letters and leaves every other character as it is. Python also lowercases a few non-ASCII letters to ASCII ones (the Kelvin sign to `k`, for one).
- Python's recursion limit: a value nested deeper than the interpreter allows raises `RecursionError`; the model has no depth bound.
- UniquePaths: proved only for keys that are non-empty, free of `.` and `[`, and distinct within each dict. `DottedKeyCollision`, `BracketKeyCollision` and `EmptyKeyCollision` show that the source's paths do collide otherwise, one example per excluded kind of key.
- Lone surrogates: a decoded key or string value may hold a lone UTF-16 surrogate (U+D800 to U+DFFF), which a Dafny `char` cannot represent, so such inputs are outside the model. The walk only copies strings into paths and lowercases keys, so nothing else about it changes for them.
