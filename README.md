# Ship Data CLI, modelled in Dafny

The tool loads a dataset of ship records and answers commands typed at a
prompt. The commands are:

- count the ships;
- list their names;
- list their countries;
- list their countries sorted without duplicates;
- count the ships per type;
- search by name, case-insensitively and by substring;
- export a speed histogram;
- export a map of positions.

The model has four modules:

- `Text` (`text.dfy`): the Python string operations the tool relies on. These
  are `str.lower`, `str.strip` and `str.split(maxsplit=1)`, the `in` substring
  test, string ordering as `sorted` uses it, and the decimal text of a count.
- `Ships` (`ships.dfy`): the record type and the read-only queries. Each query
  returns what its command prints, as a value.
- `TypeTally` (`tally.dfy`): the per-type count. It is an imperative method
  that fills an insertion-ordered dictionary. It is proved equal to a
  specification function, and the properties of the count are proved about
  that function.
- `Cli` (`cli.dfy`): the dispatcher, the parsing of one input line, one turn
  of the interactive loop with both exception handlers, and the loop itself as
  an imperative method proved against a recursive specification. `Render`
  gives the console text of every reply, as the source prints it when its
  input is not a terminal.

A record is a map from field name to text. No field is guaranteed to be
present.

Exceptions the source raises are values of `Exception`:

- a `KeyError` when a listing meets a record without its field;
- an `IndexError` when a blank line is split;
- an `EOFError` when the input ends;
- a `TypeError` when the search is called with the wrong number of arguments.

They travel as `Raised(...)` to the handler that catches them in the source.

## Model

| member | source | states |
|---|---|---|
| Text.Lower | titanic.py:225 | `str.lower` keeps the length, maps each character to its lower-case form, and leaves no upper-case letter |
| Text.LowerIdempotent | titanic.py:109-112 | lowering twice is lowering once, so a query already lowered is unchanged when lowered again |
| Text.Strip | titanic.py:225 | `str.strip` gives a contiguous slice of the line with only whitespace before and after it, neither end of the result is whitespace, and it is empty exactly when the line is all whitespace |
| Text.SplitOnce | titanic.py:233 | `split(maxsplit=1)` gives at most two non-empty parts and nothing exactly for an all-blank string; the first part has no whitespace; the second starts at a non-blank; the string is rebuilt from leading blanks, part one, a blank run and part two |
| Text.SplitOnceLower | titanic.py:225-235 | the parts of a lowered line are lower case |
| Text.Contains | titanic.py:112 | the `in` test never finds a needle longer than the haystack |
| Text.ContainsIff | titanic.py:112 | the `in` test holds exactly when the needle occurs at some position of the haystack, in both directions |
| Text.EmptyContained | titanic.py:112 | the empty string is contained in every string |
| Text.LessIrreflexive | titanic.py:75 | no string sorts before itself |
| Text.LessTransitive | titanic.py:75 | string order is transitive |
| Text.LessTotal | titanic.py:75 | of two different strings, one sorts before the other |
| Text.LessAsymmetric | titanic.py:75 | two strings never each sort before the other |
| Text.Decimal | titanic.py:28 | the f-string text of a count is a non-empty digit string without a leading zero |
| Text.DecimalRoundTrip | titanic.py:28 | reading back the printed count gives the count |
| Ships.ShipCount | titanic.py:26-28 | the count is the number of records |
| Ships.ShipCountIgnoresTotal | titanic.py:26-28 | the count does not depend on the `totalCount` the loader reports |
| Ships.Column | titanic.py:40 | the list comprehension succeeds exactly when every record has the key, and then holds one value per record in order; otherwise it raises `KeyError(key)` |
| Ships.ListField | titanic.py:38-45 | the notice exactly when there are no records or the first lacks the key; a `KeyError` exactly when the first has it and some record lacks it; otherwise every record's value in order |
| Ships.ShipNames | titanic.py:38-45 | the name listing: the notice exactly when there are no records or the first has no SHIPNAME; a `KeyError` exactly when the first has it and a later record lacks it; any other success is a listing of one name per record in order |
| Ships.ShipCountries | titanic.py:55-62 | the same three cases for COUNTRY, any other success being a listing of one country per record in order |
| Ships.SortedUnique | titanic.py:75 | `sorted(set(...))` is strictly ascending, so it has no duplicates, and it holds exactly the input's values |
| Ships.SortedUnique_Determined | titanic.py:75 | two strictly sorted lists with the same elements are equal, so the unique-country listing is fully determined |
| Ships.SortedUniqueIdempotent | titanic.py:75 | sorting and de-duplicating a second time changes nothing |
| Ships.UniqueCountries | titanic.py:72-80 | the notice and the `KeyError` in the same cases as the country listing; any other success is a listing that is strictly sorted and holds exactly the country values of the records |
| Ships.Filter | titanic.py:110-113 | the comprehension keeps a subsequence of the records, in their order, each one a match, and misses no matching record |
| Ships.FilterOccurrences | titanic.py:110-113 | each matching record is kept as many times as it occurs among the records, and no other record is kept; with the subsequence clause this fixes the result |
| Ships.FilterAppend | titanic.py:110-113 | filtering a concatenation is concatenating the filtered parts |
| Ships.Search | titanic.py:108-116 | the header shows the lowered query; the matches are a subsequence of the records; a record is kept iff the lowered query is in its lowered SHIPNAME (or in "" when it has none), as many times as it occurs; no matches exactly when no record matches |
| Ships.MatchNames | titanic.py:115-116 | one printed name per match, in order, `None` for a match without SHIPNAME |
| Ships.SearchIgnoresCase | titanic.py:109 | searching for a query and for its lower-case form gives the same result |
| Ships.SearchEmptyMatchesAll | titanic.py:112 | the empty query matches every record |
| Ships.SearchFindsSubstring | titanic.py:112 | a record whose lowered name contains the lowered query at some position is among the matches |
| Ships.Speeds | titanic.py:127 | the histogram's input is no longer than the records; it holds only SPEED values of records; it has one value per record exactly when every record has the field, and none exactly when none has |
| Ships.SpeedsAppend | titanic.py:127 | the selection of a concatenation is the concatenation of the selections, so the values come in record order |
| Ships.SpeedsOne | titanic.py:127 | a single record gives its SPEED value if it has the field, and nothing otherwise; with SpeedsAppend this fixes the whole selection |
| Ships.Markers | titanic.py:145-154 | no more markers than records, each placed from some record with both LAT and LON, popup the name or "Unknown"; one per record exactly when all have both, none exactly when none has |
| Ships.MarkersAppend | titanic.py:145-154 | the markers of a concatenation are the concatenation of the markers, so they come in record order |
| Ships.MarkersOne | titanic.py:145-154 | a single record gives one marker if it has both LAT and LON, and none otherwise; with MarkersAppend this fixes the whole marker list |
| TypeTally.Types | titanic.py:91-94 | the dictionary's keys have no repeats and are exactly the types of the records, "Unknown" for a record without TYPE_SUMMARY |
| TypeTally.CountOf | titanic.py:94 | a type's count is at most the number of records, and positive exactly when some record has that type |
| TypeTally.Tally | titanic.py:96 | `items()` yields one pair per distinct type, in first-seen order, each with its number of records |
| TypeTally.CountTypes | titanic.py:91-94 | the counting loop leaves the dictionary's keys, in insertion order, equal to the distinct types, and each key's value equal to its number of records |
| TypeTally.ShipsByTypes | titanic.py:90-97 | the loop over the records with its insertion-ordered dictionary, then the loop over `items()`, yields exactly `Tally(ships)` |
| TypeTally.TotalOfPairs | titanic.py:96-97 | the counts printed for a list of keys add up to the sum of the per-key record counts |
| TypeTally.SumCountsAppend | titanic.py:92-94 | one more record adds one to the sum over distinct keys when its type is among them, and nothing otherwise |
| TypeTally.TypesSum | titanic.py:91-94 | the per-type record counts add up to the number of records |
| TypeTally.TallyTotal | titanic.py:90-97 | the printed counts add up to the number of records |
| TypeTally.TallyCounts | titanic.py:90-97 | no type is printed twice, every printed count is at least 1 and equals the number of records of that type, and every record's type is printed |
| TypeTally.FirstIndex | titanic.py:92-94 | every listed type has a first record of that type |
| TypeTally.TallyFirstSeenOrder | titanic.py:96 | types are printed in the order their first records appear |
| Cli.Lookup | titanic.py:185-196 | `commands.get` finds a command exactly for the tokens "1" to "8", and the command found is the one with that token |
| Cli.LookupToken | titanic.py:185-194 | every command is selected by its own token |
| Cli.Execute | titanic.py:186-202 | each command runs its own query: the count gives the number of records, the listings give their listings when they succeed, the per-type count gives `Tally`, the exporters get `Speeds` and `Markers`, the search with one argument gives `Search` on it; a `TypeError` with the argument count exactly when the search gets other than one argument; a `KeyError` on SHIPNAME or COUNTRY exactly when that listing's field is missing on a later record; nothing else is raised |
| Cli.Dispatch | titanic.py:185-208 | "Unknown command" exactly for tokens outside the table; each token "1" to "8" runs its own command (count, names, countries, unique countries, per-type count, search, histogram, map) and reports its output; the `TypeError` is reported, not raised, and only for "6" with a wrong argument count; a `KeyError` escapes exactly when "2" meets a later record without SHIPNAME or "3"/"4" one without COUNTRY, and carries that key |
| Cli.DispatchIgnoresArgument | titanic.py:199-202 | every command other than "6" gives the same reply whatever arguments are passed |
| Cli.Parse | titanic.py:225-235 | "help" and "exit" are recognised on the stripped, lowered line before any split; a blank line raises `IndexError`; otherwise the command and argument are the split parts, the argument "" when there is no second part |
| Cli.ParseCommandLine | titanic.py:225-235 | the command token is a non-empty, lower-case word without whitespace; the argument is lower case and starts at a non-blank |
| Cli.Answer | titanic.py:233-241 | a command line is dispatched with its argument: the dispatcher's reply is shown, and an exception escaping it is shown by the loop's `except Exception` report; a command line never ends the loop, and since exactly one argument is passed the dispatcher's `TypeError` report is never reached |
| Cli.Respond | titanic.py:223-241 | an interrupt ends the loop with "Program interrupted"; the end of input reports `EOFError` and goes on; "exit" ends the loop with `Exiting`; a command line gives `Answer` on its command and argument; the loop only ends with one of the two goodbyes; no turn shows the dispatcher's `TypeError` report |
| Cli.RespondStops | titanic.py:223-241 | a turn ends the loop exactly on an interrupt or a line that reads "exit" once stripped and lowered; the reply is then `Interrupted` for the interrupt and `Exiting` for "exit" |
| Cli.RespondGoesOn | titanic.py:223-241 | a blank line reports `IndexError`, the end of input reports `EOFError`, "help" shows the help, each time the loop goes on; no turn shows the `TypeError` report |
| Cli.Cut | titanic.py:223-241 | a session keeps at most one reply per turn, and exactly one per turn when it has not ended |
| Cli.CutReplies | titanic.py:223-241 | the i-th reply is the i-th turn's; only the last turn kept may stop the loop, and the session has ended exactly when it does |
| Cli.CutStops | titanic.py:229-231 | nothing after the first turn that stops the loop is kept, and the session has ended |
| Cli.CutRunsOn | titanic.py:237-241 | errors never end the loop: turns that all go on leave the session running |
| Cli.ConverseStops | titanic.py:229-231 | nothing after the first `exit` or interrupt is read: the session over all the events is the session cut just after it, and it has ended |
| Cli.EndOfInputRepeats | titanic.py:225 | once input is exhausted, every turn reports `EOFError` and the loop never ends |
| Cli.Session | titanic.py:223-241 | the `while True` loop with its `break`s produces exactly the session's replies and end |
| Cli.Message | titanic.py:241 | a `KeyError` prints as its key in single quotes |
| Cli.ListingLines | titanic.py:41-45 | a listing prints its header and then its values; a missing field prints exactly the line "No '<key>' key found in the ship entries." |
| Cli.SearchText | titanic.py:114-116 | the header with the query, then exactly one line per match, each the match's SHIPNAME or `None` |
| Cli.TallyText | titanic.py:95-97 | the header "Ships by types:", then exactly one line per pair, the type, ": " and the count in decimal |
| Cli.SearchLines | titanic.py:114-116 | the search header carries the lowered query; the header is printed alone exactly when no record matches; otherwise one name per match in order |
| Cli.OutputText | titanic.py:28-156 | the console text of a finished command: the count sentence with the count in decimal; each listing's header then its values, or the missing-key notice with its key; the per-type count's and the search's texts; the histogram and map confirmation lines |
| Cli.Render | titanic.py:28-241 | the console text of every reply: a finished command prints its `OutputText`; the dispatcher's `TypeError` report, the unknown-command line and the loop's error report with the exception's message; the help; "Exiting the program."; a blank line then "Program interrupted. Exiting..." |

## Left out

- Loading the data (`load_data`, `load_and_print_keys`) and the `Error loading data` path of `main`. The loaded dataset is a parameter. load_data.py is not part of this model.
- Console I/O. Prompts and `input()` become a sequence of `Input` events: a line, an interrupt, or the end of input. `print` becomes the returned `Reply` values and their `Render` lines. The help banner printed before the loop is left out.
- The drawing and saving in `speed_histogram` and `draw_map`: matplotlib, folium, the PNG and HTML files. Only the record selections behind them are modelled (`Ships.Speeds`, `Ships.Markers`), plus their confirmation lines.
- Field values other than text. Records map names to strings, so these source behaviours are out of reach:
  - the `AttributeError` a non-text SHIPNAME raises in the search;
  - the `TypeError` that mixed country types raise in `sorted`;
  - a LAT or LON present with the value `None`.
- Text.Lower and Text.Strip: only ASCII is case-mapped and only ASCII whitespace is stripped or split on. Python's Unicode case mapping and whitespace are not modelled.
- Cli.Respond: a `KeyboardInterrupt` is an event between reads. An interrupt in the middle of a command's output is not modelled.
- Cli.Session: the session runs over a finite sequence of events. When input runs out, the source keeps reading and reporting `EOFError` forever (`Cli.EndOfInputRepeats`). That unbounded repetition is not modelled.
- Cli.Message: the `EOFError` text is the one `input()` gives when its input is not a terminal. On a terminal, end of input raises an `EOFError` with an empty message, so the source prints "An error occurred: " alone, and the next `input()` reads again instead of failing at once. The model follows non-terminal input only; `Cli.EndOfInputRepeats` holds for that case.
- Cli.Render: the `TypeError` message is written for the search lambda. Other exceptions from the exporters are out of scope with the exporters.
