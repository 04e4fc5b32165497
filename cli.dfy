/** The command side of the tool: the dispatcher's table from tokens to
    commands, the parsing of one input line, one turn of the interactive loop,
    the loop itself, and the console text of every reply. */
module Cli {
  import opened Text
  import opened Ships
  import opened TypeTally

  /** The eight entries of the dispatcher's table. */
  datatype Command =
    | CountShips | ListNames | ListCountries | ListUniqueCountries
    | CountByType | SearchByName | SpeedHistogram | ShipMap

  /** The token that selects each command. */
  function Token(c: Command): string {
    match c
    case CountShips => "1"
    case ListNames => "2"
    case ListCountries => "3"
    case ListUniqueCountries => "4"
    case CountByType => "5"
    case SearchByName => "6"
    case SpeedHistogram => "7"
    case ShipMap => "8"
  }

  /** `commands.get(command)`: the command a token selects, if any. */
  function Lookup(token: string): (c: Option<Command>)
    ensures c.Some? ==> Token(c.value) == token
    ensures c.None? <==> forall k: Command :: Token(k) != token
  {
    if token == "1" then Some(CountShips)
    else if token == "2" then Some(ListNames)
    else if token == "3" then Some(ListCountries)
    else if token == "4" then Some(ListUniqueCountries)
    else if token == "5" then Some(CountByType)
    else if token == "6" then Some(SearchByName)
    else if token == "7" then Some(SpeedHistogram)
    else if token == "8" then Some(ShipMap)
    else None
  }

  /** Every command is reachable, each by its own token. */
  lemma LookupToken(c: Command)
    ensures Lookup(Token(c)) == Some(c)
  {
  }

  /** What a command that ran to the end shows. */
  datatype Output =
    | ShipsCounted(count: nat)
    | NamesListed(names: Listing)
    | CountriesListed(countries: Listing)
    | UniqueCountriesListed(unique: Listing)
    | TypesCounted(tally: seq<(string, nat)>)
    | SearchDone(result: SearchResult)
    | HistogramSaved(speeds: seq<string>)
    | MapSaved(markers: seq<Marker>)

  /** Runs one command with the arguments it is called with. Only the search
      takes an argument; calling it with any other number of arguments raises
      a `TypeError`; the others are only ever called without one. A listing
      whose field is missing on a later record raises a `KeyError`. */
  function Execute(c: Command, d: Dataset, args: seq<string>): (r: Result<Output>)
    requires c != SearchByName ==> args == []
    ensures c == CountShips ==> r == Ok(ShipsCounted(|d.data|))
    ensures c == ListNames && ShipNames(d.data).Ok? ==> r == Ok(NamesListed(ShipNames(d.data).value))
    ensures c == ListCountries && ShipCountries(d.data).Ok? ==> r == Ok(CountriesListed(ShipCountries(d.data).value))
    ensures c == ListUniqueCountries && UniqueCountries(d.data).Ok? ==>
      r == Ok(UniqueCountriesListed(UniqueCountries(d.data).value))
    ensures c == CountByType ==> r == Ok(TypesCounted(Tally(d.data)))
    ensures c == SpeedHistogram ==> r == Ok(HistogramSaved(Speeds(d.data)))
    ensures c == ShipMap ==> r == Ok(MapSaved(Markers(d.data)))
    ensures r.Raised? && r.error.TypeError? <==> c == SearchByName && |args| != 1
    ensures r.Raised? && r.error.TypeError? ==> r.error.given == |args|
    ensures r.Raised? && r.error.KeyError? <==>
      (c == ListNames && ShipNames(d.data).Raised?)
      || (c in {ListCountries, ListUniqueCountries} && ShipCountries(d.data).Raised?)
    ensures r.Raised? && r.error.KeyError? ==>
      r.error == KeyError(if c == ListNames then "SHIPNAME" else "COUNTRY")
    ensures r.Raised? ==> r.error.TypeError? || r.error.KeyError?
    ensures c == SearchByName && |args| == 1 ==> r == Ok(SearchDone(Search(d.data, args[0])))
  {
    match c
    case CountShips => Ok(ShipsCounted(ShipCount(d)))
    case ListNames =>
      (match ShipNames(d.data)
       case Ok(l) => Ok(NamesListed(l))
       case Raised(e) => Raised(e))
    case ListCountries =>
      (match ShipCountries(d.data)
       case Ok(l) => Ok(CountriesListed(l))
       case Raised(e) => Raised(e))
    case ListUniqueCountries =>
      (match UniqueCountries(d.data)
       case Ok(l) => Ok(UniqueCountriesListed(l))
       case Raised(e) => Raised(e))
    case CountByType => Ok(TypesCounted(Tally(d.data)))
    case SearchByName =>
      if |args| == 1 then Ok(SearchDone(Search(d.data, args[0]))) else Raised(TypeError(|args|))
    case SpeedHistogram => Ok(HistogramSaved(Speeds(d.data)))
    case ShipMap => Ok(MapSaved(Markers(d.data)))
  }

  /** What one turn of the loop shows. */
  datatype Reply =
    | Ran(output: Output)
    | CommandFailed(error: Exception)   // the dispatcher's `except TypeError`
    | UnknownCommand(token: string)
    | LoopError(error: Exception)       // the loop's `except Exception`
    | HelpShown
    | Exiting
    | Interrupted

  /** `dispatcher(command, all_data, *args)`: an unknown token is reported and
      runs nothing; a known one runs with the arguments only when it is the
      search; a `TypeError` is reported; any other exception escapes to the
      caller. */
  function Dispatch(token: string, d: Dataset, args: seq<string>): (r: Result<Reply>)
    ensures r == Ok(UnknownCommand(token)) <==> Lookup(token).None?
    ensures r.Ok? && r.value.CommandFailed? <==> token == "6" && |args| != 1
    ensures r.Ok? && r.value.CommandFailed? ==> r.value.error == TypeError(|args|)
    ensures r.Ok? ==> r.value.Ran? || r.value.CommandFailed? || r.value.UnknownCommand?
    ensures token == "1" ==> r == Ok(Ran(ShipsCounted(|d.data|)))
    ensures token == "2" && ShipNames(d.data).Ok? ==> r == Ok(Ran(NamesListed(ShipNames(d.data).value)))
    ensures token == "3" && ShipCountries(d.data).Ok? ==> r == Ok(Ran(CountriesListed(ShipCountries(d.data).value)))
    ensures token == "4" && UniqueCountries(d.data).Ok? ==>
      r == Ok(Ran(UniqueCountriesListed(UniqueCountries(d.data).value)))
    ensures token == "5" ==> r == Ok(Ran(TypesCounted(Tally(d.data))))
    ensures token == "6" && |args| == 1 ==> r == Ok(Ran(SearchDone(Search(d.data, args[0]))))
    ensures token == "7" ==> r == Ok(Ran(HistogramSaved(Speeds(d.data))))
    ensures token == "8" ==> r == Ok(Ran(MapSaved(Markers(d.data))))
    ensures r.Raised? <==>
      (token == "2" && ShipNames(d.data).Raised?)
      || (token in {"3", "4"} && ShipCountries(d.data).Raised?)
    ensures r.Raised? ==> r.error == KeyError(if token == "2" then "SHIPNAME" else "COUNTRY")
  {
    match Lookup(token)
    case None => Ok(UnknownCommand(token))
    case Some(c) =>
      var given := if c == SearchByName then args else [];
      match Execute(c, d, given)
      case Ok(o) => Ok(Ran(o))
      case Raised(e) => if e.TypeError? then Ok(CommandFailed(e)) else Raised(e)
  }

  /** Every command but the search ignores the argument it is given. */
  lemma DispatchIgnoresArgument(token: string, d: Dataset, args: seq<string>)
    requires token != "6"
    ensures Dispatch(token, d, args) == Dispatch(token, d, [])
  {
  }

  /** A line of input, once read: a reserved word, or a command token with its
      argument. */
  datatype Line = HelpLine | ExitLine | CommandLine(cmd: string, arg: string)

  /** The body of the loop up to the dispatch: strip and lowercase the line,
      check the reserved words, then split once at whitespace. A blank line
      splits into nothing, and taking its first part raises `IndexError`. */
  function Parse(raw: string): (p: Result<Line>)
    ensures p == Ok(HelpLine) <==> Lower(Strip(raw)) == "help"
    ensures p == Ok(ExitLine) <==> Lower(Strip(raw)) == "exit"
    ensures p.Raised? <==> AllSpace(raw)
    ensures p.Raised? ==> p.error == IndexError
    ensures p.Ok? && p.value.CommandLine? ==>
      SplitOnce(Lower(Strip(raw))) == if p.value.arg == [] then [p.value.cmd] else [p.value.cmd, p.value.arg]
  {
    var command := Lower(Strip(raw));
    if command == "help" then Ok(HelpLine)
    else if command == "exit" then Ok(ExitLine)
    else
      var parts := SplitOnce(command);
      if parts == [] then Raised(IndexError)
      else Ok(CommandLine(parts[0], if |parts| > 1 then parts[1] else ""))
  }

  /** The command token is a non-empty lower-case word, and its argument is
      lower case and starts, when there is one, at a non-blank character. */
  lemma ParseCommandLine(raw: string)
    ensures Parse(raw).Ok? && Parse(raw).value.CommandLine? ==>
      var c, a := Parse(raw).value.cmd, Parse(raw).value.arg;
      c != [] && NoSpace(c) && IsLower(c) && IsLower(a) && (a == [] || !IsSpace(a[0]))
  {
    var command := Lower(Strip(raw));
    var parts := SplitOnce(command);
    SplitOnceLower(command);
  }

  /** One event at the prompt: a line, Ctrl-C, or the end of the input. */
  datatype Input = Entered(text: string) | Interrupt | EndOfInput

  /** The reply to one event, and whether the loop ends there. */
  datatype Turn = Turn(reply: Reply, stop: bool)

  /** The end of the loop body for a command line: the dispatcher is called
      with exactly one argument, so its `TypeError` report is never reached
      from here, and a command line never ends the loop; an exception that
      escapes the dispatcher is reported by the loop's own handler. */
  function Answer(d: Dataset, cmd: string, arg: string): (t: Turn)
    ensures !t.stop
    ensures Dispatch(cmd, d, [arg]).Ok? ==> t.reply == Dispatch(cmd, d, [arg]).value
    ensures Dispatch(cmd, d, [arg]).Raised? ==> t.reply == LoopError(Dispatch(cmd, d, [arg]).error)
    ensures !t.reply.CommandFailed? && t.reply !in {HelpShown, Exiting, Interrupted}
  {
    var r := Dispatch(cmd, d, [arg]);
    assert r.Ok? ==> !r.value.CommandFailed?;
    match r
    case Ok(reply) => Turn(reply, false)
    case Raised(e) => Turn(LoopError(e), false)
  }

  /** One pass through the loop body, with both exception handlers. */
  function Respond(d: Dataset, input: Input): (t: Turn)
    ensures input == Interrupt ==> t == Turn(Interrupted, true)
    ensures input == EndOfInput ==> t == Turn(LoopError(EOFError), false)
    ensures input.Entered? && Parse(input.text) == Ok(ExitLine) ==> t == Turn(Exiting, true)
    ensures input.Entered? && Parse(input.text).Ok? && Parse(input.text).value.CommandLine? ==>
      t == Answer(d, Parse(input.text).value.cmd, Parse(input.text).value.arg)
    ensures t.stop ==> t.reply == Exiting || t.reply == Interrupted
    ensures !t.reply.CommandFailed?
  {
    match input
    case Interrupt => Turn(Interrupted, true)
    case EndOfInput => Turn(LoopError(EOFError), false)
    case Entered(text) =>
      match Parse(text)
      case Raised(e) => Turn(LoopError(e), false)
      case Ok(HelpLine) => Turn(HelpShown, false)
      case Ok(ExitLine) => Turn(Exiting, true)
      case Ok(CommandLine(cmd, arg)) => Answer(d, cmd, arg)
  }

  /** A turn ends the loop exactly on an interrupt or on a line that reads
      `exit` once stripped and lowered, and it then says goodbye. */
  lemma RespondStops(d: Dataset, input: Input)
    ensures var t := Respond(d, input);
      && (t.stop <==> input == Interrupt || (input.Entered? && Lower(Strip(input.text)) == "exit"))
      && (t.stop ==> t.reply == if input == Interrupt then Interrupted else Exiting)
  {
    if input.Entered? {
      var p := Parse(input.text);
      var t := Respond(d, input);
      if p.Ok? && p.value.CommandLine? {
        assert t == Answer(d, p.value.cmd, p.value.arg);
      }
      assert t.stop <==> p == Ok(ExitLine);
    }
  }

  /** The turns that report and go on: a blank line reports the `IndexError`
      of taking its first part, the end of input reports `EOFError`, and
      `help` shows the help. No turn shows the dispatcher's `TypeError`
      report. */
  lemma RespondGoesOn(d: Dataset, input: Input)
    ensures input.Entered? && AllSpace(input.text) ==> Respond(d, input) == Turn(LoopError(IndexError), false)
    ensures input == EndOfInput ==> Respond(d, input) == Turn(LoopError(EOFError), false)
    ensures input.Entered? && Lower(Strip(input.text)) == "help" ==> Respond(d, input) == Turn(HelpShown, false)
    ensures !Respond(d, input).reply.CommandFailed?
  {
  }

  /** The replies of a session, and whether it ended by `exit` or an interrupt. */
  datatype Transcript = Transcript(replies: seq<Reply>, ended: bool)

  /** A sequence of turns, as the loop goes through them: every reply up to and
      including the first turn that stops the loop. */
  function Cut(turns: seq<Turn>): (t: Transcript)
    ensures |t.replies| <= |turns|
    ensures !t.ended ==> |t.replies| == |turns|
  {
    if turns == [] then Transcript([], false)
    else if turns[0].stop then Transcript([turns[0].reply], true)
    else
      var rest := Cut(turns[1..]);
      Transcript([turns[0].reply] + rest.replies, rest.ended)
  }

  /** The i-th reply is the i-th turn's; no turn before the last one kept
      stops the loop; the session has ended exactly when that last one does. */
  lemma {:induction false} CutReplies(turns: seq<Turn>)
    ensures var t := Cut(turns);
      && (forall i :: 0 <= i < |t.replies| ==> t.replies[i] == turns[i].reply)
      && (forall i :: 0 <= i < |t.replies| - 1 ==> !turns[i].stop)
      && (t.ended <==> t.replies != [] && turns[|t.replies| - 1].stop)
  {
    if turns != [] && !turns[0].stop {
      CutReplies(turns[1..]);
    }
  }

  /** Nothing after the first turn that stops the loop is kept. */
  lemma {:induction false} CutStops(turns: seq<Turn>, k: int)
    requires 0 <= k < |turns| && turns[k].stop
    requires forall i :: 0 <= i < k ==> !turns[i].stop
    ensures Cut(turns) == Cut(turns[..k + 1])
    ensures Cut(turns).ended && |Cut(turns).replies| == k + 1
  {
    if k > 0 {
      assert turns[1..][..k] == turns[..k + 1][1..];
      CutStops(turns[1..], k - 1);
    }
  }

  /** Turns that all go on never end the session. */
  lemma {:induction false} CutRunsOn(turns: seq<Turn>)
    requires forall i :: 0 <= i < |turns| ==> !turns[i].stop
    ensures !Cut(turns).ended
  {
    if turns != [] {
      CutRunsOn(turns[1..]);
    }
  }

  /** One more turn of the session, seen from position `i`. */
  lemma CutFrom(turns: seq<Turn>, i: int)
    requires 0 <= i < |turns|
    ensures Cut(turns[i..]) ==
      if turns[i].stop then Transcript([turns[i].reply], true)
      else Transcript([turns[i].reply] + Cut(turns[i + 1..]).replies, Cut(turns[i + 1..]).ended)
  {
    assert turns[i..][1..] == turns[i + 1..];
  }

  /** The turn each event gets. */
  function Turns(d: Dataset, inputs: seq<Input>): (ts: seq<Turn>)
    ensures |ts| == |inputs|
  {
    seq(|inputs|, i requires 0 <= i < |inputs| => Respond(d, inputs[i]))
  }

  /** The session over a sequence of events. */
  function Converse(d: Dataset, inputs: seq<Input>): Transcript {
    Cut(Turns(d, inputs))
  }

  /** Nothing after the first `exit` or interrupt is read: the session is the
      one cut just after it, and it has ended. */
  lemma ConverseStops(d: Dataset, inputs: seq<Input>, k: int)
    requires 0 <= k < |inputs| && Respond(d, inputs[k]).stop
    requires forall i :: 0 <= i < k ==> !Respond(d, inputs[i]).stop
    ensures Converse(d, inputs) == Converse(d, inputs[..k + 1])
    ensures Converse(d, inputs).ended && |Converse(d, inputs).replies| == k + 1
  {
    var ts := Turns(d, inputs);
    CutStops(ts, k);
    assert ts[..k + 1] == Turns(d, inputs[..k + 1]);
  }

  /** Once the input is exhausted every read fails the same way: each turn
      reports the `EOFError` and the loop goes round again, never ending. */
  lemma EndOfInputRepeats(d: Dataset, n: nat)
    ensures Converse(d, seq(n, i => EndOfInput)) == Transcript(seq(n, i => LoopError(EOFError)), false)
  {
    var ts := Turns(d, seq(n, i => EndOfInput));
    assert forall i :: 0 <= i < n ==> ts[i] == Turn(LoopError(EOFError), false);
    CutRunsOn(ts);
    CutReplies(ts);
    assert Cut(ts).replies == seq(n, i => LoopError(EOFError));
  }

  /** `main`'s `while True` loop, after the data is loaded: answer each event,
      and leave the loop on `exit` or an interrupt. */
  method Session(d: Dataset, inputs: seq<Input>) returns (replies: seq<Reply>, ended: bool)
    ensures Transcript(replies, ended) == Converse(d, inputs)
  {
    ghost var ts := Turns(d, inputs);
    replies, ended := [], false;
    var i := 0;
    while i < |inputs|
      invariant 0 <= i <= |inputs|
      invariant Cut(ts) == Transcript(replies + Cut(ts[i..]).replies, Cut(ts[i..]).ended)
    {
      CutFrom(ts, i);
      var turn := Respond(d, inputs[i]);
      assert turn == ts[i];
      replies := replies + [turn.reply];
      if turn.stop {
        ended := true;
        break;
      }
      i := i + 1;
    }
    assert i == |inputs| ==> ts[i..] == [];
  }

  /** The console text of a Python exception, `str(e)`; a `KeyError` shows
      its key quoted. */
  function Message(e: Exception): (m: string)
    ensures e.KeyError? ==> m == "'" + e.key + "'"
  {
    match e
    case KeyError(key) => "'" + key + "'"
    case IndexError => "list index out of range"
    case EOFError => "EOF when reading a line"
    case TypeError(given) =>
      if given == 0 then "dispatcher.<locals>.<lambda>() missing 1 required positional argument: 'name_query'"
      else "dispatcher.<locals>.<lambda>() takes 1 positional argument but " + Decimal(given) + " were given"
  }

  /** The lines `display_help` prints. */
  const HelpText: seq<string> := [
    "",
    "Welcome to the Ship Data CLI!",
    "Available commands:",
    "1 - Print number of ships",
    "2 - Print names of all ships",
    "3 - Print countries of all ships",
    "4 - Print unique countries of all ships",
    "5 - Print count of ships by type",
    "6 <name> - Search for ships by name",
    "7 - Create a histogram of ship speeds",
    "8 - Draw a map of ship locations",
    "exit - Exit the program"
  ]

  /** A listing under its header, or the notice for a missing field. */
  function ListingLines(header: string, l: Listing): (lines: seq<string>)
    ensures l.Listed? ==> lines == [header] + l.values
    ensures l.Missing? ==> lines == ["No '" + l.key + "' key found in the ship entries."]
  {
    match l
    case Listed(values) => [header] + values
    case Missing(key) => ["No '" + key + "' key found in the ship entries."]
  }

  /** What `print(ship.get("SHIPNAME"))` writes. */
  function NameText(name: Option<string>): string {
    match name
    case Some(n) => n
    case None => "None"
  }

  /** The header with the query, then one name per match. */
  function SearchText(result: SearchResult): (lines: seq<string>)
    ensures |lines| == 1 + |result.matches|
    ensures lines[0] == "Ships matching '" + result.query + "':"
    ensures forall i :: 0 <= i < |result.matches| ==>
      lines[i + 1] == NameText(Find(result.matches[i], "SHIPNAME"))
  {
    var names := MatchNames(result);
    ["Ships matching '" + result.query + "':"]
    + seq(|names|, i requires 0 <= i < |names| => NameText(names[i]))
  }

  /** The header, then one line per type with its count. */
  function TallyText(tally: seq<(string, nat)>): (lines: seq<string>)
    ensures |lines| == 1 + |tally|
    ensures lines[0] == "Ships by types:"
    ensures forall i :: 0 <= i < |tally| ==> lines[i + 1] == tally[i].0 + ": " + Decimal(tally[i].1)
  {
    ["Ships by types:"]
    + seq(|tally|, i requires 0 <= i < |tally| => tally[i].0 + ": " + Decimal(tally[i].1))
  }

  /** The console lines of a command that ran to the end. */
  function OutputText(o: Output): (lines: seq<string>)
    ensures lines != []
    ensures o.ShipsCounted? ==> lines == ["There are " + Decimal(o.count) + " ships in the file."]
    ensures o.NamesListed? && o.names.Listed? ==> lines == ["Names of all the ships:"] + o.names.values
    ensures o.CountriesListed? && o.countries.Listed? ==>
      lines == ["Countries of all the ships:"] + o.countries.values
    ensures o.UniqueCountriesListed? && o.unique.Listed? ==>
      lines == ["Countries of all the ships without duplicates:"] + o.unique.values
    ensures o.NamesListed? && o.names.Missing? ==>
      lines == ["No '" + o.names.key + "' key found in the ship entries."]
    ensures o.CountriesListed? && o.countries.Missing? ==>
      lines == ["No '" + o.countries.key + "' key found in the ship entries."]
    ensures o.UniqueCountriesListed? && o.unique.Missing? ==>
      lines == ["No '" + o.unique.key + "' key found in the ship entries."]
    ensures o.TypesCounted? ==> lines == TallyText(o.tally)
    ensures o.SearchDone? ==> lines == SearchText(o.result)
    ensures o.HistogramSaved? ==> lines == ["Speed histogram saved as 'speed_histogram.png'"]
    ensures o.MapSaved? ==> lines == ["Ship map saved as 'ships_map.html'"]
  {
    match o
    case ShipsCounted(n) => ["There are " + Decimal(n) + " ships in the file."]
    case NamesListed(l) => ListingLines("Names of all the ships:", l)
    case CountriesListed(l) => ListingLines("Countries of all the ships:", l)
    case UniqueCountriesListed(l) => ListingLines("Countries of all the ships without duplicates:", l)
    case TypesCounted(tally) => TallyText(tally)
    case SearchDone(result) => SearchText(result)
    case HistogramSaved(_) => ["Speed histogram saved as 'speed_histogram.png'"]
    case MapSaved(_) => ["Ship map saved as 'ships_map.html'"]
  }

  /** The console lines of one reply. */
  function Render(r: Reply): (lines: seq<string>)
    ensures lines != []
    ensures r.Ran? ==> lines == OutputText(r.output)
    ensures r.CommandFailed? ==> lines == ["Error executing command: " + Message(r.error)]
    ensures r.UnknownCommand? ==>
      lines == ["Unknown command: " + r.token + ". Type 'help' to see the available commands."]
    ensures r.LoopError? ==> lines == ["An error occurred: " + Message(r.error)]
    ensures r == HelpShown ==> lines == HelpText
    ensures r == Exiting ==> lines == ["Exiting the program."]
    ensures r == Interrupted ==> lines == ["", "Program interrupted. Exiting..."]
  {
    match r
    case Ran(o) => OutputText(o)
    case CommandFailed(e) => ["Error executing command: " + Message(e)]
    case UnknownCommand(token) =>
      ["Unknown command: " + token + ". Type 'help' to see the available commands."]
    case LoopError(e) => ["An error occurred: " + Message(e)]
    case HelpShown => HelpText
    case Exiting => ["Exiting the program."]
    case Interrupted => ["", "Program interrupted. Exiting..."]
  }

  /** A search prints its header, with the query lowered, and nothing else
      exactly when no record matches; otherwise one name per match, in record
      order. */
  lemma SearchLines(ships: seq<Record>, query: string)
    ensures var r := Search(ships, query); var lines := SearchText(r);
      && lines[0] == "Ships matching '" + Lower(query) + "':"
      && (|lines| == 1 <==> forall i :: 0 <= i < |ships| ==> !IsMatch(ships[i], Lower(query)))
      && forall i :: 0 <= i < |r.matches| ==> lines[i + 1] == NameText(Find(r.matches[i], "SHIPNAME"))
  {
  }
}
