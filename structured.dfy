/** `StructuredOutput.Parse` (src/Commands.cs): the table of parsers by
    command name, and the dispatch to them. */
module StructuredOutput {
  import opened Wrappers
  import opened Text
  import opened Records
  import opened Arguments
  import opened FileSyntaxHelper
  import InfoParser
  import ChangesParser
  import OpenedParser
  import FileLogParser

  /** The parsers registered in the `handlers` dictionary. */
  datatype Handler = InfoHandler | ChangesHandler | OpenedHandler | FileLogHandler

  /** `handlers.TryGetValue(name, ...)`: the dictionary is keyed by the four
      lower-case names, compared exactly. */
  function Lookup(name: string): (r: Option<Handler>)
    ensures r == Some(InfoHandler) <==> name == "info"
    ensures r == Some(ChangesHandler) <==> name == "changes"
    ensures r == Some(OpenedHandler) <==> name == "opened"
    ensures r == Some(FileLogHandler) <==> name == "filelog"
  {
    if name == "info" then Some(InfoHandler)
    else if name == "changes" then Some(ChangesHandler)
    else if name == "opened" then Some(OpenedHandler)
    else if name == "filelog" then Some(FileLogHandler)
    else None
  }

  /** The workspace the `Opened` parser reads: `executionResult.ClientInfo`,
      which is only dereferenced when a path is stripped. */
  function OpenedWorkspace(cached: Option<ClientInfo>): ClientInfo {
    cached.GetOr(EmptyClientInfo)
  }

  /** What each parser demands of its input: `int.Parse` accepts every number
      it meets, and `Opened` has a cached workspace and paths long enough to
      strip when the syntax strips them. */
  predicate ParseFits(command: string, arguments: seq<string>, syntax: FileSyntax,
                      output: seq<string>, cached: Option<ClientInfo>)
  {
    match Lookup(Lower(command))
    case Some(ChangesHandler) => ChangesParser.ChangesFit(arguments, output)
    case Some(OpenedHandler) =>
      (Strips(syntax) ==> cached.Some?) && OpenedParser.OpenedFit(output, syntax, OpenedWorkspace(cached))
    case Some(FileLogHandler) => !HasLongFlag(arguments) ==> FileLogParser.FileLogFit(output)
    case _ => true
  }

  /** `StructuredOutput.Parse`: the parser registered under the lower-cased
      command name gets the output; any other command gets its lines back
      unchanged. Only `Info` touches the session cache. */
  method Parse(command: string, arguments: seq<string>, syntax: FileSyntax, output: seq<string>,
               cached: Option<ClientInfo>, p: Platform)
    returns (result: StructuredResult, cache: Option<ClientInfo>)
    requires ParseFits(command, arguments, syntax, output, cached)
    ensures Lookup(Lower(command)).None? ==> result == RawLines(output) && cache == cached
    ensures Lookup(Lower(command)) == Some(InfoHandler) && cached.Some? ==>
      result == InfoResult(cached.value) && cache == cached
    ensures Lookup(Lower(command)) == Some(InfoHandler) && cached.None? ==>
      && result.InfoResult? && cache == Some(result.info)
      && forall l :: InfoParser.Field(result.info, l) == InfoParser.LastValue(output, l, InfoParser.MatchLabel)
    ensures Lookup(Lower(command)) == Some(ChangesHandler) ==>
      result == ChangesResult(ChangesParser.ChangesOf(arguments, output, p)) && cache == cached
    ensures Lookup(Lower(command)) == Some(OpenedHandler) ==>
      result == OpenedResult(OpenedParser.Opened(output, syntax, OpenedWorkspace(cached), p)) && cache == cached
    ensures Lookup(Lower(command)) == Some(FileLogHandler) ==>
      result == FileLogParser.FileLog(arguments, output, p) && cache == cached
  {
    cache := cached;
    var handler := Lookup(Lower(command));
    match handler {
      case None =>
        result := RawLines(output);
      case Some(InfoHandler) =>
        var info;
        info, cache := InfoParser.Info(cached, output);
        result := InfoResult(info);
      case Some(ChangesHandler) =>
        var changes := ChangesParser.Changes(arguments, output, p);
        result := ChangesResult(changes);
      case Some(OpenedHandler) =>
        result := OpenedResult(OpenedParser.Opened(output, syntax, OpenedWorkspace(cached), p));
      case Some(FileLogHandler) =>
        result := FileLogParser.FileLog(arguments, output, p);
    }
  }
}
