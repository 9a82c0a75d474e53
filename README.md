# PSP4 output translation, in Dafny

PSP4 is a PowerShell module that runs the Perforce command-line client `p4`
and turns the lines it prints into typed records. This project models the
translation layer of `src/Commands.cs`:

- the `StructuredOutput` parsers:
  - `Info`, which fills a `PSP4ClientInfo` from the `label: value` lines of `p4 info`, with the session cache in front of it;
  - `Changes`, in both its long form (`-l`) and its short form;
  - `Opened`;
  - `FileLog`;
  - the `Parse` dispatcher that picks one of these by command name;
- `FileSyntaxHelper.FromDepotSyntaxTo`, which rewrites a depot path;
- `PSP4Command.Changes` and `Execute`, which turn `-my` into `-u <user> -c <client>`;
- the stripping of `-localsyntax`/`-depotsyntax` in `InvokePSP4Cmdlet.ProcessRecord`.

Records (`PSP4ClientInfo`, `PSP4ChangeListItem`, `PSP4FileLogItem`,
`PSP4OpenedFile`) are datatypes. The loops of `Info` and of both forms of
`Changes` are methods over local variables. Each is proved equal to a left
fold that is defined by recursion on the last line. The LINQ pipelines of
`Opened` and `FileLog` are functions over `Sequences.FilterMap`, which is
the `Select`/`Where`/`Select` shape. An argument `List<string>` updated by
`Remove`/`Add` is the class `Arguments.ArgumentList`.

Each regular expression becomes a hand-written recogniser that returns an
`Option` of its groups. Its round-trip lemma shows that a line `p4`
prints is read back with its own fields, under conditions the lemma states:
- an `info` label is read back in any mix of cases, including the capitalised
  `User name:` that `p4` prints, when the value stays in the label's class;
- a `filelog` line needs a description without `#`, since the leading `.*#`
  could otherwise settle on a `#` inside it;
- a short `changes` line without the `*pending*` marker needs a description
  that does not start with white space or with `*pending*` in any case, since
  the pattern would take those as part of the separator or as the status.

The structural lemmas are stated for any recogniser, so they hold whatever
a header or a label looks like:
- the long-form state machine, over any `Opener`;
- the `Info` scan, over any `Matcher`;
- the `.*#` search of `FileLog`, over any `TailTest`.

Files:
- `wrappers.dfy`: `Option`.
- `text.dfy`: character classes, ASCII lower-casing, digit strings and their value.
- `patterns.dfy`: recogniser building blocks and the date/`by user@client` stamp the three change patterns share.
- `sequences.dfy`: positions and `FilterMap`.
- `records.dfy`: the record types.
- `arguments.dfy`: the `-l` test and the argument list.
- `filesyntax.dfy`, `info.dfy`, `changes.dfy`, `opened.dfy`, `filelog.dfy`: one per parser.
- `structured.dfy`: `Parse`.
- `command.dfy`: `PSP4Command` and the syntax flags.

## Model

| member | source | states |
|---|---|---|
| Arguments.LongFlagSpelling | src/Commands.cs:374 | the "long output" test holds exactly when some argument is spelled `-l` or `-L`; the second comparison, against `-L` after `ToLower`, can never succeed |
| Arguments.RemoveFirst | src/Commands.cs:180 | `List.Remove`: the list is unchanged when the element is absent; otherwise its first copy is deleted and every other element keeps its order |
| Arguments.RemoveFirstCount | src/Commands.cs:180 | `List.Remove` loses exactly one copy of a present element and nothing else |
| Arguments.ArgumentList.Remove | src/Commands.cs:180 | reports whether the element was present, and the list becomes the list without its first copy |
| Arguments.ArgumentList.Add | src/Commands.cs:182-185 | the element is appended at the end |
| FileSyntaxHelper.FromDepotSyntaxTo | src/Commands.cs:201-222 | `Depot` and `Client` (the default branch) return the path unchanged; `LocalRelative` drops the first `ClientStream.Length + 1` characters and turns each `/` into `\`, so the result holds no `/`; `Local` passes the workspace root, a `\` and the same stripped path to `GetFullPath`; both stripping branches need the path to be at least that long |
| FileSyntaxHelper.LocalRelativeRoundTrip | src/Commands.cs:207 | a `LocalRelative` path, with the stream prefix put back and `\` replaced by `/` (the inverse `Replace`), is the depot path it came from |
| PSP4Command.ChangesArguments | src/Commands.cs:180-186 | without `-my` the arguments are unchanged; with it, its first occurrence is removed, the others keep their order, and `-u`, user name, `-c`, client name are appended in that order |
| PSP4Command.ChangesArgumentsDropsOneMy | src/Commands.cs:180 | the rewrite removes exactly one `-my` |
| PSP4Command.Changes | src/Commands.cs:178-186 | the argument list is rewritten in place to `ChangesArguments`, with the session's cached workspace |
| PSP4Command.Execute | src/Commands.cs:157-176 | only a command spelled `changes` in any case has its arguments rewritten; `p4` then runs the command as spelled with the arguments as they now stand |
| SyntaxFlags.WithoutFlags | src/Commands.cs:521-525 | the first copy of `-localsyntax` is deleted, then the first copy of `-depotsyntax`, every other argument keeping its order; without the flags the arguments are unchanged |
| SyntaxFlags.WithoutFlagsCount | src/Commands.cs:521-525 | one exact copy of each flag present is removed and no other argument |
| SyntaxFlags.SelectedSyntax | src/Commands.cs:521-525 | the syntax is `Depot` iff `-depotsyntax` is present, `Local` iff only `-localsyntax` is, and `LocalRelative` otherwise |
| SyntaxFlags.SelectSyntax | src/Commands.cs:521-525 | the two `Remove` calls select `SelectedSyntax` and leave `WithoutFlags` |
| InfoParser.MatchLabel | src/Commands.cs:292-330 | a matched value lies in its label's character class, and the line starts with the label's first word in any case |
| InfoParser.MatchLabelOfText | src/Commands.cs:292-330 | a `label: value` line whose two words spell the label in any mix of cases is read back with its value, when the value stays in the label's class and what follows does not |
| InfoParser.PrintedSpells | src/Commands.cs:292-330 | the capitalised words `p4 info` prints (`User name:`, `Client root:`, ...) spell the labels the patterns look for |
| InfoParser.MatchPrintedLabel | src/Commands.cs:292-330 | each label line as `p4 info` prints it, such as `User name: bob`, is read back with its value |
| InfoParser.LabelsExclusive | src/Commands.cs:292-330 | no line carries two labels, so the seven tests never compete for one line |
| InfoParser.WithField | src/Commands.cs:295 | assigning one property leaves the other six unchanged |
| InfoParser.ScanLineField | src/Commands.cs:287-331 | one line changes only the property whose label it carries, and sets it to that line's value; an empty line changes nothing |
| InfoParser.LastValueSnoc | src/Commands.cs:287-331 | a new final line determines a property's last value iff it carries that label |
| InfoParser.InfoFieldIsLast | src/Commands.cs:285-333 | each property is the value on the last line carrying its label, or `""` when none does, so a later line overwrites an earlier one |
| InfoParser.TestLabel | src/Commands.cs:292-296 | one label block sets its own property to the captured value on a match and changes nothing else |
| InfoParser.Info | src/Commands.cs:277-338 | with a cached record, that record is returned and the cache is unchanged; otherwise every property is the value of the last line carrying its label, and the result becomes the cached record |
| ChangesParser.MatchHeader | src/Commands.cs:381 | a matched header has well-formed groups (word, digits, date, user, client) |
| ChangesParser.MatchHeaderOfText | src/Commands.cs:381 | every printed header is read back with exactly its own groups |
| ChangesParser.HeaderRecord | src/Commands.cs:383-399 | a line opens a record iff it matches the header pattern; the new record has an empty description and a null status |
| ChangesParser.ScanHasShape | src/Commands.cs:379-405 | after any prefix of the output, one record has been finished per header but the last, each with its block's description; the current record is the last header's, and the buffer holds the lines after it |
| ChangesParser.LongChangesBlocks | src/Commands.cs:379-413 | the long form yields one record per header line, in header order; record `k` has the `k`-th header's fields, and its description is every line strictly between that header and the next one (or the end of the output), each followed by a newline, blank lines included |
| ChangesParser.ScanAppend | src/Commands.cs:379-405 | scanning two pieces of output one after the other is scanning them together |
| ChangesParser.LongChangesDropsPreamble | src/Commands.cs:401-404 | lines before the first header are discarded |
| ChangesParser.MatchStatusTail | src/Commands.cs:422 | the captured status is `""` or `*pending*` up to case |
| ChangesParser.MatchStatusTailOfText | src/Commands.cs:422 | status `*pending*` when the marker is printed and `""` when it is not, and the trailing text is the description verbatim |
| ChangesParser.MatchShortChange | src/Commands.cs:422 | a short-form line matches only after a header, with that header's groups |
| ChangesParser.MatchShortChangeOfText | src/Commands.cs:422-435 | every printed short-form line is read back with its header, status and description |
| ChangesParser.ShortChanges | src/Commands.cs:417-438 | the short form yields one record per non-empty matching line, in input order, built from that line's groups |
| ChangesParser.ChangesInRange | src/Commands.cs:394 | every change number lies in `0..int.MaxValue` when `int.Parse` accepts them all |
| ChangesParser.Changes | src/Commands.cs:369-442 | the two loops compute the long form under `-l` and the short form otherwise, and every change number is in the range of `int` |
| OpenedParser.MatchAction | src/Commands.cs:345 | the action is `edit` or `add` up to case |
| OpenedParser.MatchOpened | src/Commands.cs:345 | a matched line has a digit revision, an `edit`/`add` action and a digit change number when one is captured |
| OpenedParser.MatchOpenedOfText | src/Commands.cs:345 | every printed `//path#rev - action [default] change [n]` line is read back with its own groups |
| OpenedParser.OpenedNeedsSpaceAfterChange | src/Commands.cs:345 | a line ending right after `change`, with or without `default`, is not matched |
| OpenedParser.OpenedItem | src/Commands.cs:348-363 | `ChangeList` is -1 exactly when `default` is present, and at least -1 |
| OpenedParser.Opened | src/Commands.cs:340-367 | one record per matching line, in input order, built from that line's groups; the revision is in `0..int.MaxValue` and the change list in `-1..int.MaxValue` |
| OpenedParser.OpenedOfText | src/Commands.cs:340-367 | a printed line becomes the record it describes: the rewritten path, the revision after `#`, the action, and -1 for `default` or else the number after `change` |
| OpenedParser.OpenedOfNumbers | src/Commands.cs:348-363 | a revision and a change list printed in decimal (the change list as `default` when it is -1) are parsed back to the same numbers |
| FileLogParser.MatchTail | src/Commands.cs:455 | the groups after the `#` are well formed |
| FileLogParser.LastHash | src/Commands.cs:455 | the leading `.*#` uses the rightmost `#` whose tail matches; no `#` after it has a matching tail, and without a result no `#` has one |
| FileLogParser.MatchFileLog | src/Commands.cs:455 | a matched line has well-formed groups |
| FileLogParser.MatchTailOfText | src/Commands.cs:455 | every printed `rev change n action on date by user@client (type) description` tail is read back with its own fields |
| FileLogParser.TextHasNoHash | src/Commands.cs:455 | a printed tail holds no `#` unless its description does |
| FileLogParser.MatchFileLogOfText | src/Commands.cs:455-472 | whatever precedes the `#`, a line ending in a printed tail whose description holds no `#` is read back with that tail's fields, and the description is the text after `(type) ` |
| FileLogParser.FileLogItems | src/Commands.cs:454-476 | one record per matching line, in input order, built from that line's groups |
| FileLogParser.FileLog | src/Commands.cs:444-480 | under `-l` the output is returned unchanged; otherwise the records of the matching lines, with revision and change in the range of `int` |
| Sequences.FilterMapInOrder | src/Commands.cs:454-457 | a `Select`/`Where`/`Select` pipeline keeps exactly the accepted lines, in input order |
| StructuredOutput.Lookup | src/Commands.cs:268-274 | the four registered names and no other, compared exactly |
| StructuredOutput.Parse | src/Commands.cs:482-491 | an unregistered command, after lower-casing, gets its lines back unchanged with the cache untouched; `info`, `changes`, `opened` and `filelog` get their parsers' results, and only `info` updates the cache |

## Left out

- `P4Helper.InvokeP4`, the process that runs `p4` and collects its lines, is not modelled. `Execute` takes it as the parameter `invoke`, and every parser starts from the lines.
- The PowerShell `SessionState` and `PSVariable` plumbing, `InitializeSession` and the `reset` command are not modelled. The session's cached `PSP4ClientInfo` is an explicit `Option<ClientInfo>` that is passed in and returned.
- `DateTime.TryParse` depends on the culture, and `Path.GetFullPath` depends on the file system. Both are fields of `Records.Platform`. A date that does not parse leaves `default(DateTime)`.
- The .NET regex engine is replaced by recognisers:
  - `\d`, `\w`, `\s` and `IgnoreCase` are taken as ASCII;
  - `.` is any character, since a line read from `p4` holds no line break.
- `int.Parse` overflow is a precondition (`FitsInt32`) of each parser. Numbers are unbounded digit values otherwise.
- When group 5 of `Opened` captured nothing (neither `default` nor a number after `change`), the `Groups[5].Captures[0]` access at src/Commands.cs:361 throws `ArgumentOutOfRangeException` before `int.Parse` runs. Its absence is a precondition (`Buildable`).
- `String.Remove` throws on a path shorter than the stream prefix plus one separator (`ClientStream.Length + 1` characters). That is a precondition (`CanStrip`).
- `Opened` with a stripping syntax dereferences the cached workspace. The dispatcher requires one to be cached.
- `string.ToLower()` (src/Commands.cs:160, 374, 448, 485) is taken as ASCII lower-casing. .NET lower-cases by the current culture: under a Turkish culture `"INFO".ToLower()` is `ınfo` with a dotless i, so the source passes that output through raw where the model dispatches it to `Info`.
- `Environment.NewLine` is taken as `"\r\n"`, the Windows line end.
- Long form of `Changes`: `Status` is never assigned, so it stays `null`, modelled as `None`.
- A line that ends right after `change` (e.g. `//depot/f#4 - edit default change`) is dropped, because the pattern at src/Commands.cs:345 needs a white-space character after `change` (`OpenedNeedsSpaceAfterChange`).
- `PSP4Command.Execute` and `ProcessRecord` write the result objects to the pipeline (`WriteObject`). That is not modelled.
