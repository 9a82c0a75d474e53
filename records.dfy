/** The record types of src/Commands.cs (`PSP4FileSyntax`, `PSP4ClientInfo`,
    `PSP4ChangeListItem`, `PSP4FileLogItem`, `PSP4OpenedFile`) and the two
    library services the parsers call but whose behaviour is not part of this
    model. */
module Records {
  import opened Wrappers

  /** `PSP4FileSyntax`: the presentation a depot path is rewritten to. */
  datatype FileSyntax = Local | LocalRelative | Client | Depot

  /** `PSP4ClientInfo`: the workspace metadata printed by `p4 info`. */
  datatype ClientInfo = ClientInfo(
    userName: string,
    clientName: string,
    clientHost: string,
    clientRoot: string,
    clientStream: string,
    clientAddress: string,
    serverAddress: string)

  /** A freshly constructed `PSP4ClientInfo`: every property is `string.Empty`. */
  const EmptyClientInfo: ClientInfo := ClientInfo("", "", "", "", "", "", "")

  /** `System.DateTime`, kept opaque: only its tick count is modelled. */
  datatype DateTime = DateTime(ticks: nat)

  /** `default(DateTime)`, what a record keeps when `DateTime.TryParse` fails. */
  const MinDateTime: DateTime := DateTime(0)

  /** `PSP4ChangeListItem`. `status` is `None` where the source leaves the
      property `null` (the long form never assigns it). */
  datatype ChangeListItem = ChangeListItem(
    changeList: int,
    dateTime: DateTime,
    userName: string,
    clientName: string,
    status: Option<string>,
    description: string)

  /** `PSP4FileLogItem` */
  datatype FileLogItem = FileLogItem(
    revision: int,
    changeList: int,
    action: string,
    dateTime: DateTime,
    userName: string,
    clientName: string,
    description: string)

  /** `PSP4OpenedFile` */
  datatype OpenedFile = OpenedFile(
    filePath: string,
    revision: int,
    changeList: int,
    action: string)

  /** The .NET library calls whose results depend on the culture and on the
      file system: `DateTime.TryParse` and `Path.GetFullPath`. */
  datatype Platform = Platform(
    tryParseDate: string -> Option<DateTime>,
    getFullPath: string -> string)

  /** The `DateTime` property after `if (DateTime.TryParse(text, out d)) item.DateTime = d;`. */
  function DateOrDefault(p: Platform, text: string): DateTime {
    p.tryParseDate(text).GetOr(MinDateTime)
  }

  /** The `object` `StructuredOutput.Parse` hands back to the shell. */
  datatype StructuredResult =
    | InfoResult(info: ClientInfo)
    | ChangesResult(changes: seq<ChangeListItem>)
    | FileLogResult(log: seq<FileLogItem>)
    | OpenedResult(files: seq<OpenedFile>)
    | RawLines(lines: seq<string>)
}
