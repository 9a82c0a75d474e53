/** `StructuredOutput.FileLog` (src/Commands.cs): the revisions `p4 filelog`
    lists, one record per matching line, or the raw lines under `-l`. */
module FileLogParser {
  import opened Wrappers
  import opened Text
  import opened Patterns
  import opened Records
  import opened Sequences
  import opened Arguments

  // ---------------------------------------------------------------------
  // The pattern
  // `.*#(\d+)\schange\s(\d+)\s(\w+)\son\s(\d+\/\d+\/\d+)\sby\s([0-9a-zA-Z-\._]+)@([0-9a-zA-Z-\._]+)\s\((\w+)\)\s(.*)`.

  /** The groups of the pattern after the `#`: revision, change list, action,
      date, user, client, file type and description. */
  datatype FileLogFields = FileLogFields(
    revision: string,
    change: string,
    action: string,
    date: DateStamp,
    user: string,
    client: string,
    fileType: string,
    description: string)
  {
    predicate WellFormed() {
      && IsRun(revision, Digit)
      && IsRun(change, Digit)
      && IsRun(action, Word)
      && date.WellFormed()
      && IsRun(user, Login)
      && IsRun(client, Login)
      && IsRun(fileType, Word)
    }

    /** The text after the `#`, as `p4 filelog` prints it. */
    function Text(): string {
      revision + " change " + change + ActionText(action, date, user, client, TypeText(fileType, description))
    }
  }

  /** The printed ` (type) description`. */
  function TypeText(fileType: string, description: string): string {
    " (" + fileType + ") " + description
  }

  /** The printed ` action on date by user@client`, followed by `rest`. */
  function ActionText(action: string, date: DateStamp, user: string, client: string, rest: string): string {
    " " + action + StampText(date, user, client) + rest
  }

  /** `(\d+)\schange\s(\d+)`: revision, change number and what follows. */
  function MatchRevisionChange(s: string): (r: Option<(string, string, string)>)
    ensures r.Some? ==> IsRun(r.value.0, Digit) && IsRun(r.value.1, Digit) && StopsRun(r.value.2, Digit)
  {
    var revision :- Run1(s, Digit);
    var afterChange :- Keyword(revision.rest, "change");
    var change :- Run1(afterChange, Digit);
    Some((revision.taken, change.taken, change.rest))
  }

  /** `\s(\w+)` and the stamp `\son\s(date)\sby\s(user)@(client)`. */
  function MatchActionStamp(s: string): (r: Option<(string, Stamp)>)
    ensures r.Some? ==> IsRun(r.value.0, Word)
  {
    var s1 :- Space1(s);
    var action :- Run1(s1, Word);
    var stamp :- MatchStamp(action.rest, Login);
    Some((action.taken, stamp))
  }

  /** `\s\((\w+)`: the file type. */
  function OpenType(s: string): (r: Option<Cut>)
    ensures r.Some? ==> IsRun(r.value.taken, Word)
  {
    var s1 :- Space1(s);
    var paren :- Lit(s1, "(");
    Run1(paren.rest, Word)
  }

  /** `\)\s(.*)`: the description is the rest of the line. */
  function CloseType(s: string): Option<string> {
    var paren :- Lit(s, ")");
    Space1(paren.rest)
  }

  /** `\s\((\w+)\)\s(.*)`: the file type and the description. */
  function MatchTypeDescription(s: string): (r: Option<(string, string)>)
    ensures r.Some? ==> IsRun(r.value.0, Word)
  {
    var fileType :- OpenType(s);
    var description :- CloseType(fileType.rest);
    Some((fileType.taken, description))
  }

  /** The pattern after the `#`. */
  function MatchTail(s: string): (r: Option<FileLogFields>)
    ensures r.Some? ==> r.value.WellFormed()
  {
    var rc :- MatchRevisionChange(s);
    var st :- MatchActionStamp(rc.2);
    var td :- MatchTypeDescription(st.1.rest);
    Some(FileLogFields(rc.0, rc.1, st.0, st.1.date, st.1.user, st.1.client, td.0, td.1))
  }

  /** A test of the text after a `#`; the search for the `#` below does not
      depend on which, so it is stated for any of them. */
  type TailTest = string -> bool

  /** A `#` at position `j` whose tail passes the test. */
  predicate HashMatches(line: string, j: nat, tail: TailTest) {
    j < |line| && line[j] == '#' && tail(line[j + 1..])
  }

  /** The leading `.*#`, as the backtracking engine resolves it: `.*` first
      takes the whole line and gives characters back one at a time, so the
      `#` used is the rightmost one, before position `k`, after which the
      rest of the pattern matches. */
  function LastHash(line: string, k: nat, tail: TailTest): (r: Option<nat>)
    requires k <= |line|
    ensures r.Some? ==> r.value < k && HashMatches(line, r.value, tail)
    ensures r.Some? ==> forall j :: r.value < j < k ==> !HashMatches(line, j, tail)
    ensures r.None? ==> forall j :: 0 <= j < k ==> !HashMatches(line, j, tail)
    decreases k
  {
    if k == 0 then None
    else if HashMatches(line, k - 1, tail) then Some(k - 1)
    else LastHash(line, k - 1, tail)
  }

  /** The test the pattern makes after the `#`. */
  function TailMatches(): TailTest {
    s => MatchTail(s).Some?
  }

  /** The whole pattern. */
  function MatchFileLog(line: string): (r: Option<FileLogFields>)
    ensures r.Some? ==> r.value.WellFormed()
  {
    match LastHash(line, |line|, TailMatches())
    case Some(j) => MatchTail(line[j + 1..])
    case None => None
  }

  // ---------------------------------------------------------------------
  // Round trip.

  lemma MatchRevisionChangeOfText(revision: string, change: string, rest: string)
    requires IsRun(revision, Digit) && IsRun(change, Digit) && StopsRun(rest, Digit)
    ensures MatchRevisionChange(revision + " change " + change + rest) == Some((revision, change, rest))
  {
    assert revision + " change " + change + rest == revision + (" " + "change" + " " + (change + rest));
    Run1OfRun(revision, " " + "change" + " " + (change + rest), Digit);
    KeywordOfText("change", change + rest);
    Run1OfRun(change, rest, Digit);
  }

  lemma MatchActionStampOfText(action: string, date: DateStamp, user: string, client: string, rest: string)
    requires IsRun(action, Word) && date.WellFormed() && IsRun(user, Login) && IsRun(client, Login)
    requires StopsRun(rest, Login)
    ensures MatchActionStamp(ActionText(action, date, user, client, rest))
         == Some((action, Stamp(date, user, client, rest)))
  {
    var stamp := StampText(date, user, client) + rest;
    assert " " + action + StampText(date, user, client) + rest == " " + (action + stamp);
    Space1OfSpace(action + stamp);
    assert StampText(date, user, client)[0] == ' ';
    Run1OfRun(action, stamp, Word);
    MatchStampOfText(date, user, client, Login, rest);
  }

  lemma MatchTypeDescriptionOfText(fileType: string, description: string)
    requires IsRun(fileType, Word)
    ensures MatchTypeDescription(TypeText(fileType, description)) == Some((fileType, description))
  {
    var close := ") " + description;
    assert " (" + fileType + ") " + description == " " + ("(" + (fileType + close));
    Space1OfSpace("(" + (fileType + close));
    LitOfItself("(", fileType + close);
    Run1OfRun(fileType, close, Word);
    assert close == ")" + (" " + description);
    LitOfItself(")", " " + description);
    Space1OfSpace(description);
  }

  /** Every printed tail is read back with its own fields. */
  lemma MatchTailOfText(f: FileLogFields)
    requires f.WellFormed()
    ensures MatchTail(f.Text()) == Some(f)
  {
    var typeText := TypeText(f.fileType, f.description);
    var actionText := ActionText(f.action, f.date, f.user, f.client, typeText);
    assert StopsRun(actionText, Digit) by { assert actionText[0] == ' '; }
    assert StopsRun(typeText, Login) by { assert typeText[0] == ' '; }
    MatchRevisionChangeOfText(f.revision, f.change, actionText);
    assert MatchRevisionChange(f.Text()) == Some((f.revision, f.change, actionText));
    MatchActionStampOfText(f.action, f.date, f.user, f.client, typeText);
    MatchTypeDescriptionOfText(f.fileType, f.description);
  }

  /** A `#`-free run. */
  lemma NoHashInRun(s: string, k: CharClass)
    requires AllIn(s, k) && !InClass('#', k)
    ensures '#' !in s
  {
  }

  /** The printed tail holds no `#` of its own when its description has none. */
  lemma TextHasNoHash(f: FileLogFields)
    requires f.WellFormed() && '#' !in f.description
    ensures '#' !in f.Text()
  {
    NoHashInRun(f.revision, Digit);
    NoHashInRun(f.change, Digit);
    NoHashInRun(f.action, Word);
    NoHashInRun(f.date.year, Digit);
    NoHashInRun(f.date.month, Digit);
    NoHashInRun(f.date.day, Digit);
    NoHashInRun(f.user, Login);
    NoHashInRun(f.client, Login);
    NoHashInRun(f.fileType, Word);
  }

  /** The rightmost `#` is the one used when none follows it. */
  lemma {:induction false} LastHashOfRightmost(line: string, j: nat, k: nat, tail: TailTest)
    requires j < k <= |line| && HashMatches(line, j, tail)
    requires forall i :: j < i < k ==> line[i] != '#'
    ensures LastHash(line, k, tail) == Some(j)
    decreases k
  {
    if k - 1 != j {
      LastHashOfRightmost(line, j, k - 1, tail);
    }
  }

  /** Whatever precedes the `#` (the depot path and revision number as
      `p4 filelog` prints them, or anything else), a line whose text after
      its last `#` is a printed tail is read back with exactly that tail's
      fields. */
  lemma MatchFileLogOfText(prefix: string, f: FileLogFields)
    requires f.WellFormed() && '#' !in f.description
    ensures MatchFileLog(prefix + "#" + f.Text()) == Some(f)
  {
    var line := prefix + "#" + f.Text();
    var j := |prefix|;
    assert line[j + 1..] == f.Text();
    MatchTailOfText(f);
    TextHasNoHash(f);
    forall i | j < i < |line| ensures line[i] != '#' {
      assert line[i] == f.Text()[i - j - 1];
    }
    assert HashMatches(line, j, TailMatches());
    LastHashOfRightmost(line, j, |line|, TailMatches());
  }

  // ---------------------------------------------------------------------
  // The parser.

  /** The projection of one match; group 7, the file type, is not kept. */
  function FileLogItemOf(f: FileLogFields, p: Platform): FileLogItem
    requires f.WellFormed()
  {
    FileLogItem(DigitsValue(f.revision), DigitsValue(f.change), f.action,
                DateOrDefault(p, f.date.Text()), f.user, f.client, f.description)
  }

  function FileLogItemFrom(p: Platform): FileLogFields --> FileLogItem {
    (f: FileLogFields) requires f.WellFormed() => FileLogItemOf(f, p)
  }

  /** `int.Parse` accepts both numbers of every matching line. */
  predicate FileLogFit(lines: seq<string>) {
    forall i :: 0 <= i < |lines| && MatchFileLog(lines[i]).Some? ==>
      FitsInt32(MatchFileLog(lines[i]).value.revision) && FitsInt32(MatchFileLog(lines[i]).value.change)
  }

  /** The short form: one record per line the pattern matches, in input
      order, built from that line's groups; other lines are dropped. */
  function FileLogItems(lines: seq<string>, p: Platform): (r: seq<FileLogItem>)
    ensures var ps := Positions(lines, Matched(MatchFileLog));
      && |r| == |ps|
      && forall k :: 0 <= k < |ps| ==>
           MatchFileLog(lines[ps[k]]).Some?
           && r[k] == FileLogItemOf(MatchFileLog(lines[ps[k]]).value, p)
  {
    FilterMapInOrder(lines, MatchFileLog, FileLogItemFrom(p));
    FilterMap(lines, MatchFileLog, FileLogItemFrom(p))
  }

  /** `StructuredOutput.FileLog`: under `-l` the output comes back unchanged;
      otherwise the records of the matching lines, whose numbers are in the
      range of `int`. */
  function FileLog(arguments: seq<string>, output: seq<string>, p: Platform): (r: StructuredResult)
    requires !HasLongFlag(arguments) ==> FileLogFit(output)
    ensures HasLongFlag(arguments) ==> r == RawLines(output)
    ensures !HasLongFlag(arguments) ==> r == FileLogResult(FileLogItems(output, p))
    ensures !HasLongFlag(arguments) ==>
      forall e :: e in r.log ==> 0 <= e.revision <= Int32Max && 0 <= e.changeList <= Int32Max
  {
    if HasLongFlag(arguments) then RawLines(output)
    else
      var items := FileLogItems(output, p);
      var ps := Positions(output, Matched(MatchFileLog));
      assert forall k :: 0 <= k < |items| ==> MatchFileLog(output[ps[k]]).Some?;
      FileLogResult(items)
  }
}
