/** `StructuredOutput.Changes` (src/Commands.cs): the output of `p4 changes`,
    one record per line, or, under `-l`, one header line per record followed by
    the lines of its description. */
module ChangesParser {
  import opened Wrappers
  import opened Text
  import opened Patterns
  import opened Records
  import opened Sequences
  import opened Arguments

  // ---------------------------------------------------------------------
  // The header pattern
  // `^(\w+)\s(\d+)\son\s(\d+\/\d+\/\d+)\sby\s([0-9a-zA-Z-\._]+)@([(0-9a-zA-Z-\._]+)`.

  /** The groups of the header pattern. */
  datatype ChangeHeader = ChangeHeader(kind: string, number: string, date: DateStamp, user: string, client: string) {

    predicate WellFormed() {
      && IsRun(kind, Word)
      && IsRun(number, Digit)
      && date.WellFormed()
      && IsRun(user, Login)
      && IsRun(client, ChangeClient)
    }

    /** The header as `p4 changes` prints it. */
    function Text(): string {
      kind + " " + number + StampText(date, user, client)
    }
  }

  datatype HeaderMatch = HeaderMatch(header: ChangeHeader, rest: string)

  /** `\s(\d+)` and the stamp after it. */
  function MatchNumberStamp(s: string): (r: Option<(string, Stamp)>)
    ensures r.Some? ==> IsRun(r.value.0, Digit)
  {
    var s1 :- Space1(s);
    var number :- Run1(s1, Digit);
    var stamp :- MatchStamp(number.rest, ChangeClient);
    Some((number.taken, stamp))
  }

  /** The header pattern, anchored at the start of the line; `rest` is the
      text after the client name. */
  function MatchHeader(line: string): (r: Option<HeaderMatch>)
    ensures r.Some? ==> r.value.header.WellFormed() && StopsRun(r.value.rest, ChangeClient)
  {
    var kind :- Run1(line, Word);
    var tail :- MatchNumberStamp(kind.rest);
    var st := tail.1;
    Some(HeaderMatch(ChangeHeader(kind.taken, tail.0, st.date, st.user, st.client), st.rest))
  }

  /** Every well-formed header is recognised, with exactly its own fields. */
  lemma MatchHeaderOfText(h: ChangeHeader, rest: string)
    requires h.WellFormed() && StopsRun(rest, ChangeClient)
    ensures MatchHeader(h.Text() + rest) == Some(HeaderMatch(h, rest))
  {
    var tStamp := StampText(h.date, h.user, h.client) + rest;
    var tNumber := " " + (h.number + tStamp);
    assert h.Text() + rest == h.kind + tNumber;
    Run1OfRun(h.kind, tNumber, Word);
    Space1OfSpace(h.number + tStamp);
    Run1OfRun(h.number, tStamp, Digit);
    MatchStampOfText(h.date, h.user, h.client, ChangeClient, rest);
  }

  /** The record a header opens: `ChangeList` from `int.Parse` of group 2,
      `DateTime` from group 3 when it parses, user and client from groups 4
      and 5; `Status` stays `null` and the description is filled in later. */
  function NewChange(h: ChangeHeader, p: Platform): ChangeListItem
    requires h.WellFormed()
  {
    ChangeListItem(DigitsValue(h.number), DateOrDefault(p, h.date.Text()), h.user, h.client, None, "")
  }

  /** `int.Parse` of a header's change number does not throw. */
  predicate HeaderFits(line: string) {
    MatchHeader(line).Some? ==> FitsInt32(MatchHeader(line).value.header.number)
  }

  // ---------------------------------------------------------------------
  // Long form (`-l`): a finalize-on-next-header state machine. Its structure
  // does not depend on what a header looks like, so it is stated over any
  // `Opener`, the function giving the record a line opens (or `None`).

  type Opener = string -> Option<ChangeListItem>

  /** The opener of the source: the header pattern and `NewChange`. */
  function HeaderRecord(line: string, p: Platform): (r: Option<ChangeListItem>)
    ensures r.Some? <==> MatchHeader(line).Some?
    ensures r.Some? ==> r.value.description == "" && r.value.status == None
  {
    match MatchHeader(line)
    case Some(m) => Some(NewChange(m.header, p))
    case None => None
  }

  function Headers(p: Platform): Opener {
    line => HeaderRecord(line, p)
  }

  /** `StringBuilder.AppendLine` appends `Environment.NewLine`, which is
      "\r\n" on Windows, the platform this tool runs `p4.exe` on. */
  const NewLine: string := "\r\n"

  /** The loop's variables: the records already finished, `currentChange`
      (`None` for `null`) and the text of the `StringBuilder`. */
  datatype LongState = LongState(changes: seq<ChangeListItem>, current: Option<ChangeListItem>, buffer: string)

  const Start: LongState := LongState([], None, "")

  /** `currentChange.Description = sb.ToString()` and the list it ends up in. */
  function Finish(st: LongState): seq<ChangeListItem> {
    match st.current
    case None => st.changes
    case Some(c) => st.changes + [c.(description := st.buffer)]
  }

  /** One iteration of the `foreach` over the output lines. */
  function Step(st: LongState, line: string, open: Opener): LongState {
    match open(line)
    case Some(c) =>
      LongState(Finish(st), Some(c), if st.current.Some? then "" else st.buffer)
    case None =>
      if st.current.Some? then st.(buffer := st.buffer + line + NewLine) else st
  }

  function Scan(st: LongState, lines: seq<string>, open: Opener): LongState
    decreases |lines|
  {
    if lines == [] then st
    else Step(Scan(st, lines[..|lines| - 1], open), lines[|lines| - 1], open)
  }

  /** The long-form result: the state machine run to the end of the input,
      with the last record finished there. */
  function LongChanges(lines: seq<string>, open: Opener): seq<ChangeListItem> {
    Finish(Scan(Start, lines, open))
  }

  /** Each line followed by a newline, in order: what `AppendLine` leaves in
      the builder. */
  function Joined(lines: seq<string>): string
    decreases |lines|
  {
    if lines == [] then ""
    else Joined(lines[..|lines| - 1]) + lines[|lines| - 1] + NewLine
  }

  function HeaderPositions(lines: seq<string>, open: Opener): seq<nat> {
    Positions(lines, Matched(open))
  }

  /** Reference definition of one record: the header at line `i`, described
      by the lines strictly between it and line `j`. */
  function Block(lines: seq<string>, i: nat, j: nat, open: Opener): ChangeListItem
    requires i < j <= |lines| && open(lines[i]).Some?
  {
    open(lines[i]).value.(description := Joined(lines[i + 1..j]))
  }

  /** The end of block `k`: the next header, or the end of the input. */
  function BlockEnd(ps: seq<nat>, k: nat, n: nat): nat
    requires k < |ps|
  {
    if k + 1 < |ps| then ps[k + 1] else n
  }

  /** What the state machine holds after any prefix of the input. */
  ghost predicate ScanShape(lines: seq<string>, st: LongState, open: Opener) {
    var ps := HeaderPositions(lines, open);
    && (|ps| == 0 ==> st == Start)
    && (|ps| > 0 ==>
          var last := ps[|ps| - 1];
          && |st.changes| == |ps| - 1
          && (forall k :: 0 <= k < |ps| - 1 ==> st.changes[k] == Block(lines, ps[k], ps[k + 1], open))
          && st.current == open(lines[last])
          && st.buffer == Joined(lines[last + 1..]))
  }

  lemma BlockOfPrefix(lines: seq<string>, n: nat, i: nat, j: nat, open: Opener)
    requires n <= |lines| && i < j <= n && open(lines[i]).Some?
    ensures Block(lines[..n], i, j, open) == Block(lines, i, j, open)
  {
    assert lines[..n][i + 1..j] == lines[i + 1..j];
  }

  /** The headers of a prefix are those of the prefix one line shorter,
      plus the last line when it is one. */
  lemma HeaderPositionsSnoc(lines: seq<string>, open: Opener)
    requires lines != []
    ensures var n := |lines| - 1;
      HeaderPositions(lines, open)
        == HeaderPositions(lines[..n], open) + (if open(lines[n]).Some? then [n] else [])
  {
  }

  /** A header line finishes the open record and opens its own. */
  lemma ShapeAfterHeader(lines: seq<string>, st: LongState, open: Opener)
    requires lines != [] && open(lines[|lines| - 1]).Some?
    requires ScanShape(lines[..|lines| - 1], st, open)
    ensures ScanShape(lines, Step(st, lines[|lines| - 1], open), open)
  {
    var n := |lines| - 1;
    HeaderPositionsSnoc(lines, open);
    if |HeaderPositions(lines[..n], open)| > 0 {
      ShapeAfterLaterHeader(lines, st, open);
    } else {
      assert lines[n + 1..] == [];
    }
  }

  /** A header after the first one appends the finished block. */
  lemma ShapeAfterLaterHeader(lines: seq<string>, st: LongState, open: Opener)
    requires lines != [] && open(lines[|lines| - 1]).Some?
    requires ScanShape(lines[..|lines| - 1], st, open)
    requires |HeaderPositions(lines[..|lines| - 1], open)| > 0
    ensures ScanShape(lines, Step(st, lines[|lines| - 1], open), open)
  {
    var n := |lines| - 1;
    var init := lines[..n];
    var ps0 := HeaderPositions(init, open);
    HeaderPositionsSnoc(lines, open);
    var ps := HeaderPositions(lines, open);
    var st' := Step(st, lines[n], open);
    assert st'.current == open(lines[n]) && st'.buffer == "";
    assert lines[n + 1..] == [];
    assert ps == ps0 + [n];
    FinishedBlock(lines, st, open);
    BlocksOfPrefix(lines, st.changes, open);
    var last := ps0[|ps0| - 1];
    assert st'.changes == st.changes + [Block(lines, last, n, open)];
    forall k | 0 <= k < |ps| - 1
      ensures st'.changes[k] == Block(lines, ps[k], ps[k + 1], open)
    {
      if k < |ps0| - 1 {
        assert ps[k] == ps0[k] && ps[k + 1] == ps0[k + 1];
      } else {
        assert ps[k] == last && ps[k + 1] == n;
      }
    }
  }

  /** The blocks finished within a prefix are the same blocks of the whole input. */
  lemma BlocksOfPrefix(lines: seq<string>, changes: seq<ChangeListItem>, open: Opener)
    requires lines != []
    requires var ps0 := HeaderPositions(lines[..|lines| - 1], open);
      && |changes| == |ps0| - 1
      && forall k :: 0 <= k < |ps0| - 1 ==> changes[k] == Block(lines[..|lines| - 1], ps0[k], ps0[k + 1], open)
    ensures var ps0 := HeaderPositions(lines[..|lines| - 1], open);
      forall k :: 0 <= k < |ps0| - 1 ==> changes[k] == Block(lines, ps0[k], ps0[k + 1], open)
  {
    var n := |lines| - 1;
    var init := lines[..n];
    var ps0 := HeaderPositions(init, open);
    forall k | 0 <= k < |ps0| - 1
      ensures changes[k] == Block(lines, ps0[k], ps0[k + 1], open)
    {
      assert init[ps0[k]] == lines[ps0[k]];
      BlockOfPrefix(lines, n, ps0[k], ps0[k + 1], open);
    }
  }

  /** The record a header line finishes is the block of the previous header. */
  lemma FinishedBlock(lines: seq<string>, st: LongState, open: Opener)
    requires lines != [] && open(lines[|lines| - 1]).Some?
    requires ScanShape(lines[..|lines| - 1], st, open)
    requires |HeaderPositions(lines[..|lines| - 1], open)| > 0
    ensures var ps0 := HeaderPositions(lines[..|lines| - 1], open);
      Finish(st) == st.changes + [Block(lines, ps0[|ps0| - 1], |lines| - 1, open)]
  {
    var n := |lines| - 1;
    var init := lines[..n];
    var ps0 := HeaderPositions(init, open);
    var last := ps0[|ps0| - 1];
    assert init[last] == lines[last];
    assert init[last + 1..] == lines[last + 1..n];
  }

  /** Any other line is added to the open record's description, if there is one. */
  lemma ShapeAfterOther(lines: seq<string>, st: LongState, open: Opener)
    requires lines != [] && open(lines[|lines| - 1]).None?
    requires ScanShape(lines[..|lines| - 1], st, open)
    ensures ScanShape(lines, Step(st, lines[|lines| - 1], open), open)
  {
    var n := |lines| - 1;
    var init := lines[..n];
    var ps0 := HeaderPositions(init, open);
    HeaderPositionsSnoc(lines, open);
    var ps := HeaderPositions(lines, open);
    assert ps == ps0;
    if |ps0| > 0 {
      var last := ps0[|ps0| - 1];
      assert init[last] == lines[last];
      assert lines[last + 1..][..|lines[last + 1..]| - 1] == init[last + 1..];
      BlocksOfPrefix(lines, st.changes, open);
    }
  }

  lemma {:induction false} ScanHasShape(lines: seq<string>, open: Opener)
    ensures ScanShape(lines, Scan(Start, lines, open), open)
    decreases |lines|
  {
    if lines != [] {
      var n := |lines| - 1;
      ScanHasShape(lines[..n], open);
      if open(lines[n]).Some? {
        ShapeAfterHeader(lines, Scan(Start, lines[..n], open), open);
      } else {
        ShapeAfterOther(lines, Scan(Start, lines[..n], open), open);
      }
    }
  }

  /** The long form emits one record per header line, in the order of the
      headers; record `k` is the one header `k` opens, with, as description,
      every line after that header up to the next header (or the end of the
      input), each followed by a newline, blank lines included. */
  lemma LongChangesBlocks(lines: seq<string>, open: Opener)
    ensures var r := LongChanges(lines, open); var ps := HeaderPositions(lines, open);
      && |r| == |ps|
      && forall k :: 0 <= k < |ps| ==> r[k] == Block(lines, ps[k], BlockEnd(ps, k, |lines|), open)
  {
    ScanHasShape(lines, open);
    var ps := HeaderPositions(lines, open);
    if |ps| > 0 {
      var last := ps[|ps| - 1];
      assert lines[last + 1..] == lines[last + 1..|lines|];
    }
  }

  lemma {:induction false} ScanAppend(st: LongState, a: seq<string>, b: seq<string>, open: Opener)
    ensures Scan(st, a + b, open) == Scan(Scan(st, a, open), b, open)
    decreases |b|
  {
    if b == [] {
      assert a + b == a;
    } else {
      var n := |b| - 1;
      assert (a + b)[..|a + b| - 1] == a + b[..n];
      assert (a + b)[|a + b| - 1] == b[n];
      ScanAppend(st, a, b[..n], open);
    }
  }

  lemma {:induction false} ScanPreamble(lines: seq<string>, open: Opener)
    requires forall i :: 0 <= i < |lines| ==> open(lines[i]).None?
    ensures Scan(Start, lines, open) == Start
    decreases |lines|
  {
    if lines != [] {
      ScanPreamble(lines[..|lines| - 1], open);
    }
  }

  /** Lines before the first header contribute nothing. */
  lemma LongChangesDropsPreamble(preamble: seq<string>, rest: seq<string>, open: Opener)
    requires forall i :: 0 <= i < |preamble| ==> open(preamble[i]).None?
    ensures LongChanges(preamble + rest, open) == LongChanges(rest, open)
  {
    ScanPreamble(preamble, open);
    ScanAppend(Start, preamble, rest, open);
  }

  // ---------------------------------------------------------------------
  // Short form: the header pattern followed by `\s(\*pending\*)?\s?(.*)`.

  const PendingMarker: string := "*pending*"

  /** `\s(\*pending\*)?\s?(.*)`: the status (group 6, "" when it did not
      participate) and the description (group 7). */
  function MatchStatusTail(s: string): (r: Option<(string, string)>)
    ensures r.Some? ==> r.value.0 == "" || (|r.value.0| == |PendingMarker| && StartsWithIgnoreCase(r.value.0, PendingMarker))
  {
    var s1 :- Space1(s);
    var status := Lit(s1, PendingMarker);
    var after := if status.Some? then status.value.rest else s1;
    var description := if |after| > 0 && IsSpace(after[0]) then after[1..] else after;
    Some((if status.Some? then status.value.taken else "", description))
  }

  /** The tail as `p4 changes` prints it. */
  function StatusTailText(pending: bool, description: string): string {
    " " + (if pending then PendingMarker + " " else "") + description
  }

  /** Every printed tail is read back: `*pending*` as status when the marker
      is there and "" when it is not, and the trailing text, verbatim, as the
      description. Without the marker the description must not itself open
      with the marker or with white space, which the pattern would take as
      the marker or the optional separator. */
  lemma MatchStatusTailOfText(pending: bool, description: string)
    requires !pending ==> !StartsWithIgnoreCase(description, PendingMarker)
    requires !pending ==> description == [] || !IsSpace(description[0])
    ensures MatchStatusTail(StatusTailText(pending, description))
         == Some((if pending then PendingMarker else "", description))
  {
    var tail := if pending then PendingMarker + (" " + description) else description;
    assert StatusTailText(pending, description) == " " + tail;
    Space1OfSpace(tail);
    if pending {
      LitOfItself(PendingMarker, " " + description);
      Space1OfSpace(description);
    }
  }

  /** The groups of the short-form pattern. */
  datatype ShortChange = ShortChange(header: ChangeHeader, status: string, description: string)

  function MatchShortChange(line: string): (r: Option<ShortChange>)
    ensures r.Some? ==> r.value.header.WellFormed() && MatchHeader(line).Some? && r.value.header == MatchHeader(line).value.header
  {
    var m :- MatchHeader(line);
    var tail :- MatchStatusTail(m.rest);
    Some(ShortChange(m.header, tail.0, tail.1))
  }

  /** A short-form line as `p4 changes` prints it. */
  function ShortText(h: ChangeHeader, pending: bool, description: string): string {
    h.Text() + StatusTailText(pending, description)
  }

  /** Every printed short-form line is recognised with its own fields. */
  lemma MatchShortChangeOfText(h: ChangeHeader, pending: bool, description: string)
    requires h.WellFormed()
    requires !pending ==> !StartsWithIgnoreCase(description, PendingMarker)
    requires !pending ==> description == [] || !IsSpace(description[0])
    ensures MatchShortChange(ShortText(h, pending, description))
         == Some(ShortChange(h, if pending then PendingMarker else "", description))
  {
    var tail := StatusTailText(pending, description);
    MatchHeaderOfText(h, tail);
    MatchStatusTailOfText(pending, description);
  }

  /** The lines the short form reads: `IsNullOrEmpty` lines are skipped
      before the pattern is tried. */
  function ShortLine(line: string): Option<ShortChange> {
    if line == "" then None else MatchShortChange(line)
  }

  function ShortItem(c: ShortChange, p: Platform): ChangeListItem
    requires c.header.WellFormed()
  {
    ChangeListItem(DigitsValue(c.header.number), DateOrDefault(p, c.header.date.Text()),
                   c.header.user, c.header.client, Some(c.status), c.description)
  }

  function ShortItemOf(p: Platform): ShortChange --> ChangeListItem {
    (c: ShortChange) requires c.header.WellFormed() => ShortItem(c, p)
  }

  /** The short-form result: one record per matching line, in input order,
      built from that line's groups; empty and non-matching lines are skipped. */
  function ShortChanges(lines: seq<string>, p: Platform): (r: seq<ChangeListItem>)
    ensures var ps := Positions(lines, Matched(ShortLine));
      && |r| == |ps|
      && forall k :: 0 <= k < |ps| ==>
           lines[ps[k]] != "" && MatchShortChange(lines[ps[k]]).Some?
           && r[k] == ShortItem(MatchShortChange(lines[ps[k]]).value, p)
  {
    FilterMapInOrder(lines, ShortLine, ShortItemOf(p));
    FilterMap(lines, ShortLine, ShortItemOf(p))
  }

  /** `int.Parse` of a short-form line's change number does not throw. */
  predicate ShortFits(line: string) {
    ShortLine(line).Some? ==> FitsInt32(ShortLine(line).value.header.number)
  }

  // ---------------------------------------------------------------------
  // The parser.

  /** `int.Parse` throws on no line the chosen form reads. */
  predicate ChangesFit(arguments: seq<string>, output: seq<string>) {
    if HasLongFlag(arguments)
    then forall i :: 0 <= i < |output| ==> HeaderFits(output[i])
    else forall i :: 0 <= i < |output| ==> ShortFits(output[i])
  }

  function ChangesOf(arguments: seq<string>, output: seq<string>, p: Platform): seq<ChangeListItem> {
    if HasLongFlag(arguments) then LongChanges(output, Headers(p)) else ShortChanges(output, p)
  }

  /** Every change number `int.Parse` produced is in the range of `int`. */
  lemma ChangesInRange(arguments: seq<string>, output: seq<string>, p: Platform)
    requires ChangesFit(arguments, output)
    ensures forall c :: c in ChangesOf(arguments, output, p) ==> 0 <= c.changeList <= Int32Max
  {
    var r := ChangesOf(arguments, output, p);
    if HasLongFlag(arguments) {
      LongChangesBlocks(output, Headers(p));
      var ps := HeaderPositions(output, Headers(p));
      forall k | 0 <= k < |r| ensures 0 <= r[k].changeList <= Int32Max {
        assert HeaderFits(output[ps[k]]);
      }
    } else {
      var ps := Positions(output, Matched(ShortLine));
      forall k | 0 <= k < |r| ensures 0 <= r[k].changeList <= Int32Max {
        assert ShortFits(output[ps[k]]);
      }
    }
  }

  /** `StructuredOutput.Changes` */
  method Changes(arguments: seq<string>, output: seq<string>, p: Platform) returns (changes: seq<ChangeListItem>)
    requires ChangesFit(arguments, output)
    ensures changes == ChangesOf(arguments, output, p)
    ensures forall c :: c in changes ==> 0 <= c.changeList <= Int32Max
  {
    changes := [];
    if HasLongFlag(arguments) {
      var current: Option<ChangeListItem> := None;
      var sb := "";
      for i := 0 to |output|
        invariant LongState(changes, current, sb) == Scan(Start, output[..i], Headers(p))
      {
        var line := output[i];
        assert output[..i + 1][..i] == output[..i];
        var matches := MatchHeader(line);
        if matches.Some? {
          if current.Some? {
            changes := changes + [current.value.(description := sb)];
            sb := "";
          }
          current := Some(NewChange(matches.value.header, p));
        } else if current.Some? {
          sb := sb + line + NewLine;
        }
      }
      assert output[..|output|] == output;
      if current.Some? {
        changes := changes + [current.value.(description := sb)];
        sb := "";
      }
    } else {
      for i := 0 to |output|
        invariant changes == ShortChanges(output[..i], p)
      {
        var line := output[i];
        assert output[..i + 1][..i] == output[..i];
        if line == "" {
          continue;
        }
        var matches := MatchShortChange(line);
        if matches.None? {
          continue;
        }
        changes := changes + [ShortItem(matches.value, p)];
      }
      assert output[..|output|] == output;
    }
    ChangesInRange(arguments, output, p);
  }
}
