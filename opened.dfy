/** `StructuredOutput.Opened` (src/Commands.cs): the files `p4 opened` lists,
    each with its revision, its action and its change list, and its depot
    path rewritten to the presentation the caller asked for. */
module OpenedParser {
  import opened Wrappers
  import opened Text
  import opened Patterns
  import opened Records
  import opened Sequences
  import opened FileSyntaxHelper

  // ---------------------------------------------------------------------
  // The pattern
  // `(^\/\/[0-9a-zA-Z\/\-_\.]*)#(\d+)\s-\s(edit|add)\s*(default)?\schange\s(\d+)?`,
  // read in four stages.

  /** The groups of the pattern: the depot path (group 1), the revision
      (group 2), the action (group 3), whether `default` participated
      (group 4) and the change number (group 5, `None` when it did not
      participate). */
  datatype OpenedMatch = OpenedMatch(path: string, revision: string, action: string, isDefault: bool, change: Option<string>) {
    predicate WellFormed() {
      && IsRun(revision, Digit)
      && IsOpenAction(action)
      && (change.Some? ==> IsRun(change.value, Digit))
    }
  }

  /** `(^\/\/[0-9a-zA-Z\/\-_\.]*)#`: the depot path, anchored at the start of
      the line, and the text after the `#`. */
  function MatchDepotFile(line: string): (r: Option<(string, string)>)
    ensures r.Some? ==> |r.value.0| >= 2 && r.value.0[..2] == "//" && AllIn(r.value.0[2..], DepotPath)
  {
    var slashes :- Lit(line, "//");
    assert LowerChar(slashes.taken[0]) == '/' && LowerChar(slashes.taken[1]) == '/';
    var body := Run0(slashes.rest, DepotPath);
    var hash :- Lit(body.rest, "#");
    assert (slashes.taken + body.taken)[2..] == body.taken;
    Some((slashes.taken + body.taken, hash.rest))
  }

  /** `(edit|add)`: the alternatives are tried in order; the action keeps the
      line's spelling, which is `edit` or `add` up to case. */
  function MatchAction(s: string): (r: Option<Cut>)
    ensures r.Some? ==> IsOpenAction(r.value.taken)
  {
    var edit := Lit(s, "edit");
    if edit.Some? then
      assert Lower(edit.value.taken) == "edit";
      edit
    else
      var add := Lit(s, "add");
      assert add.Some? ==> Lower(add.value.taken) == "add";
      add
  }

  /** The two actions the pattern accepts, in any case. */
  predicate IsOpenAction(action: string) {
    Lower(action) == "edit" || Lower(action) == "add"
  }

  /** `\s*(default)?\schange\s`, as the backtracking engine resolves it: the
      white space before `default` is the whole run, and `default` must be
      followed by exactly one white-space character and `change`; without
      `default`, the run must hold at least one character, its last one
      being the `\s` before `change`. The result says whether group 4
      participated. */
  function MatchChangeMarker(s: string): Option<(bool, string)> {
    var ws := Run0(s, Space);
    match DefaultChange(ws.rest)
    case Some(after) => Some((true, after))
    case None =>
      if ws.taken == [] then None
      else
        var after :- PlainChange(ws.rest);
        Some((false, after))
  }

  /** `default\schange\s` */
  function DefaultChange(s: string): Option<string> {
    var def :- Lit(s, "default");
    Keyword(def.rest, "change")
  }

  /** `change\s` */
  function PlainChange(s: string): Option<string> {
    var change :- Lit(s, "change");
    Space1(change.rest)
  }

  /** `(\d+)?`: the optional change number. */
  function OptionalNumber(s: string): (r: Option<string>)
    ensures r.Some? ==> IsRun(r.value, Digit)
  {
    var digits := Run0(s, Digit);
    if digits.taken == [] then None else Some(digits.taken)
  }

  /** `(\d+)\s-\s`: the revision and the text after the dash. */
  function MatchRevision(s: string): (r: Option<(string, string)>)
    ensures r.Some? ==> IsRun(r.value.0, Digit)
  {
    var revision :- Run1(s, Digit);
    var rest :- Keyword(revision.rest, "-");
    Some((revision.taken, rest))
  }

  /** `(edit|add)` and the change marker after it. */
  function MatchActionMarker(s: string): Option<(string, bool, string)> {
    var action :- MatchAction(s);
    var marker :- MatchChangeMarker(action.rest);
    Some((action.taken, marker.0, marker.1))
  }

  /** The whole pattern, anchored at the start of the line. */
  function MatchOpened(line: string): (r: Option<OpenedMatch>)
    ensures r.Some? ==> r.value.WellFormed()
  {
    var file :- MatchDepotFile(line);
    var revision :- MatchRevision(file.1);
    var action :- MatchActionMarker(revision.1);
    Some(OpenedMatch(file.0, revision.0, action.0, action.1, OptionalNumber(action.2)))
  }

  // ---------------------------------------------------------------------
  // Round trip: every line `p4 opened` prints is read back with its own fields.

  /** A line of `p4 opened` up to and including the change number. */
  function OpenedText(path: string, revision: string, action: string, isDefault: bool, number: string): string {
    path + "#" + revision + " - " + action + (if isDefault then " default" else "") + " change " + number
  }

  lemma MatchDepotFileOfText(body: string, after: string)
    requires AllIn(body, DepotPath)
    ensures MatchDepotFile("//" + body + "#" + after) == Some(("//" + body, after))
  {
    assert "//" + body + "#" + after == "//" + (body + ("#" + after));
    LitOfItself("//", body + ("#" + after));
    Run0OfRun(body, "#" + after, DepotPath);
    LitOfItself("#", after);
  }

  lemma MatchRevisionOfText(revision: string, after: string)
    requires IsRun(revision, Digit)
    ensures MatchRevision(revision + " - " + after) == Some((revision, after))
  {
    assert revision + " - " + after == revision + (" " + "-" + " " + after);
    Run1OfRun(revision, " " + "-" + " " + after, Digit);
    KeywordOfText("-", after);
  }

  lemma MatchActionOfText(action: string, after: string)
    requires action == "edit" || action == "add"
    ensures MatchAction(action + after) == Some(Cut(action, after))
  {
    LitOfItself(action, after);
    if action == "add" {
      assert LowerChar((action + after)[0]) != 'e';
    }
  }

  lemma DefaultChangeOfText(after: string)
    ensures DefaultChange("default change " + after) == Some(after)
  {
    assert "default change " + after == "default" + (" " + "change" + " " + after);
    LitOfItself("default", " " + "change" + " " + after);
    KeywordOfText("change", after);
  }

  lemma PlainChangeOfText(after: string)
    ensures PlainChange("change " + after) == Some(after)
    ensures DefaultChange("change " + after).None?
  {
    assert "change " + after == "change" + (" " + after);
    LitOfItself("change", " " + after);
    Space1OfSpace(after);
    assert LowerChar(("change " + after)[0]) != 'd';
  }

  lemma MatchChangeMarkerOfText(isDefault: bool, after: string)
    ensures MatchChangeMarker((if isDefault then " default" else "") + " change " + after) == Some((isDefault, after))
  {
    var rest := if isDefault then "default change " + after else "change " + after;
    assert (if isDefault then " default" else "") + " change " + after == " " + rest;
    Run0OfRun(" ", rest, Space);
    if isDefault {
      DefaultChangeOfText(after);
    } else {
      PlainChangeOfText(after);
    }
  }

  lemma MatchActionMarkerOfText(action: string, isDefault: bool, after: string)
    requires action == "edit" || action == "add"
    ensures MatchActionMarker(action + (if isDefault then " default" else "") + " change " + after)
         == Some((action, isDefault, after))
  {
    var marker := (if isDefault then " default" else "") + " change " + after;
    assert action + (if isDefault then " default" else "") + " change " + after == action + marker;
    MatchActionOfText(action, marker);
    MatchChangeMarkerOfText(isDefault, after);
  }

  lemma OptionalNumberOfText(number: string, rest: string)
    requires AllIn(number, Digit) && StopsRun(rest, Digit)
    ensures OptionalNumber(number + rest) == if number == [] then None else Some(number)
  {
    Run0OfRun(number, rest, Digit);
  }

  /** Every printed line is recognised with its own groups: the path, the
      number after `#`, the action, whether `default` is there, and the
      change number when one follows `change`. */
  lemma MatchOpenedOfText(body: string, revision: string, action: string, isDefault: bool, number: string, rest: string)
    requires AllIn(body, DepotPath) && IsRun(revision, Digit) && (action == "edit" || action == "add")
    requires AllIn(number, Digit) && StopsRun(rest, Digit)
    ensures MatchOpened(OpenedText("//" + body, revision, action, isDefault, number) + rest)
         == Some(OpenedMatch("//" + body, revision, action, isDefault, if number == [] then None else Some(number)))
  {
    var afterChange := number + rest;
    var afterDash := action + (if isDefault then " default" else "") + " change " + afterChange;
    var afterHash := revision + " - " + afterDash;
    assert OpenedText("//" + body, revision, action, isDefault, number) + rest == "//" + body + "#" + afterHash;
    MatchDepotFileOfText(body, afterHash);
    MatchRevisionOfText(revision, afterDash);
    MatchActionMarkerOfText(action, isDefault, afterChange);
    OptionalNumberOfText(number, rest);
  }

  /** A line that ends right after `change` is not recognised, with or
      without `default`: the pattern needs a white-space character after
      `change` (`- edit default change` alone at the end of a line is dropped). */
  lemma OpenedNeedsSpaceAfterChange(body: string, revision: string, action: string, isDefault: bool)
    requires AllIn(body, DepotPath) && IsRun(revision, Digit) && (action == "edit" || action == "add")
    ensures MatchOpened("//" + body + "#" + revision + " - " + action + (if isDefault then " default" else "") + " change").None?
  {
    var marker := (if isDefault then " default" else "") + " change";
    var afterHash := revision + " - " + (action + marker);
    assert "//" + body + "#" + revision + " - " + action + (if isDefault then " default" else "") + " change"
        == "//" + body + "#" + afterHash;
    MatchDepotFileOfText(body, afterHash);
    MatchRevisionOfText(revision, action + marker);
    MatchActionOfText(action, marker);
    ChangeMarkerAtEnd(isDefault);
  }

  lemma ChangeMarkerAtEnd(isDefault: bool)
    ensures MatchChangeMarker((if isDefault then " default" else "") + " change").None?
  {
    if isDefault {
      DefaultChangeAtEnd();
    } else {
      PlainChangeAtEnd();
    }
  }

  lemma DefaultChangeAtEnd()
    ensures MatchChangeMarker(" default" + " change").None?
  {
    var rest := "default" + (" " + "change");
    assert " default" + " change" == " " + rest;
    Run0OfRun(" ", rest, Space);
    LitOfItself("default", " " + "change");
    Space1OfSpace("change");
    LitOfItself("change", "");
    assert "change" + "" == "change";
    assert Keyword(" " + "change", "change").None?;
    assert PlainChange(rest).None? by {
      assert LowerChar(rest[0]) != "change"[0];
    }
  }

  lemma PlainChangeAtEnd()
    ensures MatchChangeMarker("" + " change").None?
  {
    var rest := "change";
    assert "" + " change" == " " + rest;
    Run0OfRun(" ", rest, Space);
    LitOfItself("change", "");
    assert "change" + "" == "change";
    assert DefaultChange(rest).None? by {
      assert LowerChar(rest[0]) != "default"[0];
    }
  }

  // ---------------------------------------------------------------------
  // The parser.

  /** The conversions of the projection do not throw: `String.Remove` has the
      characters it drops when the syntax strips the stream prefix, and
      group 5 captured a number when `default` is absent. */
  predicate Buildable(m: OpenedMatch, syntax: FileSyntax, clientInfo: ClientInfo) {
    && (Strips(syntax) ==> CanStrip(m.path, clientInfo))
    && (m.isDefault || m.change.Some?)
  }

  /** The projection of one match: `ChangeList` is -1 ("Default") exactly
      when group 4 participated. */
  function OpenedItem(m: OpenedMatch, syntax: FileSyntax, clientInfo: ClientInfo, p: Platform): (r: OpenedFile)
    requires m.WellFormed() && Buildable(m, syntax, clientInfo)
    ensures r.changeList == -1 <==> m.isDefault
    ensures r.changeList >= -1
  {
    OpenedFile(FromDepotSyntaxTo(syntax, m.path, clientInfo, p),
               DigitsValue(m.revision),
               if m.isDefault then -1 else DigitsValue(m.change.value),
               m.action)
  }

  function OpenedItemOf(syntax: FileSyntax, clientInfo: ClientInfo, p: Platform): OpenedMatch --> OpenedFile {
    (m: OpenedMatch) requires m.WellFormed() && Buildable(m, syntax, clientInfo) => OpenedItem(m, syntax, clientInfo, p)
  }

  /** No matching line makes the projection throw, and `int.Parse` accepts
      every number it reads. */
  predicate OpenedFit(lines: seq<string>, syntax: FileSyntax, clientInfo: ClientInfo) {
    forall i :: 0 <= i < |lines| && MatchOpened(lines[i]).Some? ==>
      var m := MatchOpened(lines[i]).value;
      Buildable(m, syntax, clientInfo) && FitsInt32(m.revision) && (!m.isDefault ==> FitsInt32(m.change.value))
  }

  /** `StructuredOutput.Opened`: one record per line the pattern matches, in
      input order, built from that line's groups; other lines are dropped. */
  function Opened(lines: seq<string>, syntax: FileSyntax, clientInfo: ClientInfo, p: Platform): (r: seq<OpenedFile>)
    requires OpenedFit(lines, syntax, clientInfo)
    ensures var ps := Positions(lines, Matched(MatchOpened));
      && |r| == |ps|
      && forall k :: 0 <= k < |ps| ==>
           MatchOpened(lines[ps[k]]).Some?
           && r[k] == OpenedItem(MatchOpened(lines[ps[k]]).value, syntax, clientInfo, p)
    ensures forall f :: f in r ==> 0 <= f.revision <= Int32Max && -1 <= f.changeList <= Int32Max
  {
    FilterMapInOrder(lines, MatchOpened, OpenedItemOf(syntax, clientInfo, p));
    var r := FilterMap(lines, MatchOpened, OpenedItemOf(syntax, clientInfo, p));
    var ps := Positions(lines, Matched(MatchOpened));
    assert forall k :: 0 <= k < |ps| ==> MatchOpened(lines[ps[k]]).Some?;
    r
  }

  /** A printed line becomes the record it describes: the path rewritten to
      the requested syntax, the revision after `#`, the action, and change
      list -1 for `default` or the number after `change`. */
  lemma OpenedOfText(body: string, revision: string, action: string, isDefault: bool, number: string, rest: string,
                     syntax: FileSyntax, clientInfo: ClientInfo, p: Platform)
    requires AllIn(body, DepotPath) && IsRun(revision, Digit) && (action == "edit" || action == "add")
    requires AllIn(number, Digit) && StopsRun(rest, Digit)
    requires !isDefault ==> number != []
    requires Strips(syntax) ==> CanStrip("//" + body, clientInfo)
    ensures var m := MatchOpened(OpenedText("//" + body, revision, action, isDefault, number) + rest);
      && m.Some? && m.value.WellFormed() && Buildable(m.value, syntax, clientInfo)
      && OpenedItem(m.value, syntax, clientInfo, p)
         == OpenedFile(FromDepotSyntaxTo(syntax, "//" + body, clientInfo, p), DigitsValue(revision),
                       if isDefault then -1 else DigitsValue(number), action)
  {
    MatchOpenedOfText(body, revision, action, isDefault, number, rest);
  }

  /** The change list as `p4 opened` prints it after `change`: nothing after
      `default` (-1), otherwise the number in decimal. */
  function ChangeNumberText(changeList: int): string
    requires changeList >= -1
  {
    if changeList == -1 then "" else DecimalDigits(changeList)
  }

  /** The numbers a line prints are the numbers its record holds: the
      revision, and the change list, -1 for `default`. */
  lemma OpenedOfNumbers(body: string, revision: nat, action: string, changeList: int, rest: string,
                        syntax: FileSyntax, clientInfo: ClientInfo, p: Platform)
    requires AllIn(body, DepotPath) && (action == "edit" || action == "add")
    requires changeList >= -1 && StopsRun(rest, Digit)
    requires Strips(syntax) ==> CanStrip("//" + body, clientInfo)
    ensures var line := OpenedText("//" + body, DecimalDigits(revision), action, changeList == -1,
                                   ChangeNumberText(changeList)) + rest;
      var m := MatchOpened(line);
      && m.Some? && m.value.WellFormed() && Buildable(m.value, syntax, clientInfo)
      && OpenedItem(m.value, syntax, clientInfo, p)
         == OpenedFile(FromDepotSyntaxTo(syntax, "//" + body, clientInfo, p), revision, changeList, action)
  {
    var number := ChangeNumberText(changeList);
    OpenedOfText(body, DecimalDigits(revision), action, changeList == -1, number, rest, syntax, clientInfo, p);
  }
}
