/** `StructuredOutput.Info` (src/Commands.cs): the `label: value` lines of
    `p4 info` scanned into a `PSP4ClientInfo`, and the session cache that
    makes a second `info` return the first result. */
module InfoParser {
  import opened Wrappers
  import opened Text
  import opened Patterns
  import opened Records
  import opened Sequences

  /** The seven labels the scanner looks for, in the order it tries them. */
  datatype Label = UserName | ClientName | ClientHost | ClientRoot | ClientStream | ClientAddress | ServerAddress

  /** The two words of a label, as the pattern spells them (`^user\sname:\s`). */
  function Words(l: Label): (string, string) {
    match l
    case UserName => ("user", "name:")
    case ClientName => ("client", "name:")
    case ClientHost => ("client", "host:")
    case ClientRoot => ("client", "root:")
    case ClientStream => ("client", "stream:")
    case ClientAddress => ("client", "address:")
    case ServerAddress => ("server", "address:")
  }

  /** The class of the captured value: `[0-9a-zA-Z_\-\.@]*` for names and the
      host, with `\` and `:` for the root, with `/` for the stream, and `.*`
      for the two addresses. */
  function ValueClass(l: Label): CharClass {
    match l
    case UserName => InfoName
    case ClientName => InfoName
    case ClientHost => InfoName
    case ClientRoot => InfoRoot
    case ClientStream => InfoStream
    case ClientAddress => AnyChar
    case ServerAddress => AnyChar
  }

  /** The property of `PSP4ClientInfo` a label fills. */
  function Field(info: ClientInfo, l: Label): string {
    match l
    case UserName => info.userName
    case ClientName => info.clientName
    case ClientHost => info.clientHost
    case ClientRoot => info.clientRoot
    case ClientStream => info.clientStream
    case ClientAddress => info.clientAddress
    case ServerAddress => info.serverAddress
  }

  /** The record with one property set. */
  function WithField(info: ClientInfo, l: Label, v: string): (r: ClientInfo)
    ensures Field(r, l) == v
    ensures forall l' :: l' != l ==> Field(r, l') == Field(info, l')
  {
    match l
    case UserName => info.(userName := v)
    case ClientName => info.(clientName := v)
    case ClientHost => info.(clientHost := v)
    case ClientRoot => info.(clientRoot := v)
    case ClientStream => info.(clientStream := v)
    case ClientAddress => info.(clientAddress := v)
    case ServerAddress => info.(serverAddress := v)
  }

  /** A word followed by one white-space character (`user\s`). */
  function WordSpace(s: string, word: string): (r: Option<string>)
    ensures r.Some? ==> StartsWithIgnoreCase(s, word) && |r.value| + |word| + 1 == |s|
  {
    var w :- Lit(s, word);
    Space1(w.rest)
  }

  /** The label pattern anchored at the start of the line; its result is the
      captured value (group 1). */
  function MatchLabel(line: string, l: Label): (r: Option<string>)
    ensures r.Some? ==> AllIn(r.value, ValueClass(l))
    ensures r.Some? ==> StartsWithIgnoreCase(line, Words(l).0)
  {
    var s1 :- WordSpace(line, Words(l).0);
    var s2 :- WordSpace(s1, Words(l).1);
    Some(Run0(s2, ValueClass(l)).taken)
  }

  /** The two words of a label as `p4 info` prints them, capitalised
      (`User name: bob`). */
  function Printed(l: Label): (string, string) {
    match l
    case UserName => ("User", "name:")
    case ClientName => ("Client", "name:")
    case ClientHost => ("Client", "host:")
    case ClientRoot => ("Client", "root:")
    case ClientStream => ("Client", "stream:")
    case ClientAddress => ("Client", "address:")
    case ServerAddress => ("Server", "address:")
  }

  /** `w1` and `w2` spell the label's two words in some mix of cases. */
  predicate Spells(l: Label, w1: string, w2: string) {
    Lower(w1) == Words(l).0 && Lower(w2) == Words(l).1
  }

  /** The label line `w1 w2 value`, one space after each word. */
  function LabelText(w1: string, w2: string, value: string): string {
    w1 + " " + w2 + " " + value
  }

  lemma WordSpaceOfText(spelling: string, word: string, rest: string)
    requires Lower(spelling) == word
    ensures WordSpace(spelling + " " + rest, word) == Some(rest)
  {
    assert spelling + " " + rest == spelling + (" " + rest);
    LitOfSpelling(spelling, word, " " + rest);
    Space1OfSpace(rest);
  }

  /** Every label line is read back with its value, whatever the case of
      its two words, when the value stays in the label's class and what
      follows it does not. */
  lemma MatchLabelOfText(l: Label, w1: string, w2: string, value: string, rest: string)
    requires Spells(l, w1, w2)
    requires AllIn(value, ValueClass(l)) && StopsRun(rest, ValueClass(l))
    ensures MatchLabel(LabelText(w1, w2, value) + rest, l) == Some(value)
  {
    var tail := value + rest;
    assert LabelText(w1, w2, value) + rest == w1 + " " + (w2 + " " + tail);
    WordSpaceOfText(w1, Words(l).0, w2 + " " + tail);
    WordSpaceOfText(w2, Words(l).1, tail);
    Run0OfRun(value, rest, ValueClass(l));
  }

  /** The capitalised words `p4 info` prints spell the label. */
  lemma PrintedSpells(l: Label)
    ensures Spells(l, Printed(l).0, Printed(l).1)
  {
    var (w1, w2) := Printed(l);
    assert Lower(w1) == Words(l).0;
    assert Lower(w2) == Words(l).1;
  }

  /** So each line as printed is read back: `User name: bob` gives `bob`. */
  lemma MatchPrintedLabel(l: Label, value: string, rest: string)
    requires AllIn(value, ValueClass(l)) && StopsRun(rest, ValueClass(l))
    ensures MatchLabel(LabelText(Printed(l).0, Printed(l).1, value) + rest, l) == Some(value)
  {
    PrintedSpells(l);
    MatchLabelOfText(l, Printed(l).0, Printed(l).1, value, rest);
  }

  /** The first letter of each word of a matched label. */
  lemma LabelHead(line: string, l: Label)
    requires MatchLabel(line, l).Some?
    ensures |line| > |Words(l).0| + 1
    ensures LowerChar(line[0]) == Words(l).0[0]
    ensures LowerChar(line[|Words(l).0| + 1]) == Words(l).1[0]
  {
    var w1 := Words(l).0;
    var s1 := WordSpace(line, w1).value;
    assert s1 == line[|w1| + 1..];
    assert WordSpace(s1, Words(l).1).Some?;
  }

  /** A line carries at most one label: the scanner's seven tests never
      compete for the same line. */
  lemma LabelsExclusive(line: string, l1: Label, l2: Label)
    requires MatchLabel(line, l1).Some? && MatchLabel(line, l2).Some?
    ensures l1 == l2
  {
    LabelHead(line, l1);
    LabelHead(line, l2);
  }

  /** A label recogniser: the captured value of a label on a line, if the
      line carries it. The scan below does not depend on how labels are
      recognised, so it is stated for any of them. */
  type Matcher = (string, Label) -> Option<string>

  /** One label test: `if (matches.Count > 0) clientInfo.X = ...`. */
  function Update(info: ClientInfo, line: string, l: Label, m: Matcher): ClientInfo {
    match m(line, l)
    case Some(v) => WithField(info, l, v)
    case None => info
  }

  /** One iteration of the `foreach`: empty lines are skipped, every other
      line is tried against the seven labels in turn. */
  function ScanLine(info: ClientInfo, line: string, m: Matcher): ClientInfo {
    if line == "" then info
    else
      var i1 := Update(info, line, UserName, m);
      var i2 := Update(i1, line, ClientName, m);
      var i3 := Update(i2, line, ClientHost, m);
      var i4 := Update(i3, line, ClientRoot, m);
      var i5 := Update(i4, line, ClientStream, m);
      var i6 := Update(i5, line, ClientAddress, m);
      Update(i6, line, ServerAddress, m)
  }

  /** The record after the whole output, starting from the all-empty one. */
  function InfoOf(lines: seq<string>, m: Matcher): ClientInfo
    decreases |lines|
  {
    if lines == [] then EmptyClientInfo
    else ScanLine(InfoOf(lines[..|lines| - 1], m), lines[|lines| - 1], m)
  }

  /** The lines carrying label `l`. */
  function Carries(l: Label, m: Matcher): string -> bool {
    line => line != "" && m(line, l).Some?
  }

  /** Reference definition of a property: the value on the LAST line carrying
      its label, or "" when no line does. */
  function LastValue(lines: seq<string>, l: Label, m: Matcher): string {
    var ps := Positions(lines, Carries(l, m));
    if ps == [] then "" else m(lines[ps[|ps| - 1]], l).value
  }

  /** A line changes only the property whose label it carries, and sets it
      to its value; an empty line changes nothing. */
  lemma ScanLineField(info: ClientInfo, line: string, l: Label, m: Matcher)
    ensures Field(ScanLine(info, line, m), l)
         == if Carries(l, m)(line) then m(line, l).value else Field(info, l)
  {
    if line != "" {
      var i1 := Update(info, line, UserName, m);
      var i2 := Update(i1, line, ClientName, m);
      var i3 := Update(i2, line, ClientHost, m);
      var i4 := Update(i3, line, ClientRoot, m);
      var i5 := Update(i4, line, ClientStream, m);
      var i6 := Update(i5, line, ClientAddress, m);
      assert ScanLine(info, line, m) == Update(i6, line, ServerAddress, m);
      UpdateField(info, line, UserName, l, m);
      UpdateField(i1, line, ClientName, l, m);
      UpdateField(i2, line, ClientHost, l, m);
      UpdateField(i3, line, ClientRoot, l, m);
      UpdateField(i4, line, ClientStream, l, m);
      UpdateField(i5, line, ClientAddress, l, m);
      UpdateField(i6, line, ServerAddress, l, m);
    }
  }

  /** One label test changes only its own property. */
  lemma UpdateField(info: ClientInfo, line: string, tested: Label, l: Label, m: Matcher)
    ensures Field(Update(info, line, tested, m), l)
         == if tested == l && m(line, l).Some? then m(line, l).value else Field(info, l)
  {
  }

  /** The last carrying line of a longer output is its final line, when
      that line carries the label, and otherwise that of the shorter one. */
  lemma LastValueSnoc(lines: seq<string>, l: Label, m: Matcher)
    requires lines != []
    ensures var n := |lines| - 1;
      LastValue(lines, l, m)
        == if Carries(l, m)(lines[n]) then m(lines[n], l).value else LastValue(lines[..n], l, m)
  {
    var n := |lines| - 1;
    var carries := Carries(l, m);
    PositionsSnoc(lines, carries);
    if !carries(lines[n]) {
      var ps0 := Positions(lines[..n], carries);
      if ps0 != [] {
        assert lines[..n][ps0[|ps0| - 1]] == lines[ps0[|ps0| - 1]];
      }
    }
  }

  /** Each property of the result is the value of the last line carrying its
      label, so a later line overwrites an earlier one, and a property whose
      label never occurs keeps its initial "". */
  lemma {:induction false} InfoFieldIsLast(lines: seq<string>, l: Label, m: Matcher)
    ensures Field(InfoOf(lines, m), l) == LastValue(lines, l, m)
    decreases |lines|
  {
    if lines != [] {
      var n := |lines| - 1;
      var init := lines[..n];
      InfoFieldIsLast(init, l, m);
      assert InfoOf(lines, m) == ScanLine(InfoOf(init, m), lines[n], m);
      ScanLineField(InfoOf(init, m), lines[n], l, m);
      LastValueSnoc(lines, l, m);
    }
  }

  /** One of the seven blocks of the loop body: the label's pattern is tried
      on the line and, when it matches, its group 1 is assigned to the
      label's property. */
  method TestLabel(info: ClientInfo, line: string, l: Label) returns (r: ClientInfo)
    ensures MatchLabel(line, l).Some? ==> Field(r, l) == MatchLabel(line, l).value
    ensures forall l' :: l' != l || MatchLabel(line, l).None? ==> Field(r, l') == Field(info, l')
    ensures r == Update(info, line, l, MatchLabel)
  {
    r := info;
    var matches := MatchLabel(line, l);
    if matches.Some? {
      r := WithField(info, l, matches.value);
    }
  }

  /** `StructuredOutput.Info`: the cached record when the session has one;
      otherwise the scanned record, which also becomes the cached one. */
  method Info(cached: Option<ClientInfo>, output: seq<string>) returns (info: ClientInfo, cache: Option<ClientInfo>)
    ensures cached.Some? ==> info == cached.value && cache == cached
    ensures cached.None? ==> cache == Some(info) && forall l :: Field(info, l) == LastValue(output, l, MatchLabel)
  {
    if cached.Some? {
      return cached.value, cached;
    }
    var clientInfo := EmptyClientInfo;
    for i := 0 to |output|
      invariant clientInfo == InfoOf(output[..i], MatchLabel)
    {
      var line := output[i];
      assert output[..i + 1][..i] == output[..i];
      if line == "" {
        continue;
      }
      clientInfo := TestLabel(clientInfo, line, UserName);
      clientInfo := TestLabel(clientInfo, line, ClientName);
      clientInfo := TestLabel(clientInfo, line, ClientHost);
      clientInfo := TestLabel(clientInfo, line, ClientRoot);
      clientInfo := TestLabel(clientInfo, line, ClientStream);
      clientInfo := TestLabel(clientInfo, line, ClientAddress);
      clientInfo := TestLabel(clientInfo, line, ServerAddress);
    }
    assert output[..|output|] == output;
    forall l ensures Field(clientInfo, l) == LastValue(output, l, MatchLabel) {
      InfoFieldIsLast(output, l, MatchLabel);
    }
    info, cache := clientInfo, Some(clientInfo);
  }
}
