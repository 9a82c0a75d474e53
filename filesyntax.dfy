/** `FileSyntaxHelper.FromDepotSyntaxTo` (src/Commands.cs): rewriting a depot
    path into the presentation the caller asked for. */
module FileSyntaxHelper {
  import opened Records

  /** `s.Replace(from, to)` for single characters: every `from` becomes `to`. */
  function Replace(s: string, from: char, to: char): (r: string)
    ensures |r| == |s|
    ensures forall i :: 0 <= i < |s| ==> r[i] == (if s[i] == from then to else s[i])
  {
    seq(|s|, i requires 0 <= i < |s| => if s[i] == from then to else s[i])
  }

  /** The characters `fileName.Remove(0, ClientStream.Length + 1)` drops: the
      stream prefix and the separator after it. `String.Remove` throws unless
      the path is at least that long. */
  predicate CanStrip(fileName: string, clientInfo: ClientInfo) {
    |clientInfo.clientStream| + 1 <= |fileName|
  }

  /** Whether `syntax` needs the stream prefix stripped. */
  predicate Strips(syntax: FileSyntax) {
    syntax == LocalRelative || syntax == Local
  }

  function FromDepotSyntaxTo(syntax: FileSyntax, fileName: string, clientInfo: ClientInfo, p: Platform): (r: string)
    requires Strips(syntax) ==> CanStrip(fileName, clientInfo)
    ensures syntax == Depot || syntax == Client ==> r == fileName
    ensures syntax == LocalRelative ==>
      var k := |clientInfo.clientStream| + 1;
      && |r| == |fileName| - k
      && (forall i :: 0 <= i < |r| ==> r[i] == if fileName[k + i] == '/' then '\\' else fileName[k + i])
      && '/' !in r
    ensures syntax == Local ==>
      r == p.getFullPath(clientInfo.clientRoot + "\\" + fileName[|clientInfo.clientStream| + 1..])
  {
    match syntax
    case LocalRelative => Replace(fileName[|clientInfo.clientStream| + 1..], '/', '\\')
    case Depot => fileName
    case Local => p.getFullPath(clientInfo.clientRoot + "\\" + fileName[|clientInfo.clientStream| + 1..])
    case Client => fileName
  }

  /** Round trip: a depot path `stream + sep + rel` whose relative part holds
      no `\` (the depot-path class of the `opened` pattern has none) is
      recovered from its `LocalRelative` form by putting the prefix back and
      turning `\` into `/` again. */
  lemma {:induction false} LocalRelativeRoundTrip(stream: string, sep: char, rel: string, clientInfo: ClientInfo, p: Platform)
    requires clientInfo.clientStream == stream
    requires '\\' !in rel
    ensures var fileName := stream + [sep] + rel;
      CanStrip(fileName, clientInfo) &&
      stream + [sep] + Replace(FromDepotSyntaxTo(LocalRelative, fileName, clientInfo, p), '\\', '/') == fileName
  {
    var fileName := stream + [sep] + rel;
    assert fileName[|stream| + 1..] == rel;
    var r := FromDepotSyntaxTo(LocalRelative, fileName, clientInfo, p);
    assert r == Replace(rel, '/', '\\');
    forall i | 0 <= i < |rel| ensures Replace(r, '\\', '/')[i] == rel[i] {
      assert rel[i] != '\\';
    }
    assert Replace(r, '\\', '/') == rel;
  }
}
