/** The argument list `List<string>` of a command, and the queries and
    updates the source makes on it: `Any(arg => arg.ToLower() == "-l" || ...)`,
    `List.Remove` and `List.Add`. */
module Arguments {
  import opened Text

  /** The "long output" test the `changes` and `filelog` parsers share:
      `arguments.Any(arg => arg.ToLower() == "-l" || arg.ToLower() == "-L")`. */
  predicate HasLongFlag(arguments: seq<string>) {
    exists i :: 0 <= i < |arguments| && (Lower(arguments[i]) == "-l" || Lower(arguments[i]) == "-L")
  }

  /** The flag is spelled `-l` or `-L` and nothing else; the second test of
      the source can never succeed, since `ToLower` leaves no upper-case letter. */
  lemma LongFlagSpelling(arguments: seq<string>)
    ensures HasLongFlag(arguments) <==> "-l" in arguments || "-L" in arguments
  {
    if HasLongFlag(arguments) {
      var i :| 0 <= i < |arguments| && (Lower(arguments[i]) == "-l" || Lower(arguments[i]) == "-L");
      var a := arguments[i];
      assert Lower(a)[1] == 'l' && Lower(a)[0] == '-';
      assert a == [a[0], a[1]];
    }
    if "-l" in arguments || "-L" in arguments {
      var i :| 0 <= i < |arguments| && (arguments[i] == "-l" || arguments[i] == "-L");
      assert Lower(arguments[i]) == "-l";
    }
  }

  /** Index of the first occurrence of `x`. */
  function IndexOf(s: seq<string>, x: string): (i: nat)
    requires x in s
    ensures i < |s| && s[i] == x && x !in s[..i]
  {
    if s[0] == x then 0
    else
      var i := 1 + IndexOf(s[1..], x);
      assert s[..i] == [s[0]] + s[1..][..i - 1];
      i
  }

  /** `r` is `s` with its first copy of `x` deleted and every other element
      kept in its original order; `s` itself when `x` does not occur. */
  predicate DropsFirst(s: seq<string>, x: string, r: seq<string>) {
    && (x !in s ==> r == s)
    && (x in s ==> exists i :: 0 <= i < |s| && s[i] == x && x !in s[..i] && r == s[..i] + s[i + 1..])
  }

  /** `List.Remove(x)`: drops the first element equal to `x`, if there is one. */
  function RemoveFirst(s: seq<string>, x: string): (r: seq<string>)
    ensures DropsFirst(s, x, r)
  {
    if x in s then
      var i := IndexOf(s, x);
      s[..i] + s[i + 1..]
    else s
  }

  /** Exactly one copy of `x` is lost when there is one, and nothing else. */
  lemma RemoveFirstCount(s: seq<string>, x: string)
    ensures x in s ==> |RemoveFirst(s, x)| == |s| - 1
    ensures multiset(RemoveFirst(s, x)) == multiset(s) - multiset{x}
  {
    if x in s {
      var i := IndexOf(s, x);
      assert s == s[..i] + [x] + s[i + 1..];
    }
  }

  /** A `List<string>` of arguments, updated in place by `Remove` and `Add`. */
  class ArgumentList {
    var items: seq<string>

    constructor (items: seq<string>)
      ensures this.items == items
    {
      this.items := items;
    }

    /** `List.Remove`: whether `x` was found, and the list without its first copy. */
    method Remove(x: string) returns (removed: bool)
      modifies this
      ensures removed == (x in old(items))
      ensures items == RemoveFirst(old(items), x)
    {
      removed := x in items;
      items := RemoveFirst(items, x);
    }

    /** `List.Add` */
    method Add(x: string)
      modifies this
      ensures items == old(items) + [x]
    {
      items := items + [x];
    }
  }
}
