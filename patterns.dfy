/** Hand-written recognisers for the regular expressions of `StructuredOutput`
    (src/Commands.cs). Every group in these patterns is followed by a character
    its class excludes, so the .NET engine's greedy, backtracking match always
    takes the longest run; the recognisers below take it directly. The two
    places where backtracking does change the outcome (`\s*(default)?\s` in the
    `opened` pattern and the leading `.*#` of the `filelog` pattern) are
    written out where they occur. */
module Patterns {
  import opened Wrappers
  import opened Text

  /** The character classes the patterns use. */
  datatype CharClass =
    | Digit         // \d
    | Word          // \w
    | Space         // \s
    | Login         // [0-9a-zA-Z-\._]
    | ChangeClient  // [(0-9a-zA-Z-\._]
    | DepotPath     // [0-9a-zA-Z\/\-_\.]
    | InfoName      // [0-9a-zA-Z_\-\.@]
    | InfoRoot      // [0-9a-zA-Z_\-\.@\\\:]
    | InfoStream    // [0-9a-zA-Z_\-\.\/]
    | AnyChar       // .

  predicate InClass(c: char, k: CharClass) {
    match k
    case Digit => IsDigit(c)
    case Word => IsWordChar(c)
    case Space => IsSpace(c)
    case Login => IsAlphaNumeric(c) || c == '-' || c == '.' || c == '_'
    case ChangeClient => IsAlphaNumeric(c) || c == '-' || c == '.' || c == '_' || c == '('
    case DepotPath => IsAlphaNumeric(c) || c == '/' || c == '-' || c == '_' || c == '.'
    case InfoName => IsAlphaNumeric(c) || c == '_' || c == '-' || c == '.' || c == '@'
    case InfoRoot => IsAlphaNumeric(c) || c == '_' || c == '-' || c == '.' || c == '@' || c == '\\' || c == ':'
    case InfoStream => IsAlphaNumeric(c) || c == '_' || c == '-' || c == '.' || c == '/'
    case AnyChar => true
  }

  predicate AllIn(s: string, k: CharClass) {
    forall i :: 0 <= i < |s| ==> InClass(s[i], k)
  }

  /** A non-empty run of class `k`, as `[...]+` captures it. */
  predicate IsRun(s: string, k: CharClass) {
    |s| > 0 && AllIn(s, k)
  }

  /** `s` does not continue a run of class `k`. */
  predicate StopsRun(s: string, k: CharClass) {
    s == [] || !InClass(s[0], k)
  }

  /** Length of the longest prefix of `s` drawn from class `k` (greedy `*`). */
  function Span(s: string, k: CharClass): (n: nat)
    ensures n <= |s|
    decreases |s|
  {
    if s == [] || !InClass(s[0], k) then 0 else 1 + Span(s[1..], k)
  }

  /** `Span` takes the longest run: every character it takes is in the
      class and the one after it is not. */
  lemma {:induction false} SpanIsLongest(s: string, k: CharClass)
    ensures AllIn(s[..Span(s, k)], k) && StopsRun(s[Span(s, k)..], k)
    decreases |s|
  {
    if s != [] && InClass(s[0], k) {
      var n := Span(s, k);
      SpanIsLongest(s[1..], k);
      assert s[..n] == [s[0]] + s[1..][..n - 1];
      assert s[n..] == s[1..][n - 1..];
    }
  }

  lemma {:induction false} SpanOfRun(a: string, b: string, k: CharClass)
    requires AllIn(a, k) && StopsRun(b, k)
    ensures Span(a + b, k) == |a|
    decreases |a|
  {
    if a != [] {
      assert (a + b)[1..] == a[1..] + b;
      SpanOfRun(a[1..], b, k);
    }
  }

  /** A piece of text consumed by a pattern element and what follows it. */
  datatype Cut = Cut(taken: string, rest: string)

  /** `[...]*`: the longest run of class `k` at the front of `s`, and what follows it. */
  function Run0(s: string, k: CharClass): (c: Cut)
    ensures c.taken + c.rest == s && AllIn(c.taken, k) && StopsRun(c.rest, k)
  {
    SpanIsLongest(s, k);
    var n := Span(s, k);
    assert s[..n] + s[n..] == s;
    Cut(s[..n], s[n..])
  }

  /** `[...]+` */
  function Run1(s: string, k: CharClass): (r: Option<Cut>)
    ensures r.Some? <==> s != [] && InClass(s[0], k)
    ensures r.Some? ==> r.value.taken + r.value.rest == s && IsRun(r.value.taken, k) && StopsRun(r.value.rest, k)
  {
    if Span(s, k) == 0 then None else Some(Run0(s, k))
  }

  /** `\s` */
  function Space1(s: string): (r: Option<string>)
    ensures r.Some? <==> |s| > 0 && IsSpace(s[0])
    ensures r.Some? ==> [s[0]] + r.value == s
  {
    if |s| > 0 && IsSpace(s[0]) then Some(s[1..]) else None
  }

  /** A literal under `RegexOptions.IgnoreCase`; `taken` keeps the input's spelling. */
  function Lit(s: string, lit: string): (r: Option<Cut>)
    ensures r.Some? <==> StartsWithIgnoreCase(s, lit)
    ensures r.Some? ==> r.value.taken + r.value.rest == s && |r.value.taken| == |lit|
  {
    if StartsWithIgnoreCase(s, lit) then
      assert s[..|lit|] + s[|lit|..] == s;
      Some(Cut(s[..|lit|], s[|lit|..]))
    else None
  }

  lemma Run1OfRun(a: string, b: string, k: CharClass)
    requires IsRun(a, k) && StopsRun(b, k)
    ensures Run1(a + b, k) == Some(Cut(a, b))
  {
    SpanOfRun(a, b, k);
    assert (a + b)[..|a|] == a;
    assert (a + b)[|a|..] == b;
  }

  lemma Run0OfRun(a: string, b: string, k: CharClass)
    requires AllIn(a, k) && StopsRun(b, k)
    ensures Run0(a + b, k) == Cut(a, b)
  {
    SpanOfRun(a, b, k);
    assert (a + b)[..|a|] == a;
    assert (a + b)[|a|..] == b;
  }

  lemma LitOfItself(lit: string, b: string)
    requires IsLowerLiteral(lit)
    ensures Lit(lit + b, lit) == Some(Cut(lit, b))
  {
    LowerLiteralMatchesItself(lit, b);
    assert (lit + b)[..|lit|] == lit;
    assert (lit + b)[|lit|..] == b;
  }

  /** A literal is matched by any spelling of it that lower-cases to it. */
  lemma LitOfSpelling(w: string, lit: string, b: string)
    requires Lower(w) == lit
    ensures Lit(w + b, lit) == Some(Cut(w, b))
  {
    forall i | 0 <= i < |lit| ensures LowerChar((w + b)[i]) == lit[i] {
      assert (w + b)[i] == w[i];
    }
    assert (w + b)[..|lit|] == w;
    assert (w + b)[|lit|..] == b;
  }

  lemma Space1OfSpace(b: string)
    ensures Space1(" " + b) == Some(b)
  {
    assert (" " + b)[1..] == b;
  }

  /** `\sword\s`, a keyword between two single white-space characters. */
  function Keyword(s: string, word: string): (r: Option<string>)
    ensures r.Some? ==> |r.value| + |word| + 2 == |s|
  {
    var s1 :- Space1(s);
    var w :- Lit(s1, word);
    Space1(w.rest)
  }

  lemma KeywordOfText(word: string, b: string)
    requires IsLowerLiteral(word)
    ensures Keyword(" " + word + " " + b, word) == Some(b)
  {
    assert " " + word + " " + b == " " + (word + (" " + b));
    Space1OfSpace(word + (" " + b));
    LitOfItself(word, " " + b);
    Space1OfSpace(b);
  }

  /** `user@client`: `([0-9a-zA-Z-\._]+)@(...+)`, the client class given. */
  function MatchLogin(s: string, clientClass: CharClass): (r: Option<(string, string, string)>)
    ensures r.Some? ==> IsRun(r.value.0, Login) && IsRun(r.value.1, clientClass) && StopsRun(r.value.2, clientClass)
  {
    var user :- Run1(s, Login);
    var at :- Lit(user.rest, "@");
    var client :- Run1(at.rest, clientClass);
    Some((user.taken, client.taken, client.rest))
  }

  lemma MatchLoginOfText(user: string, client: string, clientClass: CharClass, rest: string)
    requires IsRun(user, Login) && IsRun(client, clientClass) && StopsRun(rest, clientClass)
    ensures MatchLogin(user + "@" + client + rest, clientClass) == Some((user, client, rest))
  {
    assert user + "@" + client + rest == user + ("@" + (client + rest));
    Run1OfRun(user, "@" + (client + rest), Login);
    LitOfItself("@", client + rest);
    Run1OfRun(client, rest, clientClass);
  }

  // ---------------------------------------------------------------------
  // The date group `(\d+\/\d+\/\d+)` shared by the `changes` and `filelog`
  // patterns.

  datatype DateStamp = DateStamp(year: string, month: string, day: string) {
    /** The captured group text handed to `DateTime.TryParse`. */
    function Text(): string {
      year + "/" + month + "/" + day
    }

    predicate WellFormed() {
      IsRun(year, Digit) && IsRun(month, Digit) && IsRun(day, Digit)
    }
  }

  /** `\/\d+`, the separator and digits of a month or a day. */
  function SlashNumber(s: string): (r: Option<Cut>)
    ensures r.Some? ==> IsRun(r.value.taken, Digit) && StopsRun(r.value.rest, Digit)
  {
    var slash :- Lit(s, "/");
    Run1(slash.rest, Digit)
  }

  lemma SlashNumberOfText(digits: string, rest: string)
    requires IsRun(digits, Digit) && StopsRun(rest, Digit)
    ensures SlashNumber("/" + digits + rest) == Some(Cut(digits, rest))
  {
    assert "/" + digits + rest == "/" + (digits + rest);
    LitOfItself("/", digits + rest);
    Run1OfRun(digits, rest, Digit);
  }

  function MatchDate(s: string): (r: Option<(DateStamp, string)>)
    ensures r.Some? ==> r.value.0.WellFormed() && StopsRun(r.value.1, Digit)
  {
    var y :- Run1(s, Digit);
    var m :- SlashNumber(y.rest);
    var d :- SlashNumber(m.rest);
    Some((DateStamp(y.taken, m.taken, d.taken), d.rest))
  }

  lemma MatchDateOfText(d: DateStamp, rest: string)
    requires d.WellFormed() && StopsRun(rest, Digit)
    ensures MatchDate(d.Text() + rest) == Some((d, rest))
  {
    var tMonth := "/" + d.month + ("/" + d.day + rest);
    assert d.Text() + rest == d.year + tMonth;
    Run1OfRun(d.year, tMonth, Digit);
    SlashNumberOfText(d.month, "/" + d.day + rest);
    SlashNumberOfText(d.day, rest);
  }

  /** `\sby\s` followed by `user@client`. */
  function ByLogin(s: string, clientClass: CharClass): (r: Option<(string, string, string)>)
    ensures r.Some? ==> IsRun(r.value.0, Login) && IsRun(r.value.1, clientClass) && StopsRun(r.value.2, clientClass)
  {
    var s1 :- Keyword(s, "by");
    MatchLogin(s1, clientClass)
  }

  lemma ByLoginOfText(user: string, client: string, clientClass: CharClass, rest: string)
    requires IsRun(user, Login) && IsRun(client, clientClass) && StopsRun(rest, clientClass)
    ensures ByLogin(" by " + user + "@" + client + rest, clientClass) == Some((user, client, rest))
  {
    var t := user + "@" + client + rest;
    assert " by " + user + "@" + client + rest == " " + "by" + " " + t;
    KeywordOfText("by", t);
    MatchLoginOfText(user, client, clientClass, rest);
  }

  /** What follows a number in the `changes` and `filelog` patterns:
      `\son\s(\d+\/\d+\/\d+)\sby\s(user)@(client)`. */
  datatype Stamp = Stamp(date: DateStamp, user: string, client: string, rest: string)

  function MatchStamp(s: string, clientClass: CharClass): (r: Option<Stamp>)
    ensures r.Some? ==> var st := r.value;
      st.date.WellFormed() && IsRun(st.user, Login) && IsRun(st.client, clientClass) && StopsRun(st.rest, clientClass)
  {
    var s1 :- Keyword(s, "on");
    var date :- MatchDate(s1);
    var login :- ByLogin(date.1, clientClass);
    Some(Stamp(date.0, login.0, login.1, login.2))
  }

  /** The text `MatchStamp` reads, as `p4` prints it. */
  function StampText(date: DateStamp, user: string, client: string): string {
    " on " + date.Text() + " by " + user + "@" + client
  }

  lemma MatchStampOfText(date: DateStamp, user: string, client: string, clientClass: CharClass, rest: string)
    requires date.WellFormed() && IsRun(user, Login) && IsRun(client, clientClass) && StopsRun(rest, clientClass)
    ensures MatchStamp(StampText(date, user, client) + rest, clientClass) == Some(Stamp(date, user, client, rest))
  {
    var tLogin := " by " + user + "@" + client + rest;
    var tDate := date.Text() + tLogin;
    assert StampText(date, user, client) + rest == " " + "on" + " " + tDate;
    KeywordOfText("on", tDate);
    MatchDateOfText(date, tLogin);
    ByLoginOfText(user, client, clientClass, rest);
  }
}
