/** Positions of the elements a predicate selects, and the `Select`/`Where`
    pipeline of the per-line parsers: the reference against which those
    parsers are shown to keep matching lines, in input order. */
module Sequences {
  import opened Wrappers

  function Positions<T>(s: seq<T>, f: T -> bool): (ps: seq<nat>)
    ensures forall k :: 0 <= k < |ps| ==> ps[k] < |s| && f(s[ps[k]])
    ensures forall k, l :: 0 <= k < l < |ps| ==> ps[k] < ps[l]
    ensures forall i :: 0 <= i < |s| && f(s[i]) ==> i in ps
    decreases |s|
  {
    if s == [] then []
    else
      var ps := Positions(s[..|s| - 1], f);
      assert forall k :: 0 <= k < |ps| ==> s[..|s| - 1][ps[k]] == s[ps[k]];
      ps + (if f(s[|s| - 1]) then [|s| - 1] else [])
  }

  /** A final element adds its own position at the end when it is selected,
      and nothing otherwise. */
  lemma PositionsSnoc<T>(s: seq<T>, f: T -> bool)
    requires s != []
    ensures var n := |s| - 1;
      && (f(s[n]) ==> Positions(s, f) != [] && Positions(s, f)[|Positions(s, f)| - 1] == n)
      && (!f(s[n]) ==> Positions(s, f) == Positions(s[..n], f))
  {
  }

  /** The elements a matcher accepts. */
  function Matched<T, M>(m: T -> Option<M>): T -> bool {
    x => m(x).Some?
  }

  /** `conv` can build a result from every match `m` finds in `s`. */
  ghost predicate Convertible<T, M, U>(s: seq<T>, m: T -> Option<M>, conv: M --> U) {
    forall i :: 0 <= i < |s| && m(s[i]).Some? ==> conv.requires(m(s[i]).value)
  }

  /** `s.Select(m).Where(found).Select(conv)`: one result per element the
      matcher accepts, built from what it matched. */
  function FilterMap<T, M, U>(s: seq<T>, m: T -> Option<M>, conv: M --> U): seq<U>
    requires Convertible(s, m, conv)
    decreases |s|
  {
    if s == [] then []
    else
      var x := s[|s| - 1];
      assert Convertible(s[..|s| - 1], m, conv) by {
        assert forall i :: 0 <= i < |s| - 1 ==> s[..|s| - 1][i] == s[i];
      }
      FilterMap(s[..|s| - 1], m, conv) + (if m(x).Some? then [conv(m(x).value)] else [])
  }

  /** The pipeline keeps exactly the accepted elements, in input order: its
      `k`-th result is built from the `k`-th accepted element. */
  lemma {:induction false} FilterMapInOrder<T, M, U>(s: seq<T>, m: T -> Option<M>, conv: M --> U)
    requires Convertible(s, m, conv)
    ensures var r := FilterMap(s, m, conv); var ps := Positions(s, Matched(m));
      && |r| == |ps|
      && forall k :: 0 <= k < |ps| ==> m(s[ps[k]]).Some? && r[k] == conv(m(s[ps[k]]).value)
    decreases |s|
  {
    if s != [] {
      var n := |s| - 1;
      var init := s[..n];
      assert forall i :: 0 <= i < n ==> init[i] == s[i];
      FilterMapInOrder(init, m, conv);
      var r0 := FilterMap(init, m, conv);
      var ps0 := Positions(init, Matched(m));
      var ps := Positions(s, Matched(m));
      assert ps == ps0 + (if m(s[n]).Some? then [n] else []);
      assert FilterMap(s, m, conv) == r0 + (if m(s[n]).Some? then [conv(m(s[n]).value)] else []);
      forall k | 0 <= k < |ps0|
        ensures m(s[ps[k]]).Some? && FilterMap(s, m, conv)[k] == conv(m(s[ps[k]]).value)
      {
        assert ps[k] == ps0[k] && init[ps0[k]] == s[ps0[k]];
      }
    }
  }
}
