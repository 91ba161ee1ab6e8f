/** The most-recent-first list of roll results the widget keeps, and how it
    evolves over a run of completed rolls. */
module History {

  /** The longest history a roll leaves behind when it started from a valid one. */
  const MaxHistory := 5

  /** A face of the six-sided die. */
  predicate IsFace(x: int) { 1 <= x <= 6 }

  /** The invariant the widget keeps for its history: at most five entries,
      each a die face. A history read back from storage is not checked
      against it. */
  predicate ValidHistory(h: seq<int>) {
    |h| <= MaxHistory && forall i :: 0 <= i < |h| ==> IsFace(h[i])
  }

  function Min(a: int, b: int): int { if a <= b then a else b }

  /** The first `n` elements of `s`, or all of them when there are fewer. */
  function Take(s: seq<int>, n: nat): seq<int> { s[..Min(n, |s|)] }

  /** `s` read from its last element back to its first. */
  function Reversed(s: seq<int>): (r: seq<int>)
    ensures |r| == |s|
  {
    if s == [] then [] else [s[|s| - 1]] + Reversed(s[..|s| - 1])
  }

  /** One completed roll with result `r`: `r` is put in front (`unshift`), and
      when the list has grown past five entries its last one is dropped (`pop`). */
  function Push(h: seq<int>, r: int): (h': seq<int>)
    ensures |h'| == if |h| < MaxHistory then |h| + 1 else |h|
    ensures h'[0] == r
    ensures h'[1..] == h[..|h'| - 1]
  {
    var grown := [r] + h;
    if |grown| > MaxHistory then grown[..|grown| - 1] else grown
  }

  /** A roll from a valid history with a face as its result leaves a valid history. */
  lemma PushKeepsValid(h: seq<int>, r: int)
    requires ValidHistory(h) && IsFace(r)
    ensures ValidHistory(Push(h, r))
  {
  }

  /** The history after the rolls `rs` (oldest first) complete one after another. */
  function Replay(h: seq<int>, rs: seq<int>): seq<int> {
    if rs == [] then h else Push(Replay(h, rs[..|rs| - 1]), rs[|rs| - 1])
  }

  /** Starting from at most five entries, the history is always the five most
      recent results, newest first, older stored entries filling any room left. */
  lemma {:induction false} ReplayKeepsMostRecent(h: seq<int>, rs: seq<int>)
    requires |h| <= MaxHistory
    ensures Replay(h, rs) == Take(Reversed(rs) + h, MaxHistory)
  {
    if rs == [] {
      assert Reversed(rs) + h == h;
    } else {
      var earlier, x := rs[..|rs| - 1], rs[|rs| - 1];
      ReplayKeepsMostRecent(h, earlier);
      var u := Reversed(earlier) + h;
      assert Reversed(rs) + h == [x] + u;
      var t := Take(u, MaxHistory);
      var pushed := Push(t, x);
      if |u| >= MaxHistory {
        assert pushed == [x] + u[..MaxHistory - 1];
      } else {
        assert pushed == [x] + u;
      }
      assert pushed == Take([x] + u, MaxHistory);
    }
  }

  /** Over any run of die rolls a valid history stays valid: the bound and the
      range of every entry both hold after each roll. */
  lemma {:induction false} ReplayKeepsValid(h: seq<int>, rs: seq<int>)
    requires ValidHistory(h)
    requires forall i :: 0 <= i < |rs| ==> IsFace(rs[i])
    ensures ValidHistory(Replay(h, rs))
  {
    ReplayKeepsMostRecent(h, rs);
    var all := Reversed(rs) + h;
    forall i | 0 <= i < |all| ensures IsFace(all[i]) {
      if i < |rs| {
        ReversedAt(rs, i);
      }
    }
  }

  lemma {:induction false} ReversedAt(s: seq<int>, k: nat)
    requires k < |s|
    ensures Reversed(s)[k] == s[|s| - 1 - k]
  {
    if k > 0 {
      ReversedAt(s[..|s| - 1], k - 1);
    }
  }

  /** A history longer than five entries (possible only by loading one) never
      shrinks: each roll puts one entry in and drops one. */
  lemma {:induction false} OversizedHistoryKeepsLength(h: seq<int>, rs: seq<int>)
    requires |h| > MaxHistory
    ensures |Replay(h, rs)| == |h|
  {
    if rs != [] {
      OversizedHistoryKeepsLength(h, rs[..|rs| - 1]);
    }
  }
}
