/**
 * The locator for a fenced JSON array: the first match of the pattern
 * three backticks, an optional `json` tag, optional whitespace, a
 * bracketed group taken as short as possible, optional whitespace and
 * three closing backticks, with `.` matching newlines.  The regular
 * expression engine is not modelled; this is the behaviour of that one
 * pattern, written out: the leftmost opening fence wins, a `json` tag is
 * always consumed when present, and the group ends at the first `]` that
 * is followed (after whitespace) by a closing fence.
 */
module Fence {
  import opened Wrappers
  import opened Text

  /** Three backticks start at position `i`. */
  predicate TickAt(t: string, i: nat) {
    i + 3 <= |t| && t[i] == '`' && t[i + 1] == '`' && t[i + 2] == '`'
  }

  /** The tag `json` starts at position `i`. */
  predicate JsonTagAt(t: string, i: nat) {
    i + 4 <= |t| && t[i] == 'j' && t[i + 1] == 's' && t[i + 2] == 'o' && t[i + 3] == 'n'
  }

  /** The end of the whitespace run starting at `i`. */
  function SkipWs(t: string, i: nat): (r: nat)
    requires i <= |t|
    ensures i <= r <= |t|
    ensures forall m :: i <= m < r ==> IsSpace(t[m])
    ensures r < |t| ==> !IsSpace(t[r])
    decreases |t| - i
  {
    if i < |t| && IsSpace(t[i]) then SkipWs(t, i + 1) else i
  }

  /** Where the group may start after an opening fence at `i`: past the optional tag and whitespace. */
  function GroupStart(t: string, i: nat): (k: nat)
    requires TickAt(t, i)
    ensures i + 3 <= k <= |t|
  {
    var p := if JsonTagAt(t, i + 3) then i + 7 else i + 3;
    SkipWs(t, p)
  }

  /** The first `j >= from` holding `]` with a closing fence after whitespace. */
  function CloseFrom(t: string, from: nat): (r: Option<nat>)
    requires from <= |t|
    ensures r.Some? ==> from <= r.value < |t| && t[r.value] == ']'
    decreases |t| - from
  {
    if from == |t| then None
    else if t[from] == ']' && TickAt(t, SkipWs(t, from + 1)) then Some(from)
    else CloseFrom(t, from + 1)
  }

  /** The `]` found is followed, after whitespace, by a closing fence. */
  lemma {:induction false} CloseFromCloses(t: string, from: nat)
    requires from <= |t| && CloseFrom(t, from).Some?
    ensures TickAt(t, SkipWs(t, CloseFrom(t, from).value + 1))
    decreases |t| - from
  {
    if !(t[from] == ']' && TickAt(t, SkipWs(t, from + 1))) {
      CloseFromCloses(t, from + 1);
    }
  }

  /** No `]` before the one found (or none at all, when nothing is found) is followed by a closing fence. */
  lemma {:induction false} CloseFromFirst(t: string, from: nat, j: nat)
    requires from <= j < |t| && t[j] == ']' && TickAt(t, SkipWs(t, j + 1))
    ensures CloseFrom(t, from).Some? && CloseFrom(t, from).value <= j
    decreases j - from
  {
    if from < j && !(t[from] == ']' && TickAt(t, SkipWs(t, from + 1))) {
      CloseFromFirst(t, from + 1, j);
    }
  }

  /** The group of a match whose opening fence is at `i`, if there is one. */
  function MatchAt(t: string, i: nat): (r: Option<string>)
    requires i <= |t|
    ensures r.Some? ==> |r.value| >= 2 && r.value[0] == '[' && r.value[|r.value| - 1] == ']'
  {
    if !TickAt(t, i) then None
    else
      var k := GroupStart(t, i);
      if k < |t| && t[k] == '[' then
        match CloseFrom(t, k + 1)
        case Some(j) => Some(t[k..j + 1])
        case None => None
      else None
  }

  /** The leftmost match at or after `i`. */
  function SearchFrom(t: string, i: nat): (r: Option<string>)
    requires i <= |t|
    ensures r.Some? ==> |r.value| >= 2 && r.value[0] == '[' && r.value[|r.value| - 1] == ']'
    decreases |t| - i
  {
    if i == |t| then None
    else if MatchAt(t, i).Some? then MatchAt(t, i)
    else SearchFrom(t, i + 1)
  }

  /** The bracketed group of the first fenced array in `t`, or None when the pattern does not match. */
  function FencedArray(t: string): (r: Option<string>)
    ensures r.Some? ==> |r.value| >= 2 && r.value[0] == '[' && r.value[|r.value| - 1] == ']'
  {
    SearchFrom(t, 0)
  }

  lemma NotTickAt(t: string, i: nat)
    requires i < |t| && t[i] != '`'
    ensures !TickAt(t, i)
  {
  }

  /** Text with no backtick has no fenced array. */
  lemma {:induction false} NoTickNoMatch(t: string, i: nat)
    requires i <= |t| && '`' !in t
    ensures SearchFrom(t, i) == None
    decreases |t| - i
  {
    if i < |t| {
      NotTickAt(t, i);
      NoTickNoMatch(t, i + 1);
    }
  }

  /** Positions before `a` that hold no backtick cannot start a match. */
  lemma {:induction false} SearchSkips(t: string, i: nat, a: nat)
    requires i <= a <= |t|
    requires forall m :: i <= m < a ==> t[m] != '`'
    ensures SearchFrom(t, i) == SearchFrom(t, a)
    decreases a - i
  {
    if i < a {
      NotTickAt(t, i);
      SearchSkips(t, i + 1, a);
    }
  }

  /** A whitespace run cannot pass a character that is not whitespace. */
  lemma {:induction false} SkipWsStops(t: string, i: nat, last: nat)
    requires i <= last < |t| && !IsSpace(t[last])
    ensures SkipWs(t, i) <= last
    decreases last - i
  {
    if IsSpace(t[i]) {
      SkipWsStops(t, i + 1, last);
    }
  }

  /** Inside a group that ends in `]` and holds no backtick, no `]` before the last is a closing one. */
  lemma {:induction false} CloseSkips(t: string, from: nat, last: nat)
    requires from <= last < |t| && t[last] == ']'
    requires forall m :: from <= m <= last ==> t[m] != '`'
    ensures CloseFrom(t, from) == CloseFrom(t, last)
    decreases last - from
  {
    if from < last {
      CloseStep(t, from, last);
      CloseSkips(t, from + 1, last);
    }
  }

  lemma CloseStep(t: string, from: nat, last: nat)
    requires from < last < |t| && t[last] == ']'
    requires forall m :: from <= m <= last ==> t[m] != '`'
    ensures CloseFrom(t, from) == CloseFrom(t, from + 1)
  {
    var r := SkipWs(t, from + 1);
    SkipWsStops(t, from + 1, last);
    assert t[r] != '`';
    NotTickAt(t, r);
  }

  /** A `json`-tagged fence at `a` around a backtick-free array `g` matches with group `g`. */
  lemma MatchAtFence(t: string, a: nat, g: string)
    requires |g| >= 2 && g[0] == '[' && g[|g| - 1] == ']' && '`' !in g
    requires a + 12 + |g| <= |t|
    requires TickAt(t, a) && JsonTagAt(t, a + 3) && t[a + 7] == '\n'
    requires t[a + 8..a + 8 + |g|] == g
    requires t[a + 8 + |g|] == '\n' && TickAt(t, a + 9 + |g|)
    ensures MatchAt(t, a) == Some(g)
  {
    var k := a + 8;
    assert t[k] == g[0];
    assert SkipWs(t, a + 7) == k;
    var last := k + |g| - 1;
    assert t[last] == g[|g| - 1];
    forall m | k + 1 <= m <= last ensures t[m] != '`' {
      assert t[m] == g[m - k];
    }
    assert t[last + 2] == '`';
    assert SkipWs(t, last + 1) == last + 2;
    assert TickAt(t, last + 2);
    CloseSkips(t, k + 1, last);
    assert CloseFrom(t, k + 1) == Some(last);
    assert GroupStart(t, a) == k;
  }

  /** A `json`-tagged opening fence and its line break. */
  const OpenFence: string := "```json\n"

  /** A line break and a closing fence. */
  const CloseFence: string := "\n```"

  /** An answer of backtick-free prose, then a `json`-tagged fence around an array with no backtick inside, yields that array. */
  lemma FencedArrayOf(prose: string, g: string, rest: string)
    requires '`' !in prose && '`' !in g
    requires |g| >= 2 && g[0] == '[' && g[|g| - 1] == ']'
    ensures FencedArray(prose + OpenFence + g + CloseFence + rest) == Some(g)
  {
    var t := prose + OpenFence + g + CloseFence + rest;
    var a := |prose|;
    FenceLayout(prose, g, rest);
    forall m | 0 <= m < a ensures t[m] != '`' {
      assert t[m] == prose[m];
    }
    SearchSkips(t, 0, a);
    OpenFenceAt(t, a);
    CloseFenceAt(t, a + 8 + |g|);
    MatchAtFence(t, a, g);
  }

  lemma FenceLayout(prose: string, g: string, rest: string)
    ensures var t := prose + OpenFence + g + CloseFence + rest;
      var a := |prose|;
      |t| == a + 12 + |g| + |rest| &&
      (forall m :: 0 <= m < a ==> t[m] == prose[m]) &&
      t[a..a + 8] == OpenFence && t[a + 8..a + 8 + |g|] == g && t[a + 8 + |g|..a + 12 + |g|] == CloseFence
  {
    var t := prose + OpenFence + g + CloseFence + rest;
    var a := |prose|;
    assert t == prose + (OpenFence + (g + (CloseFence + rest)));
    assert t[a..a + 8] == OpenFence;
    assert t[a + 8..a + 8 + |g|] == g;
    assert t[a + 8 + |g|..a + 12 + |g|] == CloseFence;
  }

  lemma OpenFenceAt(t: string, a: nat)
    requires a + 8 <= |t| && t[a..a + 8] == OpenFence
    ensures TickAt(t, a) && JsonTagAt(t, a + 3) && t[a + 7] == '\n'
  {
    forall m | 0 <= m < 8 ensures t[a + m] == OpenFence[m] {
      assert t[a + m] == t[a..a + 8][m];
    }
  }

  lemma CloseFenceAt(t: string, b: nat)
    requires b + 4 <= |t| && t[b..b + 4] == CloseFence
    ensures t[b] == '\n' && TickAt(t, b + 1)
  {
    forall m | 0 <= m < 4 ensures t[b + m] == CloseFence[m] {
      assert t[b + m] == t[b..b + 4][m];
    }
  }
}
