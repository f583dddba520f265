/** Doubly linked rings kept in next/prev arrays, as bio.c keeps its list of buffers. */
module Ring {
  import opened Common

  function Succ(i: nat, k: nat): (j: nat)
    requires i < k
    ensures j < k
  {
    if i + 1 < k then i + 1 else 0
  }

  /** `c[i]` and its successor on the ring point at each other. */
  ghost predicate Tied(next: seq<nat>, prev: seq<nat>, c: seq<nat>, i: nat)
    requires i < |c|
  {
    && c[i] < |next| && c[Succ(i, |c|)] < |prev|
    && next[c[i]] == c[Succ(i, |c|)] && prev[c[Succ(i, |c|)]] == c[i]
  }

  /** The links thread exactly the nodes of `c`, in that order, both ways round. */
  ghost predicate Linked(next: seq<nat>, prev: seq<nat>, c: seq<nat>) {
    && |next| == |prev| && |c| > 0 && Distinct(c)
    && forall i :: 0 <= i < |c| ==> Tied(next, prev, c, i)
  }

  function Without(c: seq<nat>, i: nat): (r: seq<nat>)
    requires i < |c|
  {
    c[..i] + c[i+1..]
  }

  /** Bypassing a node leaves the ring of the others. */
  lemma Unlinked(next: seq<nat>, prev: seq<nat>, c: seq<nat>, i: nat)
    requires Linked(next, prev, c) && 0 < i < |c|
    ensures var b := c[i];
      && b < |next| && next[b] < |prev| && prev[b] < |next|
      && Linked(next[prev[b] := next[b]], prev[next[b] := prev[b]], Without(c, i))
  {
    var b, r := c[i], Without(c, i);
    assert Tied(next, prev, c, i - 1) && Tied(next, prev, c, i);
    var next', prev' := next[prev[b] := next[b]], prev[next[b] := prev[b]];
    forall k | 0 <= k < |r|
      ensures Tied(next', prev', r, k)
    {
      var o := if k < i then k else k + 1;
      assert r[k] == c[o] && Tied(next, prev, c, o);
    }
  }

  /** Tying a node in after the first gives the ring with that node second. */
  lemma Pushed(next: seq<nat>, prev: seq<nat>, c: seq<nat>, b: nat)
    requires Linked(next, prev, c) && b < |next| && b !in c
    ensures var h := c[0];
      && h < |next| && next[h] < |prev|
      && Linked(next[b := next[h]][h := b], prev[b := h][next[h] := b], [h, b] + c[1..])
  {
    var h, r := c[0], [c[0], b] + c[1..];
    assert Tied(next, prev, c, 0);
    var next', prev' := next[b := next[h]][h := b], prev[b := h][next[h] := b];
    forall k | 0 <= k < |r|
      ensures Tied(next', prev', r, k)
    {
      if k >= 1 {
        assert Tied(next, prev, c, k - 1);
      }
    }
  }

  /** The ring with entry `i` moved to just after the first. */
  function Front(c: seq<nat>, i: nat): (r: seq<nat>)
    requires 0 < i < |c|
  {
    [c[0], c[i]] + c[1..i] + c[i+1..]
  }

  /** Both steps together, in the order brelse makes them. */
  lemma MovedToFront(next: seq<nat>, prev: seq<nat>, c: seq<nat>, i: nat)
    requires Linked(next, prev, c) && 0 < i < |c|
    ensures var b, h := c[i], c[0];
      && b < |next| && h < |next| && next[b] < |prev| && prev[b] < |next|
      && var next1, prev1 := next[prev[b] := next[b]], prev[next[b] := prev[b]];
      && next1[h] < |prev|
      && Linked(next1[b := next1[h]][h := b], prev1[b := h][next1[h] := b], Front(c, i))
  {
    Unlinked(next, prev, c, i);
    var b := c[i];
    var next1, prev1 := next[prev[b] := next[b]], prev[next[b] := prev[b]];
    Pushed(next1, prev1, Without(c, i), b);
    assert [c[0], b] + Without(c, i)[1..] == Front(c, i);
  }
}
