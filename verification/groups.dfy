/** Partitioning a row context by a key: the rows a grouped (`over`)
    computation lets each row see. */
module Groups {
  import opened Frames

  /** The rows of `ctx` whose key is `k`, in their order in `ctx`. */
  function GroupRows<K(==)>(keys: seq<K>, ctx: seq<nat>, k: K): (g: seq<nat>)
    requires InRange(ctx, |keys|)
    ensures InRange(g, |keys|) && |g| <= |ctx|
    ensures forall p :: 0 <= p < |g| ==> keys[g[p]] == k
  {
    if |ctx| == 0 then []
    else
      var last := ctx[|ctx| - 1];
      GroupRows(keys, ctx[..|ctx| - 1], k) + (if keys[last] == k then [last] else [])
  }

  /** Grouping a prefix of the context gives a prefix of the grouping. */
  lemma {:induction false} GroupRowsOfPrefix<K>(keys: seq<K>, ctx: seq<nat>, m: nat, k: K)
    requires InRange(ctx, |keys|) && m <= |ctx|
    ensures |GroupRows(keys, ctx[..m], k)| <= |GroupRows(keys, ctx, k)|
    ensures GroupRows(keys, ctx[..m], k) == GroupRows(keys, ctx, k)[..|GroupRows(keys, ctx[..m], k)|]
    decreases |ctx|
  {
    if m < |ctx| {
      var init := ctx[..|ctx| - 1];
      assert init[..m] == ctx[..m];
      GroupRowsOfPrefix(keys, init, m, k);
    } else {
      assert ctx[..m] == ctx;
    }
  }

  /** Row ctx[p] sits in its group at the position given by the number of
      earlier rows of the same key, and the group up to and including it is
      exactly the same-key rows of ctx[..p+1]. */
  lemma {:induction false} GroupPosition<K>(keys: seq<K>, ctx: seq<nat>, p: nat)
    requires InRange(ctx, |keys|) && p < |ctx|
    ensures var k := keys[ctx[p]];
      var g := GroupRows(keys, ctx, k);
      var q := |GroupRows(keys, ctx[..p], k)|;
      && q < |g| && g[q] == ctx[p]
      && g[..q + 1] == GroupRows(keys, ctx[..p + 1], k)
  {
    var k := keys[ctx[p]];
    var pre := ctx[..p + 1];
    assert pre[..|pre| - 1] == ctx[..p];
    assert GroupRows(keys, pre, k) == GroupRows(keys, ctx[..p], k) + [ctx[p]];
    GroupRowsOfPrefix(keys, ctx, p + 1, k);
  }

  /** Grouping commutes with re-indexing through a row selection `g`: grouping
      the sub-table's rows and mapping them back gives the grouping of the
      mapped rows. */
  lemma {:induction false} GroupRowsPick<K>(keys: seq<K>, g: seq<nat>, c: seq<nat>, k: K)
    requires InRange(g, |keys|) && InRange(c, |g|)
    ensures InRange(GroupRows(Pick(keys, g), c, k), |g|)
    ensures InRange(Pick(g, c), |keys|)
    ensures Pick(g, GroupRows(Pick(keys, g), c, k)) == GroupRows(keys, Pick(g, c), k)
    decreases |c|
  {
    if |c| > 0 {
      var init, x := c[..|c| - 1], c[|c| - 1];
      GroupRowsPick(keys, g, init, k);
      var gr := GroupRows(Pick(keys, g), init, k);
      var tail := if Pick(keys, g)[x] == k then [x] else [];
      var picked := if keys[g[x]] == k then [g[x]] else [];
      assert GroupRows(Pick(keys, g), c, k) == gr + tail;
      assert Pick(g, gr + tail) == Pick(g, gr) + picked by {
        PickAppend(g, gr, tail);
      }
      assert GroupRows(keys, Pick(g, c), k) == GroupRows(keys, Pick(g, init), k) + picked by {
        assert Pick(g, c)[..|c| - 1] == Pick(g, init);
      }
    }
  }

  lemma {:induction false} PickAppend<T>(xs: seq<T>, a: seq<nat>, b: seq<nat>)
    requires InRange(a, |xs|) && InRange(b, |xs|)
    ensures InRange(a + b, |xs|)
    ensures Pick(xs, a + b) == Pick(xs, a) + Pick(xs, b)
  {
    assert forall p :: 0 <= p < |a + b| ==> (a + b)[p] < |xs|;
  }

  /** The group holds exactly the context rows with that key. */
  lemma {:induction false} GroupRowsMembers<K>(keys: seq<K>, ctx: seq<nat>, k: K, x: nat)
    requires InRange(ctx, |keys|)
    ensures x in GroupRows(keys, ctx, k) <==> x in ctx && x < |keys| && keys[x] == k
    decreases |ctx|
  {
    if |ctx| > 0 {
      var init := ctx[..|ctx| - 1];
      GroupRowsMembers(keys, init, k, x);
      assert ctx == init + [ctx[|ctx| - 1]];
    }
  }

  /** A context with a single key value is its own group. */
  lemma {:induction false} GroupRowsConstantKey<K>(keys: seq<K>, ctx: seq<nat>, k: K)
    requires InRange(ctx, |keys|)
    requires forall p :: 0 <= p < |ctx| ==> keys[ctx[p]] == k
    ensures GroupRows(keys, ctx, k) == ctx
    decreases |ctx|
  {
    if |ctx| > 0 {
      GroupRowsConstantKey(keys, ctx[..|ctx| - 1], k);
    }
  }
}
