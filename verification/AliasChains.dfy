/** Chains of aliases: how many passes the migration needs when a canonical key is itself an alias,
    and exactly which alias maps it clears. */
module AliasChains {
  import opened AliasBalance
  import opened AliasMerge
  import opened AliasMigration
  import opened Common

  // ── Depth in the alias map ─────────────────────────────────────────

  type AliasMap = map<string, string>

  // `rank` falls along every alias, so following aliases ends.
  ghost predicate Ranked(next: AliasMap, rank: map<string, nat>) {
    forall a | a in next :: a in rank && (next[a] in next ==> next[a] in rank && rank[next[a]] < rank[a])
  }

  /** How many alias hops lead from `p` to a key that is not an alias. */
  ghost function Depth(next: AliasMap, rank: map<string, nat>, p: string): nat
    requires Ranked(next, rank)
    decreases if p in next then rank[p] + 1 else 0
  {
    if p !in next then 0 else 1 + Depth(next, rank, next[p])
  }

  lemma {:induction false} DepthBelowRank(next: AliasMap, rank: map<string, nat>, p: string)
    requires Ranked(next, rank)
    ensures Depth(next, rank, p) <= if p in next then rank[p] + 1 else 0
    decreases if p in next then rank[p] + 1 else 0
  {
    if p in next {
      DepthBelowRank(next, rank, next[p]);
    }
  }

  // The pairs list every alias of the map once, in some order.
  ghost predicate Lists(pairs: Pairs, next: AliasMap) {
    && DistinctAliases(pairs)
    && (forall i | 0 <= i < |pairs| :: pairs[i].0 in next && next[pairs[i].0] == pairs[i].1)
    && (forall a | a in next :: IsAlias(pairs, a))
  }

  ghost predicate HasRow(rows: seq<TrustRow>, t: string, p: string) {
    Find(rows, t, p).Some?
  }

  // No row of the tenant sits deeper than `d`.
  ghost predicate DepthAtMost(rows: seq<TrustRow>, t: string, next: AliasMap, rank: map<string, nat>, d: nat)
    requires Ranked(next, rank)
  {
    forall p | HasRow(rows, t, p) :: Depth(next, rank, p) <= d
  }

  // No row is stored under an alias any more.
  ghost predicate Cleared(rows: seq<TrustRow>, t: string, next: AliasMap) {
    forall p | HasRow(rows, t, p) :: p !in next
  }

  // Which ids have a row after one iteration.
  lemma HasRowStep(rows: seq<TrustRow>, t: string, a: string, c: string, p: string)
    ensures HasRow(Step(rows, t, a, c), t, p) <==>
            if HasRow(rows, t, a) then p != a && (p == c || HasRow(rows, t, p)) else HasRow(rows, t, p)
  {
    hide Find, Merge;
    if HasRow(rows, t, a) {
      FindStep(rows, t, a, c, t, p);
    }
  }

  // ── A pass lowers the greatest depth ───────────────────────────────

  // Within a pass: aliases already handled hold only rows above the starting depth.
  lemma {:induction false} PassDepths(rows: seq<TrustRow>, t: string, pairs: Pairs, n: nat, next: AliasMap,
                                      rank: map<string, nat>, d: nat, p: string)
    requires Ranked(next, rank) && Lists(pairs, next) && n <= |pairs|
    requires DepthAtMost(rows, t, next, rank, d) && d > 0
    requires HasRow(Pass(rows, t, pairs[..n]), t, p)
    ensures Depth(next, rank, p) <= d
    ensures IsAlias(pairs[..n], p) ==> Depth(next, rank, p) < d
    decreases n
  {
    hide Step, Find;
    if n > 0 {
      assert pairs[..n][..n - 1] == pairs[..n - 1];
      var here, a, c := Pass(rows, t, pairs[..n - 1]), pairs[n - 1].0, pairs[n - 1].1;
      HasRowStep(here, t, a, c, p);
      HasRowStep(here, t, a, c, a);
      assert c == next[a];
      if HasRow(here, t, a) {
        PassDepths(rows, t, pairs, n - 1, next, rank, d, a);
      }
      if HasRow(here, t, p) {
        PassDepths(rows, t, pairs, n - 1, next, rank, d, p);
      }
      if IsAlias(pairs[..n], p) && p != a {
        var i :| 0 <= i < n && pairs[..n][i].0 == p;
        assert pairs[..n - 1][i].0 == p;
      }
    }
  }

  /** Each pass, in whatever order it lists the aliases, lowers the greatest depth at which a row sits. */
  lemma PassLowersDepth(rows: seq<TrustRow>, t: string, pairs: Pairs, next: AliasMap, rank: map<string, nat>, d: nat)
    requires Ranked(next, rank) && Lists(pairs, next)
    requires DepthAtMost(rows, t, next, rank, d)
    ensures d > 0 ==> DepthAtMost(Pass(rows, t, pairs), t, next, rank, d - 1)
    ensures d == 0 ==> Pass(rows, t, pairs) == rows
  {
    hide Pass, Find;
    if d > 0 {
      forall p | HasRow(Pass(rows, t, pairs), t, p)
        ensures Depth(next, rank, p) <= d - 1
      {
        assert pairs[..|pairs|] == pairs;
        PassDepths(rows, t, pairs, |pairs|, next, rank, d, p);
        if p in next {
          assert IsAlias(pairs, p);
        }
      }
    } else {
      forall p | p in next
        ensures !HasRow(rows, t, p)
      {
        assert Depth(next, rank, p) > 0;
      }
      ClearedPassIsIdle(rows, t, pairs, next);
    }
  }

  /** With no alias-keyed row left, a pass changes nothing. */
  lemma {:induction false} ClearedPassIsIdle(rows: seq<TrustRow>, t: string, pairs: Pairs, next: AliasMap)
    requires Cleared(rows, t, next)
    requires forall i | 0 <= i < |pairs| :: pairs[i].0 in next
    ensures Pass(rows, t, pairs) == rows
  {
    if pairs != [] {
      var n := |pairs| - 1;
      ClearedPassIsIdle(rows, t, pairs[..n], next);
      assert !HasRow(rows, t, pairs[n].0);
    }
  }

  // ── Repeated passes ────────────────────────────────────────────────

  /** The table after one pass for each listing in turn; the query may order each differently. */
  ghost function Passes(rows: seq<TrustRow>, t: string, listings: seq<Pairs>): seq<TrustRow>
    decreases |listings|
  {
    if listings == [] then rows else Passes(Pass(rows, t, listings[0]), t, listings[1..])
  }

  /** As many passes as the greatest depth leave no alias-keyed row, and any further ones change nothing. */
  lemma {:induction false} PassesClear(rows: seq<TrustRow>, t: string, listings: seq<Pairs>, next: AliasMap,
                                       rank: map<string, nat>, d: nat)
    requires Ranked(next, rank) && forall i | 0 <= i < |listings| :: Lists(listings[i], next)
    requires DepthAtMost(rows, t, next, rank, d) && d <= |listings|
    ensures Cleared(Passes(rows, t, listings), t, next)
    ensures Passes(rows, t, listings) == Passes(rows, t, listings[..d])
    decreases |listings|
  {
    hide Pass, Find;
    if listings == [] {
      assert listings[..d] == listings;
      forall p | HasRow(rows, t, p)
        ensures p !in next
      {
        assert Depth(next, rank, p) == 0;
      }
    } else {
      PassLowersDepth(rows, t, listings[0], next, rank, d);
      if d > 0 {
        PassesClear(Pass(rows, t, listings[0]), t, listings[1..], next, rank, d - 1);
        assert listings[..d][1..] == listings[1..][..d - 1];
      } else {
        PassesClear(rows, t, listings[1..], next, rank, 0);
        assert listings[..0] == listings[1..][..0] == [];
      }
    }
  }

  // ── Alias cycles ───────────────────────────────────────────────────

  // A set of aliases that only lead to each other.
  ghost predicate Trap(next: AliasMap, s: set<string>) {
    s != {} && forall a | a in s :: a in next && next[a] in s
  }

  lemma {:induction false} TrappedThroughPass(rows: seq<TrustRow>, t: string, pairs: Pairs, next: AliasMap,
                                              s: set<string>, p: string)
    returns (q: string)
    requires Trap(next, s) && NoSelfAlias(pairs)
    requires forall i | 0 <= i < |pairs| :: pairs[i].0 in next && next[pairs[i].0] == pairs[i].1
    requires p in s && HasRow(rows, t, p)
    ensures q in s && HasRow(Pass(rows, t, pairs), t, q)
  {
    hide Step, Find;
    q := p;
    if pairs != [] {
      var n := |pairs| - 1;
      var here := Pass(rows, t, pairs[..n]);
      q := TrappedThroughPass(rows, t, pairs[..n], next, s, p);
      HasRowStep(here, t, pairs[n].0, pairs[n].1, q);
      if q == pairs[n].0 {
        q := pairs[n].1;
        HasRowStep(here, t, pairs[n].0, pairs[n].1, q);
      }
    }
  }

  lemma {:induction false} TrappedForever(rows: seq<TrustRow>, t: string, listings: seq<Pairs>, next: AliasMap,
                                          s: set<string>, p: string)
    requires Trap(next, s) && forall i | 0 <= i < |listings| :: Lists(listings[i], next)
    requires forall a | a in next :: next[a] != a
    requires p in s && HasRow(rows, t, p)
    ensures !Cleared(Passes(rows, t, listings), t, next)
    decreases |listings|
  {
    hide Pass, Find;
    if listings != [] {
      assert NoSelfAlias(listings[0]);
      var q := TrappedThroughPass(rows, t, listings[0], next, s, p);
      TrappedForever(Pass(rows, t, listings[0]), t, listings[1..], next, s, q);
    }
  }

  // A rank below its size for every alias stripped so far, falling along it.
  ghost predicate Stripped(next: AliasMap, left: set<string>, rank: map<string, nat>) {
    && left <= next.Keys && rank.Keys == next.Keys - left
    && forall a | a in rank :: rank[a] < |rank| && (next[a] in next ==> next[a] in rank && rank[next[a]] < rank[a])
  }

  lemma StripOneMore(next: AliasMap, left: set<string>, rank: map<string, nat>, a: string)
    requires Stripped(next, left, rank) && a in left && next[a] !in left
    ensures Stripped(next, left - {a}, rank[a := |rank|])
  {
    var rank' := rank[a := |rank|];
    assert rank'.Keys == rank.Keys + {a};
    assert |rank'.Keys| == |rank.Keys| + 1;
  }

  lemma AllStripped(next: AliasMap, rank: map<string, nat>)
    requires Stripped(next, {}, rank)
    ensures Ranked(next, rank) && forall a | a in next :: rank[a] < |next|
  {
    assert rank.Keys == next.Keys;
    assert |rank| == |rank.Keys| == |next.Keys| == |next|;
  }

  /** An alias map has a ranking or a trap: strip, one at a time, aliases that lead outside what is left. */
  lemma {:induction false} RankOrTrap(next: AliasMap, left: set<string>, rank: map<string, nat>)
    returns (rank': map<string, nat>, trap: set<string>)
    requires Stripped(next, left, rank)
    ensures Trap(next, trap) || (Ranked(next, rank') && forall a | a in next :: rank'[a] < |next|)
    decreases |left|
  {
    rank', trap := rank, left;
    if left == {} {
      AllStripped(next, rank);
    } else if a :| a in left && next[a] !in left {
      hide Stripped, Ranked, Trap;
      StripOneMore(next, left, rank, a);
      rank', trap := RankOrTrap(next, left - {a}, rank[a := |rank|]);
    }
  }

  /** For a map without self-aliases: some number of passes clears every table exactly when no set of
      aliases leads only to itself, and then as many passes as there are aliases are enough. */
  lemma ClearsIff(t: string, pairs: Pairs, next: AliasMap)
    requires Lists(pairs, next) && forall a | a in next :: next[a] != a
    ensures (exists n: nat :: ClearsAll(t, pairs, next, n)) <==> !(exists s :: Trap(next, s))
    ensures !(exists s :: Trap(next, s)) ==> ClearsAll(t, pairs, next, |next|)
  {
    var rank, trap := RankOrTrap(next, next.Keys, map[]);
    hide ClearsAll, Trap, Ranked, Lists;
    if exists s :: Trap(next, s) {
      var s :| Trap(next, s);
      forall n: nat
        ensures !ClearsAll(t, pairs, next, n)
      {
        TrapStays(t, pairs, next, s, n);
      }
    } else {
      RankedClears(t, pairs, next, rank);
    }
  }

  lemma TrapStays(t: string, pairs: Pairs, next: AliasMap, s: set<string>, n: nat)
    requires Lists(pairs, next) && (forall a | a in next :: next[a] != a) && Trap(next, s)
    ensures !ClearsAll(t, pairs, next, n)
  {
    var p :| p in s;
    var rows := [TrustRow(t, "agent", p, None, None, None)];
    assert HasRow(rows, t, p);
    TrappedForever(rows, t, Repeat(pairs, n), next, s, p);
  }

  lemma RankedClears(t: string, pairs: Pairs, next: AliasMap, rank: map<string, nat>)
    requires Lists(pairs, next) && Ranked(next, rank) && forall a | a in next :: rank[a] < |next|
    ensures ClearsAll(t, pairs, next, |next|)
  {
    hide Depth, Lists, Passes;
    forall rows
      ensures Cleared(Passes(rows, t, Repeat(pairs, |next|)), t, next)
    {
      forall p | HasRow(rows, t, p)
        ensures Depth(next, rank, p) <= |next|
      {
        DepthBelowRank(next, rank, p);
      }
      PassesClear(rows, t, Repeat(pairs, |next|), next, rank, |next|);
    }
  }

  function Repeat(pairs: Pairs, n: nat): (r: seq<Pairs>)
    ensures |r| == n && forall i | 0 <= i < n :: r[i] == pairs
  {
    seq(n, i => pairs)
  }

  ghost predicate ClearsAll(t: string, pairs: Pairs, next: AliasMap, n: nat) {
    forall rows :: Cleared(Passes(rows, t, Repeat(pairs, n)), t, next)
  }

  // ── Re-running ─────────────────────────────────────────────────────

  /** Running the migration again, in whatever order the second query lists the aliases, changes nothing. */
  ghost predicate Idempotent(t: string, next: AliasMap) {
    forall rows, first: Pairs, second: Pairs | Lists(first, next) && Lists(second, next) ::
      Pass(Pass(rows, t, first), t, second) == Pass(rows, t, first)
  }

  // Every alias points at itself or at a key that is no alias.
  predicate NoChain(next: AliasMap) {
    forall a | a in next :: next[a] == a || next[a] !in next
  }

  // Without chains, no alias handled so far has a row.
  lemma {:induction false} HandledAreGone(rows: seq<TrustRow>, t: string, pairs: Pairs, next: AliasMap, p: string)
    requires NoChain(next) && IsAlias(pairs, p)
    requires forall i | 0 <= i < |pairs| :: pairs[i].0 in next && next[pairs[i].0] == pairs[i].1
    ensures !HasRow(Pass(rows, t, pairs), t, p)
  {
    hide Step, HasRow;
    var n := |pairs| - 1;
    var here := Pass(rows, t, pairs[..n]);
    HasRowStep(here, t, pairs[n].0, pairs[n].1, p);
    if p != pairs[n].0 {
      var i :| 0 <= i < |pairs| && pairs[i].0 == p;
      assert pairs[..n][i].0 == p;
      HandledAreGone(rows, t, pairs[..n], next, p);
    }
  }

  // Every alias map has a listing that ends in any alias of it.
  lemma {:induction false} ListingEndingIn(next: AliasMap, last: string) returns (pairs: Pairs)
    requires last in next
    ensures Lists(pairs, next) && pairs != [] && pairs[|pairs| - 1] == (last, next[last])
    decreases |next|
  {
    var fewer := next - {last};
    assert next.Keys == fewer.Keys + {last};
    assert |fewer.Keys| < |next.Keys|;
    var before: Pairs := [];
    if fewer != map[] {
      hide Lists;
      var a :| a in fewer;
      before := ListingEndingIn(fewer, a);
    }
    pairs := before + [(last, next[last])];
    ListsOneMore(before, fewer, next, last);
  }

  lemma ListsOneMore(before: Pairs, fewer: AliasMap, next: AliasMap, last: string)
    requires Lists(before, fewer) && last in next && fewer == next - {last}
    ensures Lists(before + [(last, next[last])], next)
  {
    var pairs := before + [(last, next[last])];
    forall a | a in next
      ensures IsAlias(pairs, a)
    {
      if a == last {
        assert pairs[|before|].0 == last;
      } else {
        assert IsAlias(before, a);
        var i :| 0 <= i < |before| && before[i].0 == a;
        assert pairs[i].0 == a;
      }
    }
  }

  // A table whose only row waits for the last iteration.
  lemma {:induction false} OnlyLastMoves(rows: seq<TrustRow>, t: string, pairs: Pairs, p: string)
    requires forall q :: HasRow(rows, t, q) <==> q == p
    requires forall i | 0 <= i < |pairs| :: pairs[i].0 != p
    ensures Pass(rows, t, pairs) == rows
  {
    hide HasRow;
    if pairs != [] {
      var n := |pairs| - 1;
      OnlyLastMoves(rows, t, pairs[..n], p);
      assert !HasRow(rows, t, pairs[n].0);
      IdleStep(rows, t, pairs[n].0, pairs[n].1);
    }
  }

  lemma IdleStep(rows: seq<TrustRow>, t: string, a: string, c: string)
    requires !HasRow(rows, t, a)
    ensures Step(rows, t, a, c) == rows
  {
  }

  lemma LastMoves(rows: seq<TrustRow>, t: string, pairs: Pairs, p: string)
    requires forall q :: HasRow(rows, t, q) <==> q == p
    requires DistinctAliases(pairs) && pairs != [] && pairs[|pairs| - 1].0 == p
    ensures var c := pairs[|pairs| - 1].1;
            forall q :: HasRow(Pass(rows, t, pairs), t, q) <==> q == c && c != p
  {
    hide HasRow, Step;
    var n := |pairs| - 1;
    OnlyLastMoves(rows, t, pairs[..n], p);
    forall q
      ensures HasRow(Pass(rows, t, pairs), t, q) <==> q == pairs[n].1 && pairs[n].1 != p
    {
      HasRowStep(rows, t, p, pairs[n].1, q);
    }
  }

  /** The documented idempotence holds, for every table and every two listings, exactly when each
      alias points at itself or at a key that is no alias. */
  lemma IdempotentIff(t: string, next: AliasMap)
    ensures Idempotent(t, next) <==> NoChain(next)
  {
    hide HasRow, Pass;
    if NoChain(next) {
      forall rows, first: Pairs, second: Pairs | Lists(first, next) && Lists(second, next)
        ensures Pass(Pass(rows, t, first), t, second) == Pass(rows, t, first)
      {
        forall p | p in next
          ensures !HasRow(Pass(rows, t, first), t, p)
        {
          HandledAreGone(rows, t, first, next, p);
        }
        ClearedPassIsIdle(Pass(rows, t, first), t, second, next);
      }
    } else {
      var a :| a in next && next[a] != a && next[a] in next;
      var first := ListingEndingIn(next, a);
      var second := ListingEndingIn(next, next[a]);
      var rows := SingleRow(t, a);
      LastMoves(rows, t, first, a);
      LastMoves(Pass(rows, t, first), t, second, next[a]);
      assert HasRow(Pass(rows, t, first), t, next[a]) && !HasRow(Pass(Pass(rows, t, first), t, second), t, next[a]);
    }
  }

  lemma SingleRow(t: string, p: string) returns (rows: seq<TrustRow>)
    ensures forall q :: HasRow(rows, t, q) <==> q == p
  {
    rows := [TrustRow(t, "agent", p, None, None, None)];
    assert rows[1..] == [];
  }

  // `rank` falls along every alias that does not point at itself: no longer cycles.
  ghost predicate NoCycle(next: AliasMap, rank: map<string, nat>) {
    forall a | a in next ::
      a in rank && (next[a] != a && next[a] in next ==> next[a] in rank && rank[next[a]] < rank[a])
  }

  // Every canonical that is another alias is listed after the alias that points at it.
  ghost predicate ListedInOrder(pairs: Pairs) {
    forall i, j | 0 <= i < |pairs| && 0 <= j < |pairs| && i != j && pairs[i].1 == pairs[j].0 :: i < j
  }

  ghost predicate SameListingIdempotent(t: string, pairs: Pairs) {
    forall rows :: Pass(Pass(rows, t, pairs), t, pairs) == Pass(rows, t, pairs)
  }

  // Listed in order, no alias handled so far has a row.
  lemma {:induction false} OrderedAreGone(rows: seq<TrustRow>, t: string, pairs: Pairs, n: nat, p: string)
    requires DistinctAliases(pairs) && ListedInOrder(pairs) && n <= |pairs| && IsAlias(pairs[..n], p)
    ensures !HasRow(Pass(rows, t, pairs[..n]), t, p)
    decreases n
  {
    hide Step, HasRow;
    assert pairs[..n][..n - 1] == pairs[..n - 1];
    var here, a, c := Pass(rows, t, pairs[..n - 1]), pairs[n - 1].0, pairs[n - 1].1;
    HasRowStep(here, t, a, c, p);
    if p != a {
      var i :| 0 <= i < n && pairs[..n][i].0 == p;
      assert pairs[..n - 1][i].0 == p && pairs[i].0 == p;
      OrderedAreGone(rows, t, pairs, n - 1, p);
    }
  }

  // Where the rows are while a single row travels.
  ghost predicate OnlyAt(rows: seq<TrustRow>, t: string, p: string) {
    forall q :: HasRow(rows, t, q) <==> q == p
  }

  // Rows only at keys that are no alias, or of lower rank.
  ghost predicate Below(rows: seq<TrustRow>, t: string, next: AliasMap, rank: map<string, nat>, bound: nat) {
    forall q | HasRow(rows, t, q) :: q in next ==> q in rank && rank[q] < bound
  }

  lemma {:induction false} StaysBelow(rows: seq<TrustRow>, t: string, pairs: Pairs, j: nat, n: nat, next: AliasMap,
                                      rank: map<string, nat>, bound: nat)
    requires Lists(pairs, next) && NoCycle(next, rank) && j <= n <= |pairs|
    requires Below(Pass(rows, t, pairs[..j]), t, next, rank, bound)
    ensures Below(Pass(rows, t, pairs[..n]), t, next, rank, bound)
    decreases n
  {
    hide Step, HasRow;
    if j < n {
      StaysBelow(rows, t, pairs, j, n - 1, next, rank, bound);
      assert pairs[..n][..n - 1] == pairs[..n - 1];
      var here, a, c := Pass(rows, t, pairs[..n - 1]), pairs[n - 1].0, pairs[n - 1].1;
      forall q | HasRow(Pass(rows, t, pairs[..n]), t, q)
        ensures q in next ==> q in rank && rank[q] < bound
      {
        HasRowStep(here, t, a, c, q);
      }
    }
  }

  // The row that was at `p` has moved to `c`, or is gone if that is `p` itself.
  ghost predicate Landed(rows: seq<TrustRow>, t: string, p: string, c: string) {
    forall q :: HasRow(rows, t, q) <==> q == c && q != p
  }

  // A lone row moves at its own turn only.
  lemma TurnOf(rows: seq<TrustRow>, t: string, pairs: Pairs, i: nat)
    requires DistinctAliases(pairs) && i < |pairs| && OnlyAt(rows, t, pairs[i].0)
    ensures Landed(Pass(rows, t, pairs[..i + 1]), t, pairs[i].0, pairs[i].1)
  {
    var upTo := pairs[..i + 1];
    assert upTo[|upTo| - 1] == pairs[i];
    hide HasRow, Pass;
    LastMoves(rows, t, upTo, pairs[i].0);
  }

  lemma {:induction false} NotMoved(rows: seq<TrustRow>, t: string, pairs: Pairs, i: nat, p: string)
    requires i <= |pairs| && OnlyAt(Pass(rows, t, pairs[..i]), t, p)
    requires forall k | i <= k < |pairs| :: pairs[k].0 != p
    ensures Pass(rows, t, pairs) == Pass(rows, t, pairs[..i])
    decreases |pairs|
  {
    hide HasRow, Step;
    if i < |pairs| {
      var n := |pairs| - 1;
      assert pairs[..n][..i] == pairs[..i];
      NotMoved(rows, t, pairs[..n], i, p);
      IdleStep(Pass(rows, t, pairs[..n]), t, pairs[n].0, pairs[n].1);
    } else {
      assert pairs[..i] == pairs;
    }
  }

  // The first run leaves a lone row at the canonical, whose own turn is already over.
  lemma FirstRunStops(rows: seq<TrustRow>, t: string, pairs: Pairs, i: nat, j: nat)
    requires DistinctAliases(pairs) && j < i < |pairs| && pairs[i].1 == pairs[j].0
    requires OnlyAt(rows, t, pairs[i].0)
    ensures OnlyAt(Pass(rows, t, pairs), t, pairs[j].0)
  {
    hide HasRow, Pass;
    TurnOf(rows, t, pairs, i);
    NotMoved(rows, t, pairs, i + 1, pairs[j].0);
  }

  // The second run moves it on, and without a cycle it does not come back.
  lemma SecondRunLeaves(once: seq<TrustRow>, t: string, pairs: Pairs, next: AliasMap, rank: map<string, nat>, j: nat)
    requires Lists(pairs, next) && NoCycle(next, rank) && j < |pairs| && OnlyAt(once, t, pairs[j].0)
    ensures !HasRow(Pass(once, t, pairs), t, pairs[j].0)
  {
    var b := pairs[j].0;
    assert b in next && next[b] == pairs[j].1;
    hide HasRow, Pass, Lists;
    TurnOf(once, t, pairs, j);
    LandsBelow(Pass(once, t, pairs[..j + 1]), t, next, rank, b);
    StaysBelow(once, t, pairs, j + 1, |pairs|, next, rank, rank[b]);
    assert pairs[..|pairs|] == pairs;
  }

  lemma LandsBelow(rows: seq<TrustRow>, t: string, next: AliasMap, rank: map<string, nat>, b: string)
    requires NoCycle(next, rank) && b in next && Landed(rows, t, b, next[b])
    ensures Below(rows, t, next, rank, rank[b])
  {
  }

  // A canonical listed too early makes the second run move its row.
  lemma SecondRunMoves(t: string, pairs: Pairs, next: AliasMap, rank: map<string, nat>, i: nat, j: nat)
    requires Lists(pairs, next) && NoCycle(next, rank)
    requires j < i < |pairs| && pairs[i].1 == pairs[j].0
    ensures !SameListingIdempotent(t, pairs)
  {
    hide HasRow, Pass, NoCycle;
    var rows := SingleRow(t, pairs[i].0);
    var once := Pass(rows, t, pairs);
    FirstRunStops(rows, t, pairs, i, j);
    SecondRunLeaves(once, t, pairs, next, rank, j);
    assert HasRow(once, t, pairs[j].0);
    assert Pass(once, t, pairs) != once;
  }

  /** The usual re-run, with the aliases listed in the same order again: without cycles of several
      aliases it changes nothing, on every table, exactly when each canonical that is itself another
      alias is listed after the alias pointing at it. */
  lemma SameListingIff(t: string, pairs: Pairs, next: AliasMap, rank: map<string, nat>)
    requires Lists(pairs, next) && NoCycle(next, rank)
    ensures SameListingIdempotent(t, pairs) <==> ListedInOrder(pairs)
  {
    hide HasRow, Pass;
    if ListedInOrder(pairs) {
      forall rows
        ensures Pass(Pass(rows, t, pairs), t, pairs) == Pass(rows, t, pairs)
      {
        assert pairs[..|pairs|] == pairs;
        forall p | p in next
          ensures !HasRow(Pass(rows, t, pairs), t, p)
        {
          OrderedAreGone(rows, t, pairs, |pairs|, p);
        }
        ClearedPassIsIdle(Pass(rows, t, pairs), t, pairs, next);
      }
    } else {
      var i, j :| 0 <= i < |pairs| && 0 <= j < |pairs| && i != j && pairs[i].1 == pairs[j].0 && !(i < j);
      SecondRunMoves(t, pairs, next, rank, i, j);
    }
  }
}
