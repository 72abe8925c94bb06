/** What a migration leaves: the closed form of one pass, and how far it depends on the order of
    the alias list. */
module AliasMerge {
  import opened AliasBalance
  import opened AliasMigration
  import opened Common

  // ── Closed form of one pass ────────────────────────────────────────

  ghost predicate DistinctAliases(pairs: Pairs) {
    forall i, j | 0 <= i < j < |pairs| :: pairs[i].0 != pairs[j].0
  }

  // No canonical key is itself an alias.
  ghost predicate Flat(pairs: Pairs) {
    forall i, j | 0 <= i < |pairs| && 0 <= j < |pairs| :: pairs[i].1 != pairs[j].0
  }

  // What the pair sends to `p`: its alias row, if it points at `p` and has one.
  function Sent(rows: seq<TrustRow>, t: string, p: string, e: (string, string)): Option<TrustRow> {
    if e.1 == p then Find(rows, t, e.0) else None
  }

  function AddSent(rows: seq<TrustRow>, t: string, p: string, k: string): ((string, string), int) -> int {
    (e, acc) => acc + Share(Sent(rows, t, p, e), k)
  }

  function MinSent(rows: seq<TrustRow>, t: string, p: string): ((string, string), int) -> int {
    (e, acc) => var r := Sent(rows, t, p, e); if r.Some? then Min(TrustOf(r.value), acc) else acc
  }

  function LatestSent(rows: seq<TrustRow>, t: string, p: string): ((string, string), Option<int>) -> Option<int> {
    (e, acc) => var r := Sent(rows, t, p, e); if r.Some? then Later(r.value.last, acc) else acc
  }

  function CountSent(rows: seq<TrustRow>, t: string, p: string): ((string, string), nat) -> nat {
    (e, acc) => if Sent(rows, t, p, e).Some? then acc + 1 else acc
  }

  /** Signals of one kind: the canonical row's own plus those of every alias row sent to it. */
  function SumFor(rows: seq<TrustRow>, t: string, pairs: Pairs, p: string, k: string): int {
    Fold(AddSent(rows, t, p, k), Share(Find(rows, t, p), k), pairs)
  }

  /** Trust: the least of all, a missing canonical row or a null score counting as 50. */
  function TrustFor(rows: seq<TrustRow>, t: string, pairs: Pairs, p: string): int {
    Fold(MinSent(rows, t, p), if Find(rows, t, p).Some? then TrustOf(Find(rows, t, p).value) else 50, pairs)
  }

  /** Last signal: the latest that is known. */
  function LastFor(rows: seq<TrustRow>, t: string, pairs: Pairs, p: string): Option<int> {
    Fold(LatestSent(rows, t, p), if Find(rows, t, p).Some? then Find(rows, t, p).value.last else None, pairs)
  }

  function SentTo(rows: seq<TrustRow>, t: string, pairs: Pairs, p: string): nat {
    Fold(CountSent(rows, t, p), 0, pairs)
  }

  function IsAlias(pairs: Pairs, p: string): bool {
    exists i :: 0 <= i < |pairs| && pairs[i].0 == p
  }

  // What a lookup of `p` finds after the pass.
  ghost predicate ClosedForm(rows: seq<TrustRow>, t: string, pairs: Pairs, p: string, found: Option<TrustRow>) {
    if IsAlias(pairs, p) then found.None?
    else if SentTo(rows, t, pairs, p) == 0 then found == Find(rows, t, p)
    else
      && found.Some?
      && (forall k :: Signals(found.value, k) == SumFor(rows, t, pairs, p, k))
      && found.value.trust == Some(TrustFor(rows, t, pairs, p))
      && found.value.last == LastFor(rows, t, pairs, p)
      && found.value.kind == KindAfter(rows, t, pairs, p)
  }

  /** The first listed alias row sent to `p`. */
  function FirstSent(rows: seq<TrustRow>, t: string, pairs: Pairs, p: string): Option<TrustRow> {
    if pairs == [] then None
    else
      var n := |pairs| - 1;
      var before := FirstSent(rows, t, pairs[..n], p);
      if before.Some? then before else Sent(rows, t, p, pairs[n])
  }

  /** Kind: the canonical row's own; a new row takes it from the first alias row sent. */
  function KindAfter(rows: seq<TrustRow>, t: string, pairs: Pairs, p: string): string {
    var own, first := Find(rows, t, p), FirstSent(rows, t, pairs, p);
    if own.Some? then own.value.kind else if first.Some? then KindFor(first.value) else ""
  }

  // A pair that sends nothing to `p` leaves every part of the closed form as it was.
  lemma UnsentPair(rows: seq<TrustRow>, t: string, pairs: Pairs, p: string)
    requires pairs != [] && Sent(rows, t, p, pairs[|pairs| - 1]).None?
    ensures var init := pairs[..|pairs| - 1];
            && SentTo(rows, t, pairs, p) == SentTo(rows, t, init, p)
            && (forall k :: SumFor(rows, t, pairs, p, k) == SumFor(rows, t, init, p, k))
            && TrustFor(rows, t, pairs, p) == TrustFor(rows, t, init, p)
            && LastFor(rows, t, pairs, p) == LastFor(rows, t, init, p)
            && FirstSent(rows, t, pairs, p) == FirstSent(rows, t, init, p)
  {
  }

  lemma SentPair(rows: seq<TrustRow>, t: string, pairs: Pairs, p: string, r: TrustRow)
    requires pairs != [] && Sent(rows, t, p, pairs[|pairs| - 1]) == Some(r)
    ensures var init := pairs[..|pairs| - 1];
            && SentTo(rows, t, pairs, p) == SentTo(rows, t, init, p) + 1
            && (forall k :: SumFor(rows, t, pairs, p, k) == SumFor(rows, t, init, p, k) + Signals(r, k))
            && TrustFor(rows, t, pairs, p) == Min(TrustOf(r), TrustFor(rows, t, init, p))
            && LastFor(rows, t, pairs, p) == Later(r.last, LastFor(rows, t, init, p))
            && FirstSent(rows, t, pairs, p) ==
               if FirstSent(rows, t, init, p).Some? then FirstSent(rows, t, init, p) else Some(r)
  {
  }

  lemma {:induction false} FirstSentWhenSent(rows: seq<TrustRow>, t: string, pairs: Pairs, p: string)
    ensures FirstSent(rows, t, pairs, p).Some? <==> SentTo(rows, t, pairs, p) > 0
  {
    if pairs != [] {
      FirstSentWhenSent(rows, t, pairs[..|pairs| - 1], p);
    }
  }

  // With nothing sent, the sums are those of the canonical row alone.
  lemma {:induction false} NothingSent(rows: seq<TrustRow>, t: string, pairs: Pairs, p: string)
    requires SentTo(rows, t, pairs, p) == 0
    ensures forall k :: SumFor(rows, t, pairs, p, k) == Share(Find(rows, t, p), k)
    ensures TrustFor(rows, t, pairs, p) == if Find(rows, t, p).Some? then TrustOf(Find(rows, t, p).value) else 50
    ensures LastFor(rows, t, pairs, p) == if Find(rows, t, p).Some? then Find(rows, t, p).value.last else None
  {
    if pairs != [] {
      var n := |pairs| - 1;
      assert Sent(rows, t, p, pairs[n]).None?;
      UnsentPair(rows, t, pairs, p);
      NothingSent(rows, t, pairs[..n], p);
    }
  }

  /** One pass over a flat alias list, for every id of the tenant. */
  lemma {:induction false} PassClosedForm(rows: seq<TrustRow>, t: string, pairs: Pairs, p: string)
    requires DistinctAliases(pairs) && Flat(pairs)
    ensures ClosedForm(rows, t, pairs, p, Find(Pass(rows, t, pairs), t, p))
  {
    if pairs != [] {
      var n := |pairs| - 1;
      var init, a, c := pairs[..n], pairs[n].0, pairs[n].1;
      PassClosedForm(rows, t, init, p);
      PassClosedForm(rows, t, init, a);
      PassClosedForm(rows, t, init, c);
      AliasUntouched(rows, t, pairs);
      LastPair(rows, t, pairs, p);
    }
  }

  // Before its own iteration an alias row is as it was: nothing is sent to it.
  lemma {:induction false} NeverSentToAlias(rows: seq<TrustRow>, t: string, pairs: Pairs, p: string)
    requires forall i | 0 <= i < |pairs| :: pairs[i].1 != p
    ensures SentTo(rows, t, pairs, p) == 0
  {
    if pairs != [] {
      NeverSentToAlias(rows, t, pairs[..|pairs| - 1], p);
    }
  }

  lemma AliasUntouched(rows: seq<TrustRow>, t: string, pairs: Pairs)
    requires pairs != [] && DistinctAliases(pairs) && Flat(pairs)
    requires var n := |pairs| - 1;
             ClosedForm(rows, t, pairs[..n], pairs[n].0, Find(Pass(rows, t, pairs[..n]), t, pairs[n].0))
    ensures var n := |pairs| - 1; Find(Pass(rows, t, pairs[..n]), t, pairs[n].0) == Find(rows, t, pairs[n].0)
  {
    var n := |pairs| - 1;
    NeverSentToAlias(rows, t, pairs[..n], pairs[n].0);
  }

  lemma LastPair(rows: seq<TrustRow>, t: string, pairs: Pairs, p: string)
    requires pairs != [] && DistinctAliases(pairs) && Flat(pairs)
    requires var n := |pairs| - 1; var here := Pass(rows, t, pairs[..n]);
             && ClosedForm(rows, t, pairs[..n], p, Find(here, t, p))
             && Find(here, t, pairs[n].0) == Find(rows, t, pairs[n].0)
    ensures ClosedForm(rows, t, pairs, p, Find(Pass(rows, t, pairs), t, p))
  {
    hide SumFor, TrustFor, LastFor, SentTo, FirstSent, Find, Step, Merge;
    var n := |pairs| - 1;
    var init, a, c := pairs[..n], pairs[n].0, pairs[n].1;
    var here := Pass(rows, t, init);
    assert IsAlias(pairs, p) <==> p == a || IsAlias(init, p) by {
      assert forall i | 0 <= i < n :: pairs[i] == init[i];
    }
    if Find(rows, t, a).None? {
      assert Step(here, t, a, c) == here by { StepNothing(here, t, a, c); }
      UnsentPair(rows, t, pairs, p);
    } else {
      FindStep(here, t, a, c, t, p);
      if p != a && !IsAlias(init, p) {
        if p == c {
          MergeIntoCanonical(rows, t, pairs, Find(here, t, p));
        } else {
          UnsentPair(rows, t, pairs, p);
        }
      }
    }
  }

  lemma MergeIntoCanonical(rows: seq<TrustRow>, t: string, pairs: Pairs, dst: Option<TrustRow>)
    requires pairs != [] && Find(rows, t, pairs[|pairs| - 1].0).Some?
    requires var n := |pairs| - 1; !IsAlias(pairs, pairs[n].1) && !IsAlias(pairs[..n], pairs[n].1)
    requires var n := |pairs| - 1; ClosedForm(rows, t, pairs[..n], pairs[n].1, dst)
    ensures var n := |pairs| - 1;
            ClosedForm(rows, t, pairs, pairs[n].1, Some(MergedRow(t, pairs[n].1, Find(rows, t, pairs[n].0).value, dst)))
  {
    hide SumFor, TrustFor, LastFor, SentTo, FirstSent, Find;
    var n := |pairs| - 1;
    var init, p := pairs[..n], pairs[n].1;
    var src := Find(rows, t, pairs[n].0).value;
    FirstSentWhenSent(rows, t, init, p);
    SentPair(rows, t, pairs, p, src);
    if SentTo(rows, t, init, p) == 0 {
      NothingSent(rows, t, init, p);
    }
  }

  // ── When the trust kept is the lower one ───────────────────────────

  function LowerKnown(r: Option<TrustRow>, low: Option<int>): Option<int> {
    if r.None? || r.value.trust.None? then low
    else if low.None? then r.value.trust
    else Some(Min(r.value.trust.value, low.value))
  }

  /** The least score there is among the canonical row and the alias rows sent to it. */
  function LowestKnown(rows: seq<TrustRow>, t: string, pairs: Pairs, p: string): Option<int> {
    if pairs == [] then LowerKnown(Find(rows, t, p), None)
    else
      var n := |pairs| - 1;
      LowerKnown(Sent(rows, t, p, pairs[n]), LowestKnown(rows, t, pairs[..n], p))
  }

  /** The canonical row and every alias row sent to it have a score. */
  predicate AllScored(rows: seq<TrustRow>, t: string, pairs: Pairs, p: string) {
    if pairs == [] then Find(rows, t, p).Some? && Find(rows, t, p).value.trust.Some?
    else
      var n := |pairs| - 1;
      var r := Sent(rows, t, p, pairs[n]);
      (r.Some? ==> r.value.trust.Some?) && AllScored(rows, t, pairs[..n], p)
  }

  // A missing row or score stands in as 50.
  lemma {:induction false} TrustIs(rows: seq<TrustRow>, t: string, pairs: Pairs, p: string)
    ensures var low := LowestKnown(rows, t, pairs, p);
            && (AllScored(rows, t, pairs, p) ==> low == Some(TrustFor(rows, t, pairs, p)))
            && (!AllScored(rows, t, pairs, p) ==>
                  TrustFor(rows, t, pairs, p) == if low.Some? then Min(low.value, 50) else 50)
  {
    if pairs != [] {
      var n := |pairs| - 1;
      TrustIs(rows, t, pairs[..n], p);
      var r := Sent(rows, t, p, pairs[n]);
      hide TrustFor, LowestKnown, AllScored, Sent, Find;
      LastScore(rows, t, pairs, p, r);
      if r.None? {
        UnsentPair(rows, t, pairs, p);
      } else {
        SentPair(rows, t, pairs, p, r.value);
      }
    }
  }

  lemma LastScore(rows: seq<TrustRow>, t: string, pairs: Pairs, p: string, r: Option<TrustRow>)
    requires pairs != [] && r == Sent(rows, t, p, pairs[|pairs| - 1])
    ensures var init := pairs[..|pairs| - 1];
            && LowestKnown(rows, t, pairs, p) == LowerKnown(r, LowestKnown(rows, t, init, p))
            && (AllScored(rows, t, pairs, p) <==> (r.Some? ==> r.value.trust.Some?) && AllScored(rows, t, init, p))
  {
  }

  /** A row that was sent something keeps "the lower" trust, the least score there was, exactly when
      there was one and either every row had a score, the canonical row included, or it is at most 50. */
  lemma KeepsLowerTrustIff(rows: seq<TrustRow>, t: string, pairs: Pairs, p: string)
    requires DistinctAliases(pairs) && Flat(pairs)
    requires !IsAlias(pairs, p) && SentTo(rows, t, pairs, p) > 0
    ensures var low := LowestKnown(rows, t, pairs, p);
            var found := Find(Pass(rows, t, pairs), t, p);
            && found.Some?
            && (found.value.trust == low <==> low.Some? && (AllScored(rows, t, pairs, p) || low.value <= 50))
  {
    hide TrustFor, LowestKnown, AllScored, Find, Pass, SumFor, LastFor, KindAfter, IsAlias, SentTo, Flat,
      DistinctAliases;
    PassClosedForm(rows, t, pairs, p);
    TrustIs(rows, t, pairs, p);
  }

  // A row's score as it counts.
  function Score(r: Option<TrustRow>): int {
    if r.Some? && r.value.trust.Some? then r.value.trust.value else 50
  }

  /** The trust a pass leaves is a lower bound of the scores of the canonical row and of the alias rows
      sent to it, missing ones counting as 50, and one of them. */
  lemma {:induction false} TrustIsLeast(rows: seq<TrustRow>, t: string, pairs: Pairs, p: string)
    ensures var low := TrustFor(rows, t, pairs, p);
            && low <= Score(Find(rows, t, p))
            && (forall a | (a, p) in pairs && Find(rows, t, a).Some? :: low <= Score(Find(rows, t, a)))
            && (low == Score(Find(rows, t, p))
                || exists a :: (a, p) in pairs && Find(rows, t, a).Some? && low == Score(Find(rows, t, a)))
    decreases |pairs|
  {
    if pairs != [] {
      var n := |pairs| - 1;
      TrustIsLeast(rows, t, pairs[..n], p);
      OneMoreIn(pairs, p);
      var r := Sent(rows, t, p, pairs[n]);
      hide TrustFor, Find;
      if r.None? {
        UnsentPair(rows, t, pairs, p);
      } else {
        SentPair(rows, t, pairs, p, r.value);
      }
    }
  }

  lemma OneMoreIn(pairs: Pairs, p: string)
    requires pairs != []
    ensures var n := |pairs| - 1;
            forall a :: (a, p) in pairs <==> (a, p) in pairs[..n] || (a, p) == pairs[n]
  {
    assert pairs == pairs[..|pairs| - 1] + [pairs[|pairs| - 1]];
  }

  // The time of a row's last signal, if it has one.
  function LastOf(r: Option<TrustRow>): Option<int> {
    if r.Some? then r.value.last else None
  }

  predicate NotAfter(a: Option<int>, b: Option<int>) {
    a.Some? ==> b.Some? && a.value <= b.value
  }

  /** And the time it leaves is the latest of theirs, absent when none has one. */
  lemma {:induction false} LastIsLatest(rows: seq<TrustRow>, t: string, pairs: Pairs, p: string)
    ensures var last := LastFor(rows, t, pairs, p);
            && NotAfter(LastOf(Find(rows, t, p)), last)
            && (forall a | (a, p) in pairs :: NotAfter(LastOf(Find(rows, t, a)), last))
            && (last == LastOf(Find(rows, t, p)) || exists a :: (a, p) in pairs && last == LastOf(Find(rows, t, a)))
    decreases |pairs|
  {
    if pairs != [] {
      var n := |pairs| - 1;
      LastIsLatest(rows, t, pairs[..n], p);
      OneMoreIn(pairs, p);
      var r := Sent(rows, t, p, pairs[n]);
      hide LastFor, Find;
      if r.None? {
        UnsentPair(rows, t, pairs, p);
      } else {
        SentPair(rows, t, pairs, p, r.value);
      }
    }
  }

  // ── Order independence ─────────────────────────────────────────────

  // The two rows agree in everything a migration merges.
  ghost predicate SameMerged(a: Option<TrustRow>, b: Option<TrustRow>) {
    match (a, b)
    case (None, None) => true
    case (Some(r), Some(s)) =>
      && r.trust == s.trust && r.last == s.last && forall k :: Signals(r, k) == Signals(s, k)
    case _ => false
  }

  lemma SameSums(rows: seq<TrustRow>, t: string, pairs: Pairs, pairs': Pairs, p: string)
    requires multiset(pairs) == multiset(pairs')
    ensures SentTo(rows, t, pairs, p) == SentTo(rows, t, pairs', p)
    ensures TrustFor(rows, t, pairs, p) == TrustFor(rows, t, pairs', p)
    ensures LastFor(rows, t, pairs, p) == LastFor(rows, t, pairs', p)
    ensures forall k :: SumFor(rows, t, pairs, p, k) == SumFor(rows, t, pairs', p, k)
    ensures IsAlias(pairs, p) <==> IsAlias(pairs', p)
  {
    hide Find, Fold;
    FoldPermutation(CountSent(rows, t, p), 0, pairs, pairs');
    FoldPermutation(MinSent(rows, t, p), if Find(rows, t, p).Some? then TrustOf(Find(rows, t, p).value) else 50,
                    pairs, pairs');
    FoldPermutation(LatestSent(rows, t, p), if Find(rows, t, p).Some? then Find(rows, t, p).value.last else None,
                    pairs, pairs');
    forall k
      ensures SumFor(rows, t, pairs, p, k) == SumFor(rows, t, pairs', p, k)
    {
      FoldPermutation(AddSent(rows, t, p, k), Share(Find(rows, t, p), k), pairs, pairs');
    }
    SameAliases(pairs, pairs', p);
    SameAliases(pairs', pairs, p);
  }

  lemma SameAliases(pairs: Pairs, pairs': Pairs, p: string)
    requires multiset(pairs) == multiset(pairs')
    ensures IsAlias(pairs, p) ==> IsAlias(pairs', p)
  {
    if IsAlias(pairs, p) {
      var i :| 0 <= i < |pairs| && pairs[i].0 == p;
      assert pairs[i] in multiset(pairs');
    }
  }

  lemma FlatPermutation(pairs: Pairs, pairs': Pairs)
    requires multiset(pairs) == multiset(pairs')
    requires DistinctAliases(pairs) && Flat(pairs)
    ensures Flat(pairs')
  {
    forall i, j | 0 <= i < |pairs'| && 0 <= j < |pairs'|
      ensures pairs'[i].1 != pairs'[j].0
    {
      assert pairs'[i] in multiset(pairs) && pairs'[j] in multiset(pairs);
    }
  }

  /** Whatever order the aliases come in, a pass leaves the same trust, times and counts under the same ids. */
  lemma OrderIndependent(rows: seq<TrustRow>, t: string, pairs: Pairs, pairs': Pairs, p: string)
    requires DistinctAliases(pairs) && DistinctAliases(pairs') && Flat(pairs)
    requires multiset(pairs) == multiset(pairs')
    ensures SameMerged(Find(Pass(rows, t, pairs), t, p), Find(Pass(rows, t, pairs'), t, p))
  {
    hide SumFor, TrustFor, LastFor, SentTo, Find, Pass;
    FlatPermutation(pairs, pairs');
    PassClosedForm(rows, t, pairs, p);
    PassClosedForm(rows, t, pairs', p);
    SameSums(rows, t, pairs, pairs', p);
  }

  // The kind of the row a pass leaves under `p`, if any.
  function KindAt(rows: seq<TrustRow>, t: string, pairs: Pairs, p: string): Option<string> {
    var found := Find(Pass(rows, t, pairs), t, p);
    if found.Some? then Some(found.value.kind) else None
  }

  ghost predicate KindIgnoresOrder(rows: seq<TrustRow>, t: string, pairs: Pairs, p: string) {
    forall pairs': Pairs | multiset(pairs') == multiset(pairs) && DistinctAliases(pairs') ::
      KindAt(rows, t, pairs', p) == KindAt(rows, t, pairs, p)
  }

  // All alias rows sent to `p` give a new row the same kind.
  ghost predicate OneKindSent(rows: seq<TrustRow>, t: string, pairs: Pairs, p: string) {
    forall e, e' | e in pairs && e' in pairs && Sent(rows, t, p, e).Some? && Sent(rows, t, p, e').Some? ::
      KindFor(Sent(rows, t, p, e).value) == KindFor(Sent(rows, t, p, e').value)
  }

  lemma {:induction false} FirstSentIsSent(rows: seq<TrustRow>, t: string, pairs: Pairs, p: string)
    ensures FirstSent(rows, t, pairs, p).Some? ==>
              exists e :: e in pairs && Sent(rows, t, p, e) == FirstSent(rows, t, pairs, p)
    ensures FirstSent(rows, t, pairs, p).None? ==> forall e | e in pairs :: Sent(rows, t, p, e).None?
  {
    hide Sent;
    if pairs != [] {
      var n := |pairs| - 1;
      FirstSentIsSent(rows, t, pairs[..n], p);
      assert forall e :: e in pairs <==> e in pairs[..n] || e == pairs[n];
    }
  }

  lemma {:induction false} HeadIsFirstSent(rows: seq<TrustRow>, t: string, e: (string, string), pairs: Pairs, p: string)
    requires Sent(rows, t, p, e).Some?
    ensures FirstSent(rows, t, [e] + pairs, p) == Sent(rows, t, p, e)
  {
    hide Sent;
    var all := [e] + pairs;
    if pairs == [] {
      assert all == [e] && all[..0] == [];
    } else {
      var n := |pairs| - 1;
      HeadIsFirstSent(rows, t, e, pairs[..n], p);
      assert all[..n + 1] == [e] + pairs[..n];
    }
  }

  lemma KindOfPass(rows: seq<TrustRow>, t: string, pairs: Pairs, p: string)
    requires DistinctAliases(pairs) && Flat(pairs)
    ensures !IsAlias(pairs, p) && SentTo(rows, t, pairs, p) > 0 ==>
              KindAt(rows, t, pairs, p) == Some(KindAfter(rows, t, pairs, p))
    ensures !IsAlias(pairs, p) && SentTo(rows, t, pairs, p) == 0 ==>
              KindAt(rows, t, pairs, p) == if Find(rows, t, p).Some? then Some(Find(rows, t, p).value.kind) else None
    ensures IsAlias(pairs, p) ==> KindAt(rows, t, pairs, p) == None
  {
    hide SumFor, TrustFor, LastFor, SentTo, Find, Pass, KindAfter;
    PassClosedForm(rows, t, pairs, p);
  }

  // Any listed pair can be listed first.
  lemma MoveToFront(pairs: Pairs, e: (string, string)) returns (rest: Pairs)
    requires e in pairs && DistinctAliases(pairs)
    ensures multiset([e] + rest) == multiset(pairs) && DistinctAliases([e] + rest)
  {
    var i :| 0 <= i < |pairs| && pairs[i] == e;
    rest := pairs[..i] + pairs[i + 1..];
    WithoutOne(pairs, i);
    FrontIsDistinct(pairs, i, rest);
    hide DistinctAliases;
  }

  lemma FrontIsDistinct(pairs: Pairs, i: nat, rest: Pairs)
    requires i < |pairs| && DistinctAliases(pairs) && rest == pairs[..i] + pairs[i + 1..]
    ensures DistinctAliases([pairs[i]] + rest)
  {
    var all := [pairs[i]] + rest;
    forall j, k | 0 <= j < k < |all|
      ensures all[j].0 != all[k].0
    {
      assert all[k] == if k <= i then pairs[k - 1] else pairs[k];
      assert all[j] == if j == 0 then pairs[i] else if j <= i then pairs[j - 1] else pairs[j];
    }
  }

  /** The kind of the row a pass leaves is the same for every order of the alias list exactly when
      the canonical row was already there or every alias row sent to it gives the same kind. */
  lemma KindIgnoresOrderIff(rows: seq<TrustRow>, t: string, pairs: Pairs, p: string)
    requires DistinctAliases(pairs) && Flat(pairs)
    ensures KindIgnoresOrder(rows, t, pairs, p) <==> Find(rows, t, p).Some? || OneKindSent(rows, t, pairs, p)
  {
    hide Find, KindAt, Sent, Flat, DistinctAliases, IsAlias, SentTo, KindFor;
    if Find(rows, t, p).Some? || OneKindSent(rows, t, pairs, p) {
      forall pairs': Pairs | multiset(pairs') == multiset(pairs) && DistinctAliases(pairs')
        ensures KindAt(rows, t, pairs', p) == KindAt(rows, t, pairs, p)
      {
        SameKind(rows, t, pairs, pairs', p);
      }
    } else {
      var e, e' :| e in pairs && e' in pairs && Sent(rows, t, p, e).Some? && Sent(rows, t, p, e').Some?
                   && KindFor(Sent(rows, t, p, e).value) != KindFor(Sent(rows, t, p, e').value);
      var front := ListedFirst(rows, t, pairs, p, e);
      var front' := ListedFirst(rows, t, pairs, p, e');
      assert KindAt(rows, t, front, p) != KindAt(rows, t, front', p);
    }
  }

  lemma SameKind(rows: seq<TrustRow>, t: string, pairs: Pairs, pairs': Pairs, p: string)
    requires DistinctAliases(pairs) && DistinctAliases(pairs') && Flat(pairs)
    requires multiset(pairs') == multiset(pairs)
    requires Find(rows, t, p).Some? || OneKindSent(rows, t, pairs, p)
    ensures KindAt(rows, t, pairs', p) == KindAt(rows, t, pairs, p)
  {
    hide Find, KindAt, Sent, Flat, DistinctAliases, IsAlias, SentTo, KindFor;
    FlatPermutation(pairs, pairs');
    KindOfPass(rows, t, pairs, p);
    KindOfPass(rows, t, pairs', p);
    SameSums(rows, t, pairs, pairs', p);
    FirstSentIsSent(rows, t, pairs, p);
    FirstSentIsSent(rows, t, pairs', p);
    FirstSentWhenSent(rows, t, pairs, p);
    FirstSentWhenSent(rows, t, pairs', p);
    assert forall e :: e in pairs' <==> e in multiset(pairs');
  }

  lemma ListedFirst(rows: seq<TrustRow>, t: string, pairs: Pairs, p: string, e: (string, string)) returns (front: Pairs)
    requires DistinctAliases(pairs) && Flat(pairs) && Find(rows, t, p).None?
    requires e in pairs && Sent(rows, t, p, e).Some?
    ensures multiset(front) == multiset(pairs) && DistinctAliases(front)
    ensures KindAt(rows, t, front, p) == Some(KindFor(Sent(rows, t, p, e).value))
  {
    hide Find, KindAt, DistinctAliases, SentTo, KindFor;
    var rest := MoveToFront(pairs, e);
    front := [e] + rest;
    FlatPermutation(pairs, front);
    HeadIsFirstSent(rows, t, e, rest, p);
    FirstSentWhenSent(rows, t, front, p);
    assert front[0] == e && e.1 == p;
    KindOfPass(rows, t, front, p);
  }

  /** Rows of other tenants are left exactly as they are, in place. */
  function Others(rows: seq<TrustRow>, t: string): seq<TrustRow> {
    if rows == [] then []
    else if rows[0].tenant == t then Others(rows[1..], t)
    else [rows[0]] + Others(rows[1..], t)
  }

  lemma {:induction false} OthersStep(rows: seq<TrustRow>, t: string, p: string, m: Merged)
    ensures Others(Update(rows, t, p, m), t) == Others(rows, t)
    ensures Others(Delete(rows, t, p), t) == Others(rows, t)
  {
    if rows != [] {
      OthersStep(rows[1..], t, p, m);
    }
  }

  lemma {:induction false} OthersAppend(rows: seq<TrustRow>, r: TrustRow, t: string)
    requires r.tenant == t
    ensures Others(rows + [r], t) == Others(rows, t)
  {
    if rows == [] {
      assert rows + [r] == [r];
    } else {
      OthersAppend(rows[1..], r, t);
      assert (rows + [r])[1..] == rows[1..] + [r];
    }
  }

  lemma {:induction false} OtherTenantsUntouched(rows: seq<TrustRow>, t: string, pairs: Pairs)
    ensures Others(Pass(rows, t, pairs), t) == Others(rows, t)
  {
    if pairs != [] {
      var n := |pairs| - 1;
      OtherTenantsUntouched(rows, t, pairs[..n]);
      var here, a, c := Pass(rows, t, pairs[..n]), pairs[n].0, pairs[n].1;
      if Find(here, t, a).Some? {
        var src, dst := Find(here, t, a).value, Find(here, t, c);
        var m := Merge(src, dst);
        OthersStep(here, t, c, m);
        OthersAppend(here, NewRow(t, c, src, m), t);
        OthersStep(Update(here, t, c, m), t, a, m);
        OthersStep(here + [NewRow(t, c, src, m)], t, a, m);
      }
    }
  }
}
