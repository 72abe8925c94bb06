/** What an iteration does to lookups and to the signal totals of any trust table, and on exactly
    which tables a whole migration keeps every signal. */
module AliasBalance {
  import opened AliasMigration
  import opened Common

  // ── How the SQL statements act on lookups ──────────────────────────

  lemma {:induction false} FindUpdate(rows: seq<TrustRow>, t: string, c: string, m: Merged, t': string, p: string)
    ensures Find(Update(rows, t, c, m), t', p) ==
            match Find(rows, t', p)
            case None => None
            case Some(r) => Some(if t' == t && p == c then Rewritten(r, m) else r)
  {
    if rows != [] {
      FindUpdate(rows[1..], t, c, m, t', p);
    }
  }

  lemma {:induction false} FindDelete(rows: seq<TrustRow>, t: string, a: string, t': string, p: string)
    ensures Find(Delete(rows, t, a), t', p) == if t' == t && p == a then None else Find(rows, t', p)
  {
    if rows != [] {
      FindDelete(rows[1..], t, a, t', p);
    }
  }

  lemma {:induction false} FindAppend(rows: seq<TrustRow>, r: TrustRow, t: string, p: string)
    ensures Find(rows + [r], t, p) ==
            if Find(rows, t, p).Some? then Find(rows, t, p) else if Matches(r, t, p) then Some(r) else None
  {
    if rows != [] {
      FindAppend(rows[1..], r, t, p);
      assert (rows + [r])[1..] == rows[1..] + [r];
    }
  }

  // The row a merge leaves under the canonical key.
  function MergedRow(t: string, c: string, src: TrustRow, dst: Option<TrustRow>): TrustRow {
    if dst.Some? then Rewritten(dst.value, Merge(src, dst)) else NewRow(t, c, src, Merge(src, dst))
  }

  /** Every lookup after one iteration, for any table and any pair. */
  lemma FindStep(rows: seq<TrustRow>, t: string, a: string, c: string, t': string, p: string)
    requires Find(rows, t, a).Some?
    ensures Find(Step(rows, t, a, c), t', p) ==
            if t' == t && p == a then None
            else if t' == t && p == c then Some(MergedRow(t, c, Find(rows, t, a).value, Find(rows, t, c)))
            else Find(rows, t', p)
  {
    var src, dst := Find(rows, t, a).value, Find(rows, t, c);
    var m := Merge(src, dst);
    if dst.Some? {
      FindUpdate(rows, t, c, m, t', p);
      FindDelete(Update(rows, t, c, m), t, a, t', p);
    } else {
      FindAppend(rows, NewRow(t, c, src, m), t', p);
      FindDelete(rows + [NewRow(t, c, src, m)], t, a, t', p);
    }
  }

  lemma StepNothing(rows: seq<TrustRow>, t: string, a: string, c: string)
    requires Find(rows, t, a).None?
    ensures Step(rows, t, a, c) == rows
  {
  }

  // ── The balance of one iteration ───────────────────────────────────

  /** Signals of one kind over all rows of a tenant. */
  function Total(rows: seq<TrustRow>, tenant: string, kind: string): int {
    if rows == [] then 0
    else (if rows[0].tenant == tenant then Signals(rows[0], kind) else 0) + Total(rows[1..], tenant, kind)
  }

  /** The rows under one id, one per principal kind; the key of the table admits any number. */
  function Of(rows: seq<TrustRow>, tenant: string, pid: string): (r: seq<TrustRow>)
    ensures forall x | x in r :: x in rows && Matches(x, tenant, pid)
  {
    if rows == [] then []
    else if Matches(rows[0], tenant, pid) then [rows[0]] + Of(rows[1..], tenant, pid)
    else Of(rows[1..], tenant, pid)
  }

  function Share(r: Option<TrustRow>, kind: string): int {
    if r.Some? then Signals(r.value, kind) else 0
  }

  // SELECT takes the first of them.
  lemma {:induction false} FindIsFirst(rows: seq<TrustRow>, t: string, p: string)
    ensures Find(rows, t, p) == if Of(rows, t, p) == [] then None else Some(Of(rows, t, p)[0])
  {
    if rows != [] {
      FindIsFirst(rows[1..], t, p);
    }
  }

  lemma {:induction false} TotalUpdate(rows: seq<TrustRow>, t: string, c: string, m: Merged, t': string, k: string)
    ensures Total(Update(rows, t, c, m), t', k) ==
            Total(rows, t', k)
            + if t' == t then |Of(rows, t, c)| * Value(m.counts, k) - Total(Of(rows, t, c), t, k) else 0
  {
    if rows != [] {
      TotalUpdate(rows[1..], t, c, m, t', k);
      var rest := Of(rows[1..], t, c);
      if Matches(rows[0], t, c) {
        assert ([rows[0]] + rest)[1..] == rest;
        assert (1 + |rest|) * Value(m.counts, k) == Value(m.counts, k) + |rest| * Value(m.counts, k);
      }
    }
  }

  lemma {:induction false} TotalDelete(rows: seq<TrustRow>, t: string, a: string, t': string, k: string)
    ensures Total(Delete(rows, t, a), t', k) == Total(rows, t', k) - if t' == t then Total(Of(rows, t, a), t, k) else 0
  {
    if rows != [] {
      TotalDelete(rows[1..], t, a, t', k);
      var rest := Of(rows[1..], t, a);
      assert ([rows[0]] + rest)[1..] == rest;
    }
  }

  lemma {:induction false} TotalAppend(rows: seq<TrustRow>, r: TrustRow, t: string, k: string)
    ensures Total(rows + [r], t, k) == Total(rows, t, k) + (if r.tenant == t then Signals(r, k) else 0)
  {
    if rows == [] {
      assert rows + [r] == [r];
    } else {
      TotalAppend(rows[1..], r, t, k);
      assert (rows + [r])[1..] == rows[1..] + [r];
    }
  }

  // What the statements leave under each id.
  lemma {:induction false} OfUpdate(rows: seq<TrustRow>, t: string, c: string, m: Merged, p: string)
    ensures p != c ==> Of(Update(rows, t, c, m), t, p) == Of(rows, t, p)
    ensures |Of(Update(rows, t, c, m), t, c)| == |Of(rows, t, c)|
    ensures forall r | r in Of(Update(rows, t, c, m), t, c) :: r.counts == Some(m.counts)
  {
    if rows != [] {
      OfUpdate(rows[1..], t, c, m, p);
    }
  }

  lemma {:induction false} OfDelete(rows: seq<TrustRow>, t: string, a: string, p: string)
    ensures Of(Delete(rows, t, a), t, p) == if p == a then [] else Of(rows, t, p)
  {
    if rows != [] {
      OfDelete(rows[1..], t, a, p);
    }
  }

  lemma {:induction false} OfAppend(rows: seq<TrustRow>, r: TrustRow, t: string, p: string)
    ensures Of(rows + [r], t, p) == Of(rows, t, p) + if Matches(r, t, p) then [r] else []
  {
    if rows == [] {
      assert rows + [r] == [r];
    } else {
      OfAppend(rows[1..], r, t, p);
      assert (rows + [r])[1..] == rows[1..] + [r];
    }
  }

  // The signals of an iteration's merge, for one kind.
  function Moved(rows: seq<TrustRow>, t: string, a: string, c: string, k: string): int {
    Share(Find(rows, t, a), k) + Share(Find(rows, t, c), k)
  }

  /** What an iteration does to the totals of any table: the alias rows go, and every row already
      under the canonical id, or a new one, is given the signals of the first alias row and the
      first canonical row. */
  lemma StepBalance(rows: seq<TrustRow>, t: string, a: string, c: string, t': string, k: string)
    ensures Total(Step(rows, t, a, c), t', k) - Total(rows, t', k) ==
            if t' != t || Of(rows, t, a) == [] then 0
            else if a == c then -Total(Of(rows, t, a), t, k)
            else (if Of(rows, t, c) == [] then Moved(rows, t, a, c, k) else |Of(rows, t, c)| * Moved(rows, t, a, c, k))
                 - Total(Of(rows, t, a), t, k) - Total(Of(rows, t, c), t, k)
  {
    FindIsFirst(rows, t, a);
    FindIsFirst(rows, t, c);
    hide Total, Of, Find;
    if Of(rows, t, a) != [] {
      var src, dst := Find(rows, t, a).value, Find(rows, t, c);
      var m := Merge(src, dst);
      assert Value(m.counts, k) == Moved(rows, t, a, c, k);
      if dst.Some? {
        TotalUpdate(rows, t, c, m, t', k);
        TotalDelete(Update(rows, t, c, m), t, a, t', k);
        if a == c {
          SelfUpdated(rows, t, a, m, k);
        } else {
          OfUpdate(rows, t, c, m, a);
        }
      } else {
        var r := NewRow(t, c, src, m);
        TotalAppend(rows, r, t', k);
        TotalDelete(rows + [r], t, a, t', k);
        OfAppend(rows, r, t, a);
        assert Of(rows, t, a) + [] == Of(rows, t, a);
        TotalOfNone(t, k);
      }
    }
  }

  lemma TotalOfNone(t: string, k: string)
    ensures Total([], t, k) == 0
  {
  }

  lemma {:induction false} SelfUpdated(rows: seq<TrustRow>, t: string, a: string, m: Merged, k: string)
    ensures Total(Of(Update(rows, t, a, m), t, a), t, k) == |Of(rows, t, a)| * Value(m.counts, k)
  {
    if rows != [] {
      SelfUpdated(rows[1..], t, a, m, k);
      var rest := Of(Update(rows[1..], t, a, m), t, a);
      var n := |Of(rows[1..], t, a)|;
      if Matches(rows[0], t, a) {
        assert ([Rewritten(rows[0], m)] + rest)[1..] == rest;
        assert (1 + n) * Value(m.counts, k) == Value(m.counts, k) + n * Value(m.counts, k);
      }
    }
  }

  /** How many rows an iteration leaves under an id. */
  lemma StepCounts(rows: seq<TrustRow>, t: string, a: string, c: string, p: string)
    ensures |Of(Step(rows, t, a, c), t, p)| ==
            if Of(rows, t, a) == [] then |Of(rows, t, p)|
            else if p == a then 0
            else if p == c && Of(rows, t, c) == [] then 1
            else |Of(rows, t, p)|
    ensures Of(rows, t, a) == [] || (p != a && p != c) ==> Of(Step(rows, t, a, c), t, p) == Of(rows, t, p)
  {
    FindIsFirst(rows, t, a);
    FindIsFirst(rows, t, c);
    hide Of, Find, Merge;
    if Of(rows, t, a) != [] {
      var src, dst := Find(rows, t, a).value, Find(rows, t, c);
      var m := Merge(src, dst);
      if dst.Some? {
        OfUpdate(rows, t, c, m, p);
        OfDelete(Update(rows, t, c, m), t, a, p);
      } else {
        OfAppend(rows, NewRow(t, c, src, m), t, p);
        OfDelete(rows + [NewRow(t, c, src, m)], t, a, p);
        assert Of(rows, t, p) + [] == Of(rows, t, p);
      }
    }
  }

  // ── Conservation, on exactly which tables ──────────────────────────

  /** Nothing to move, or one alias row moving to another id with at most one row. */
  predicate StepSafe(rows: seq<TrustRow>, t: string, a: string, c: string) {
    Of(rows, t, a) == [] || (a != c && |Of(rows, t, a)| == 1 && |Of(rows, t, c)| <= 1)
  }

  /** Every iteration of the pass finds that. */
  ghost predicate PassSafe(rows: seq<TrustRow>, t: string, pairs: Pairs) {
    pairs == [] ||
    (var n := |pairs| - 1;
     PassSafe(rows, t, pairs[..n]) && StepSafe(Pass(rows, t, pairs[..n]), t, pairs[n].0, pairs[n].1))
  }

  lemma StepConserves(rows: seq<TrustRow>, t: string, a: string, c: string, t': string, k: string)
    requires StepSafe(rows, t, a, c)
    ensures Total(Step(rows, t, a, c), t', k) == Total(rows, t', k)
  {
    hide Total, Of, Step, Share, Find;
    StepBalance(rows, t, a, c, t', k);
    if Of(rows, t, a) != [] {
      TotalOfFew(rows, t, a, k);
      TotalOfFew(rows, t, c, k);
      if Of(rows, t, c) != [] {
        assert |Of(rows, t, c)| * Moved(rows, t, a, c, k) == Moved(rows, t, a, c, k);
      }
    }
  }

  lemma TotalOfFew(rows: seq<TrustRow>, t: string, p: string, k: string)
    requires |Of(rows, t, p)| <= 1
    ensures Total(Of(rows, t, p), t, k) == Share(Find(rows, t, p), k)
  {
    hide Of, Find, Signals;
    FindIsFirst(rows, t, p);
    if Of(rows, t, p) != [] {
      assert Of(rows, t, p)[1..] == [] && Of(rows, t, p)[0] in Of(rows, t, p);
    }
  }

  lemma {:induction false} PassConserves(rows: seq<TrustRow>, t: string, pairs: Pairs, t': string, k: string)
    requires PassSafe(rows, t, pairs)
    ensures Total(Pass(rows, t, pairs), t', k) == Total(rows, t', k)
  {
    hide Total, StepSafe;
    if pairs != [] {
      var n := |pairs| - 1;
      PassConserves(rows, t, pairs[..n], t', k);
      StepConserves(Pass(rows, t, pairs[..n]), t, pairs[n].0, pairs[n].1, t', k);
    }
  }

  /** Wherever a run stops, the table it has committed holds every signal it started with. */
  lemma {:induction false} EveryCommitConserves(rows: seq<TrustRow>, t: string, pairs: Pairs, t': string, k: string)
    requires PassSafe(rows, t, pairs)
    ensures forall s | s in Commits(rows, t, pairs) :: Total(s, t', k) == Total(rows, t', k)
  {
    hide Total, StepSafe;
    if pairs != [] {
      var n := |pairs| - 1;
      EveryCommitConserves(rows, t, pairs[..n], t', k);
      PassConserves(rows, t, pairs, t', k);
    }
  }

  // ── Every other table loses or invents signals for some contents ───

  // The same keys row by row; contents may differ.
  ghost predicate SameShape(rows: seq<TrustRow>, rows': seq<TrustRow>) {
    |rows| == |rows'| && forall i | 0 <= i < |rows| :: SameKey(rows[i], rows'[i])
  }

  predicate SameKey(r: TrustRow, s: TrustRow) {
    r.tenant == s.tenant && r.kind == s.kind && r.pid == s.pid
  }

  lemma {:induction false} ShapeOf(rows: seq<TrustRow>, rows': seq<TrustRow>, t: string, p: string)
    requires SameShape(rows, rows')
    ensures SameShape(Of(rows, t, p), Of(rows', t, p))
  {
    if rows != [] {
      assert SameKey(rows[0], rows'[0]);
      ShapeTail(rows, rows');
      ShapeOf(rows[1..], rows'[1..], t, p);
    }
  }

  lemma ShapeTail(rows: seq<TrustRow>, rows': seq<TrustRow>)
    requires SameShape(rows, rows') && rows != []
    ensures SameShape(rows[1..], rows'[1..])
  {
    forall i | 0 <= i < |rows| - 1
      ensures SameKey(rows[1..][i], rows'[1..][i])
    {
      assert SameKey(rows[i + 1], rows'[i + 1]);
    }
  }

  lemma {:induction false} ShapeUpdate(rows: seq<TrustRow>, rows': seq<TrustRow>, t: string, c: string, m: Merged,
                                       m': Merged)
    requires SameShape(rows, rows')
    ensures SameShape(Update(rows, t, c, m), Update(rows', t, c, m'))
  {
    if rows != [] {
      assert SameKey(rows[0], rows'[0]);
      ShapeTail(rows, rows');
      ShapeUpdate(rows[1..], rows'[1..], t, c, m, m');
    }
  }

  lemma {:induction false} ShapeDelete(rows: seq<TrustRow>, rows': seq<TrustRow>, t: string, a: string)
    requires SameShape(rows, rows')
    ensures SameShape(Delete(rows, t, a), Delete(rows', t, a))
  {
    if rows != [] {
      assert SameKey(rows[0], rows'[0]);
      ShapeTail(rows, rows');
      ShapeDelete(rows[1..], rows'[1..], t, a);
    }
  }

  lemma ShapeStep(rows: seq<TrustRow>, rows': seq<TrustRow>, t: string, a: string, c: string)
    requires SameShape(rows, rows')
    ensures SameShape(Step(rows, t, a, c), Step(rows', t, a, c))
    ensures StepSafe(rows, t, a, c) <==> StepSafe(rows', t, a, c)
  {
    ShapeOf(rows, rows', t, a);
    ShapeOf(rows, rows', t, c);
    FindIsFirst(rows, t, a);
    FindIsFirst(rows, t, c);
    FindIsFirst(rows', t, a);
    FindIsFirst(rows', t, c);
    hide Of, Find, Merge;
    if Of(rows, t, a) != [] {
      assert SameKey(Of(rows, t, a)[0], Of(rows', t, a)[0]);
      var src, src' := Find(rows, t, a).value, Find(rows', t, a).value;
      var m, m' := Merge(src, Find(rows, t, c)), Merge(src', Find(rows', t, c));
      if Find(rows, t, c).Some? {
        ShapeUpdate(rows, rows', t, c, m, m');
        ShapeDelete(Update(rows, t, c, m), Update(rows', t, c, m'), t, a);
      } else {
        ShapeDelete(rows + [NewRow(t, c, src, m)], rows' + [NewRow(t, c, src', m')], t, a);
      }
    }
  }

  lemma {:induction false} ShapePass(rows: seq<TrustRow>, rows': seq<TrustRow>, t: string, pairs: Pairs)
    requires SameShape(rows, rows')
    ensures SameShape(Pass(rows, t, pairs), Pass(rows', t, pairs))
    ensures PassSafe(rows, t, pairs) <==> PassSafe(rows', t, pairs)
  {
    hide SameShape, Step, StepSafe;
    if pairs != [] {
      var n := |pairs| - 1;
      ShapePass(rows, rows', t, pairs[..n]);
      ShapeStep(Pass(rows, t, pairs[..n]), Pass(rows', t, pairs[..n]), t, pairs[n].0, pairs[n].1);
    }
  }

  // Signals of one kind sit, if anywhere in the tenant, under one id.
  ghost predicate ZeroBut(rows: seq<TrustRow>, t: string, q: Option<string>, k: string) {
    forall r | r in rows && r.tenant == t && (q.None? || r.pid != q.value) :: Signals(r, k) == 0
  }

  // The rows of the tenant after an iteration that moves something.
  lemma StepRows(rows: seq<TrustRow>, t: string, a: string, c: string, k: string)
    requires Of(rows, t, a) != []
    ensures forall r | r in Step(rows, t, a, c) && r.tenant == t ::
              r.pid != a && if r.pid == c then Signals(r, k) == Moved(rows, t, a, c, k) else r in rows
  {
    FindIsFirst(rows, t, a);
    var src, dst := Find(rows, t, a).value, Find(rows, t, c);
    var m := Merge(src, dst);
    var written := if dst.Some? then Update(rows, t, c, m) else rows + [NewRow(t, c, src, m)];
    assert Value(m.counts, k) == Moved(rows, t, a, c, k);
    UpdateRows(rows, t, c, m);
    DeleteRows(written, t, a);
    assert dst.None? ==> forall r | r in rows :: !Matches(r, t, c);
  }

  lemma {:induction false} UpdateRows(rows: seq<TrustRow>, t: string, c: string, m: Merged)
    ensures forall r | r in Update(rows, t, c, m) :: if Matches(r, t, c) then r.counts == Some(m.counts) else r in rows
  {
    if rows != [] {
      UpdateRows(rows[1..], t, c, m);
    }
  }

  lemma {:induction false} DeleteRows(rows: seq<TrustRow>, t: string, a: string)
    ensures forall r | r in Delete(rows, t, a) :: r in rows && !Matches(r, t, a)
  {
    if rows != [] {
      DeleteRows(rows[1..], t, a);
    }
  }

  // Shares of ids outside q are zero, and so is what an iteration between such ids moves.
  lemma ZeroStep(rows: seq<TrustRow>, t: string, a: string, c: string, q: Option<string>, k: string)
    requires ZeroBut(rows, t, q, k)
    requires Of(rows, t, a) != [] ==> Moved(rows, t, a, c, k) == 0 || q == Some(c)
    ensures ZeroBut(Step(rows, t, a, c), t, q, k)
  {
    FindIsFirst(rows, t, a);
    hide Of, Moved;
    if Of(rows, t, a) != [] {
      hide Step;
      StepRows(rows, t, a, c, k);
    }
  }

  lemma ZeroShare(rows: seq<TrustRow>, t: string, p: string, q: Option<string>, k: string)
    requires ZeroBut(rows, t, q, k) && q != Some(p)
    ensures Share(Find(rows, t, p), k) == 0
  {
  }

  lemma {:induction false} NothingReturns(rows: seq<TrustRow>, t: string, pairs: Pairs, n: nat, k: string)
    requires n <= |pairs| && ZeroBut(Pass(rows, t, pairs[..n]), t, None, k)
    ensures ZeroBut(Pass(rows, t, pairs), t, None, k)
    decreases |pairs|
  {
    hide ZeroBut, Step, Moved;
    if n == |pairs| {
      assert pairs[..n] == pairs;
    } else {
      var l := |pairs| - 1;
      assert pairs[..l][..n] == pairs[..n];
      NothingReturns(rows, t, pairs[..l], n, k);
      var here, a, c := Pass(rows, t, pairs[..l]), pairs[l].0, pairs[l].1;
      ZeroShare(here, t, a, None, k);
      ZeroShare(here, t, c, None, k);
      assert Moved(here, t, a, c, k) == 0 by {
        MovedIs(here, t, a, c, k);
      }
      ZeroStep(here, t, a, c, None, k);
    }
  }

  lemma MovedIs(rows: seq<TrustRow>, t: string, a: string, c: string, k: string)
    ensures Moved(rows, t, a, c, k) == Share(Find(rows, t, a), k) + Share(Find(rows, t, c), k)
  {
  }

  lemma {:induction false} ZeroTotal(rows: seq<TrustRow>, t: string, k: string)
    requires ZeroBut(rows, t, None, k)
    ensures Total(rows, t, k) == 0
  {
    if rows != [] {
      ZeroTotal(rows[1..], t, k);
    }
  }

  lemma {:induction false} TotalUnder(rows: seq<TrustRow>, t: string, q: string, k: string)
    requires ZeroBut(rows, t, Some(q), k)
    ensures Total(rows, t, k) == Total(Of(rows, t, q), t, k)
  {
    if rows != [] {
      TotalUnder(rows[1..], t, q, k);
      var rest := Of(rows[1..], t, q);
      assert ([rows[0]] + rest)[1..] == rest;
    }
  }

  // An id that has rows of two kinds after safe iterations was never touched by them.
  lemma {:induction false} TwoKindsUntouched(rows: seq<TrustRow>, t: string, pairs: Pairs, q: string, k: string)
    requires PassSafe(rows, t, pairs) && |Of(Pass(rows, t, pairs), t, q)| >= 2
    ensures Of(Pass(rows, t, pairs), t, q) == Of(rows, t, q)
    ensures ZeroBut(rows, t, Some(q), k) ==> ZeroBut(Pass(rows, t, pairs), t, Some(q), k)
  {
    hide ZeroBut, Step, Moved, Of;
    if pairs != [] {
      var n := |pairs| - 1;
      var here, a, c := Pass(rows, t, pairs[..n]), pairs[n].0, pairs[n].1;
      StepCounts(here, t, a, c, q);
      StepCounts(here, t, a, c, c);
      TwoKindsUntouched(rows, t, pairs[..n], q, k);
      if ZeroBut(rows, t, Some(q), k) {
        if Of(here, t, a) != [] {
          ZeroShare(here, t, a, Some(q), k);
          ZeroShare(here, t, c, Some(q), k);
          MovedIs(here, t, a, c, k);
        }
        ZeroStep(here, t, a, c, Some(q), k);
      }
    }
  }

  // The table with one kind of signal only: `first` on the first row of q, `others` on its others.
  function Fill(rows: seq<TrustRow>, t: string, q: string, k: string, first: int, others: int): seq<TrustRow> {
    if rows == [] then []
    else if Matches(rows[0], t, q)
    then [rows[0].(counts := Some(map[k := Some(first)]))] + Fill(rows[1..], t, q, k, others, others)
    else [rows[0].(counts := None)] + Fill(rows[1..], t, q, k, first, others)
  }

  lemma {:induction false} FillShape(rows: seq<TrustRow>, t: string, q: string, k: string, first: int, others: int)
    ensures SameShape(rows, Fill(rows, t, q, k, first, others))
  {
    if rows != [] {
      FillShape(rows[1..], t, q, k, if Matches(rows[0], t, q) then others else first, others);
      var rest := Fill(rows[1..], t, q, k, if Matches(rows[0], t, q) then others else first, others);
      assert forall i | 0 <= i < |rest| :: SameKey(rows[1..][i], rest[i]);
    }
  }

  lemma {:induction false} FillZero(rows: seq<TrustRow>, t: string, q: string, k: string, first: int, others: int)
    ensures ZeroBut(Fill(rows, t, q, k, first, others), t, Some(q), k)
  {
    if rows != [] {
      FillZero(rows[1..], t, q, k, if Matches(rows[0], t, q) then others else first, others);
    }
  }

  lemma {:induction false} FillUnder(rows: seq<TrustRow>, t: string, q: string, k: string, first: int, others: int)
    ensures var under := Of(Fill(rows, t, q, k, first, others), t, q);
            && |under| == |Of(rows, t, q)|
            && (under != [] ==> Signals(under[0], k) == first
                                && Total(under, t, k) == first + (|under| - 1) * others)
  {
    if rows != [] {
      hide Signals;
      var more := if Matches(rows[0], t, q) then others else first;
      FillUnder(rows[1..], t, q, k, more, others);
      if Matches(rows[0], t, q) {
        var rest := Of(Fill(rows[1..], t, q, k, more, others), t, q);
        var r := rows[0].(counts := Some(map[k := Some(first)]));
        assert ([r] + rest)[1..] == rest;
        OneSignal(rows[0], k, first);
        FillOne(rest, t, k, others);
      }
    }
  }

  lemma OneSignal(r: TrustRow, k: string, n: int)
    ensures Signals(r.(counts := Some(map[k := Some(n)])), k) == n
  {
  }

  lemma FillOne(rest: seq<TrustRow>, t: string, k: string, others: int)
    ensures rest == [] ==> Total(rest, t, k) == 0
    ensures others + (|rest| - 1) * others == |rest| * others
  {
  }

  lemma FillFills(rows: seq<TrustRow>, t: string, q: string, k: string, first: int, others: int)
    ensures SameShape(rows, Fill(rows, t, q, k, first, others))
    ensures ZeroBut(Fill(rows, t, q, k, first, others), t, Some(q), k)
    ensures var under := Of(Fill(rows, t, q, k, first, others), t, q);
            && |under| == |Of(rows, t, q)|
            && (under != [] ==> Signals(under[0], k) == first
                                && Total(under, t, k) == first + (|under| - 1) * others)
  {
    hide *;
    FillShape(rows, t, q, k, first, others);
    FillZero(rows, t, q, k, first, others);
    FillUnder(rows, t, q, k, first, others);
  }

  // Contents that, after safe iterations, leave a single signal, under the single row of q.
  lemma {:induction false} Origin(rows: seq<TrustRow>, t: string, pairs: Pairs, q: string, k: string)
    returns (rows': seq<TrustRow>)
    requires PassSafe(rows, t, pairs) && |Of(Pass(rows, t, pairs), t, q)| == 1
    ensures SameShape(rows, rows')
    ensures ZeroBut(Pass(rows', t, pairs), t, Some(q), k) && Share(Find(Pass(rows', t, pairs), t, q), k) == 1
  {
    hide ZeroBut, Step, Moved, Of, Fill, Share, Find, SameShape;
    if pairs == [] {
      rows' := Fill(rows, t, q, k, 1, 0);
      FillFills(rows, t, q, k, 1, 0);
      FirstShare(rows', t, q, k);
    } else {
      var n := |pairs| - 1;
      var here, a, c := Pass(rows, t, pairs[..n]), pairs[n].0, pairs[n].1;
      StepCounts(here, t, a, c, q);
      StepCounts(here, t, a, c, c);
      var from := if Of(here, t, a) != [] && q == c then a else q;
      rows' := Origin(rows, t, pairs[..n], from, k);
      ShapePass(rows, rows', t, pairs[..n]);
      var here' := Pass(rows', t, pairs[..n]);
      ShapeOf(here, here', t, a);
      ShapeSize(Of(here, t, a), Of(here', t, a));
      OriginStep(here', t, a, c, from, q, k);
    }
  }

  lemma ShapeSize(rows: seq<TrustRow>, rows': seq<TrustRow>)
    requires SameShape(rows, rows')
    ensures |rows| == |rows'|
  {
  }

  lemma FirstShare(rows: seq<TrustRow>, t: string, q: string, k: string)
    requires Of(rows, t, q) != []
    ensures Share(Find(rows, t, q), k) == Signals(Of(rows, t, q)[0], k)
  {
    FindIsFirst(rows, t, q);
  }

  // A single signal under `from` is under q after the iteration.
  lemma OriginStep(rows: seq<TrustRow>, t: string, a: string, c: string, from: string, q: string, k: string)
    requires ZeroBut(rows, t, Some(from), k) && Share(Find(rows, t, from), k) == 1
    requires Of(rows, t, a) != [] ==> a != c && q != a && from == if q == c then a else q
    requires Of(rows, t, a) == [] ==> from == q
    ensures ZeroBut(Step(rows, t, a, c), t, Some(q), k) && Share(Find(Step(rows, t, a, c), t, q), k) == 1
  {
    hide ZeroBut, Step, Of;
    FindIsFirst(rows, t, a);
    if Of(rows, t, a) == [] {
      StepNothing(rows, t, a, c);
    } else {
      FindStep(rows, t, a, c, t, q);
      StepSignals(rows, t, a, c, from, q, k);
    }
  }

  lemma StepSignals(rows: seq<TrustRow>, t: string, a: string, c: string, from: string, q: string, k: string)
    requires ZeroBut(rows, t, Some(from), k) && Of(rows, t, a) != []
    requires a != c && q != a && from == if q == c then a else q
    ensures ZeroBut(Step(rows, t, a, c), t, Some(q), k)
    ensures q == c ==> Share(Find(rows, t, c), k) == 0
  {
    StepRows(rows, t, a, c, k);
    ZeroShare(rows, t, c, Some(if q == c then a else q), k) ;
    if q != c {
      ZeroShare(rows, t, a, Some(q), k);
    }
    hide Step, Of, Find;
  }

  // The contents keep every total of the tenant through the pass.
  ghost predicate KeepsTotals(rows: seq<TrustRow>, t: string, pairs: Pairs) {
    forall k :: Total(Pass(rows, t, pairs), t, k) == Total(rows, t, k)
  }

  ghost predicate AllContentsKept(rows: seq<TrustRow>, t: string, pairs: Pairs) {
    forall rows' | SameShape(rows, rows') :: KeepsTotals(rows', t, pairs)
  }

  /** For any alias list and any table: whatever its rows hold, a pass keeps every signal total,
      exactly when each iteration finds no alias row, or one alias row, under an id other than the
      canonical one, and at most one canonical row. */
  lemma PassConservesIff(rows: seq<TrustRow>, t: string, pairs: Pairs)
    ensures AllContentsKept(rows, t, pairs) <==> PassSafe(rows, t, pairs)
  {
    hide SameShape, PassSafe, KeepsTotals;
    if PassSafe(rows, t, pairs) {
      forall rows' | SameShape(rows, rows')
        ensures KeepsTotals(rows', t, pairs)
      {
        SafeKeepsContents(rows, rows', t, pairs);
      }
    } else {
      var rows' := UnsafeLosesContents(rows, t, pairs);
    }
  }

  lemma SafeKeepsContents(rows: seq<TrustRow>, rows': seq<TrustRow>, t: string, pairs: Pairs)
    requires PassSafe(rows, t, pairs) && SameShape(rows, rows')
    ensures KeepsTotals(rows', t, pairs)
  {
    hide Total, SameShape, PassSafe, Pass;
    ShapePass(rows, rows', t, pairs);
    forall k
      ensures Total(Pass(rows', t, pairs), t, k) == Total(rows', t, k)
    {
      PassConserves(rows', t, pairs, t, k);
    }
  }

  lemma UnsafeLosesContents(rows: seq<TrustRow>, t: string, pairs: Pairs) returns (rows': seq<TrustRow>)
    requires !PassSafe(rows, t, pairs)
    ensures SameShape(rows, rows') && !KeepsTotals(rows', t, pairs)
  {
    hide Total, SameShape, PassSafe, Pass, ZeroBut;
    var k := "oos_tool";
    var n := FirstUnsafe(rows, t, pairs);
    rows' := LosingContents(rows, t, pairs, n, k);
    NothingReturns(rows', t, pairs, n + 1, k);
    ZeroTotal(Pass(rows', t, pairs), t, k);
    assert Total(Pass(rows', t, pairs), t, k) != Total(rows', t, k);
  }

  lemma {:induction false} FirstUnsafe(rows: seq<TrustRow>, t: string, pairs: Pairs) returns (n: nat)
    requires !PassSafe(rows, t, pairs)
    ensures n < |pairs| && PassSafe(rows, t, pairs[..n])
    ensures !StepSafe(Pass(rows, t, pairs[..n]), t, pairs[n].0, pairs[n].1)
  {
    hide StepSafe, Pass;
    n := |pairs| - 1;
    if !PassSafe(rows, t, pairs[..n]) {
      var l := n;
      n := FirstUnsafe(rows, t, pairs[..l]);
      assert pairs[..l][..n] == pairs[..n];
    }
  }

  // Contents whose every signal the first unsafe iteration drops.
  lemma LosingContents(rows: seq<TrustRow>, t: string, pairs: Pairs, n: nat, k: string) returns (rows': seq<TrustRow>)
    requires n < |pairs| && PassSafe(rows, t, pairs[..n])
    requires !StepSafe(Pass(rows, t, pairs[..n]), t, pairs[n].0, pairs[n].1)
    ensures SameShape(rows, rows') && Total(rows', t, k) > 0
    ensures ZeroBut(Pass(rows', t, pairs[..n + 1]), t, None, k)
  {
    hide Total, SameShape, PassSafe, ZeroBut, Of, Step, Moved, Find, Share, Fill;
    var here, a, c := Pass(rows, t, pairs[..n]), pairs[n].0, pairs[n].1;
    assert pairs[..n + 1][..n] == pairs[..n];
    var q := if |Of(here, t, a)| >= 2 || a == c then a else c;
    if |Of(here, t, q)| >= 2 {
      rows' := Fill(rows, t, q, k, 0, 1);
      FillFills(rows, t, q, k, 0, 1);
      TwoKindsUntouched(rows, t, pairs[..n], q, k);
      ShapePass(rows, rows', t, pairs[..n]);
      var here' := Pass(rows', t, pairs[..n]);
      SameSizes(here, here', t, a);
      SameSizes(here, here', t, q);
      TwoKindsUntouched(rows', t, pairs[..n], q, k);
      FirstShare(here', t, q, k);
      TotalUnder(rows', t, q, k);
      DropsAll(here', t, a, c, q, k);
    } else {
      rows' := Origin(rows, t, pairs[..n], a, k);
      ShapePass(rows, rows', t, pairs[..n]);
      var here' := Pass(rows', t, pairs[..n]);
      SameSizes(here, here', t, a);
      PassConserves(rows', t, pairs[..n], t, k);
      TotalUnder(here', t, a, k);
      TotalOfFew(here', t, a, k);
      DropsSelf(here', t, a, k);
    }
  }

  lemma SameSizes(rows: seq<TrustRow>, rows': seq<TrustRow>, t: string, p: string)
    requires SameShape(rows, rows')
    ensures |Of(rows, t, p)| == |Of(rows', t, p)|
  {
    ShapeOf(rows, rows', t, p);
  }

  // The signals sit on rows of q the iteration neither reads nor keeps.
  lemma DropsAll(rows: seq<TrustRow>, t: string, a: string, c: string, q: string, k: string)
    requires Of(rows, t, a) != [] && (q == a || q == c)
    requires ZeroBut(rows, t, Some(q), k) && Share(Find(rows, t, q), k) == 0
    ensures ZeroBut(Step(rows, t, a, c), t, None, k)
  {
    StepRows(rows, t, a, c, k);
    if q != a {
      ZeroShare(rows, t, a, Some(q), k);
    }
    if q != c {
      ZeroShare(rows, t, c, Some(q), k);
    }
    hide Step, Of, Find;
  }

  lemma DropsSelf(rows: seq<TrustRow>, t: string, a: string, k: string)
    requires Of(rows, t, a) != [] && ZeroBut(rows, t, Some(a), k)
    ensures ZeroBut(Step(rows, t, a, a), t, None, k)
  {
    StepRows(rows, t, a, a, k);
    hide Step, Of, Find;
  }

  // No registered alias points at itself.
  ghost predicate NoSelfAlias(pairs: Pairs) {
    forall i | 0 <= i < |pairs| :: pairs[i].0 != pairs[i].1
  }

  // No id the alias list mentions has rows of two kinds.
  ghost predicate OneKindEach(rows: seq<TrustRow>, t: string, pairs: Pairs) {
    forall i | 0 <= i < |pairs| :: |Of(rows, t, pairs[i].0)| <= 1 && |Of(rows, t, pairs[i].1)| <= 1
  }

  /** A condition to check before the run: no self-alias, no mentioned id with rows of two kinds. */
  lemma {:induction false} OneKindIsSafe(rows: seq<TrustRow>, t: string, pairs: Pairs)
    requires NoSelfAlias(pairs) && OneKindEach(rows, t, pairs)
    ensures PassSafe(rows, t, pairs)
  {
    hide Of;
    if pairs != [] {
      var n := |pairs| - 1;
      OneKindIsSafe(rows, t, pairs[..n]);
      AtMostOneStays(rows, t, pairs[..n], pairs[n].0);
      AtMostOneStays(rows, t, pairs[..n], pairs[n].1);
    }
  }

  lemma {:induction false} AtMostOneStays(rows: seq<TrustRow>, t: string, pairs: Pairs, p: string)
    requires |Of(rows, t, p)| <= 1
    ensures |Of(Pass(rows, t, pairs), t, p)| <= 1
  {
    hide Of, Step;
    if pairs != [] {
      var n := |pairs| - 1;
      AtMostOneStays(rows, t, pairs[..n], p);
      StepCounts(Pass(rows, t, pairs[..n]), t, pairs[n].0, pairs[n].1, p);
    }
  }
}
