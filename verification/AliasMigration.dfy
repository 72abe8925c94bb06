/** Alias migration: historical trust rows stored under an alias are merged, one committed
    iteration per registered alias, into the row of the canonical agent key.

    The trust table is a list of rows in scan order. As in the SQL, a lookup takes the first row
    of the tenant with the id, whatever its kind, while UPDATE and DELETE hit every such row. */
module AliasMigration {
  import opened Common

  // signal_counts as stored: a JSON null stands for no signals.
  type Counts = map<string, Option<int>>

  datatype TrustRow = TrustRow(
    tenant: string,
    kind: string,
    pid: string,
    trust: Option<int>,
    counts: Option<Counts>,
    last: Option<int>)

  datatype Merged = Merged(trust: int, counts: Counts, last: Option<int>)

  datatype Detail = Detail(source: string, target: string, counts: Counts, trust: int)

  datatype Report = Skipped | Report(checked: nat, migrated: nat, details: seq<Detail>)

  // ── The merge of two rows ──────────────────────────────────────────

  function Value(counts: Counts, kind: string): int {
    if kind in counts then counts[kind].GetOr(0) else 0
  }

  function CountsOf(counts: Option<Counts>): Counts {
    counts.GetOr(map[])
  }

  /** How many signals of one kind a row carries. */
  function Signals(r: TrustRow, kind: string): int {
    Value(CountsOf(r.counts), kind)
  }

  function MergeCounts(src: Counts, dst: Counts): Counts {
    map k | k in src.Keys + dst.Keys :: if k in src then Some(Value(dst, k) + Value(src, k)) else dst[k]
  }

  function Min(a: int, b: int): int {
    if a <= b then a else b
  }

  /** The later of two times, an absent one giving way. */
  function Later(a: Option<int>, b: Option<int>): Option<int> {
    if a.None? then b else if b.None? then a else if a.value >= b.value then a else b
  }

  function TrustOf(r: TrustRow): int {
    r.trust.GetOr(50)
  }

  function Merge(src: TrustRow, dst: Option<TrustRow>): Merged {
    Merged(
      Min(TrustOf(src), if dst.Some? then TrustOf(dst.value) else 50),
      MergeCounts(CountsOf(src.counts), if dst.Some? then CountsOf(dst.value.counts) else map[]),
      if dst.Some? then Later(src.last, dst.value.last) else src.last)
  }

  // ── The SQL statements ─────────────────────────────────────────────

  predicate Matches(r: TrustRow, tenant: string, pid: string) {
    r.tenant == tenant && r.pid == pid
  }

  /** SELECT ... fetchone() */
  function Find(rows: seq<TrustRow>, tenant: string, pid: string): (r: Option<TrustRow>)
    ensures r.Some? ==> r.value in rows && Matches(r.value, tenant, pid)
    ensures r.None? <==> forall i | 0 <= i < |rows| :: !Matches(rows[i], tenant, pid)
  {
    if rows == [] then None
    else if Matches(rows[0], tenant, pid) then Some(rows[0])
    else Find(rows[1..], tenant, pid)
  }

  function Rewritten(r: TrustRow, m: Merged): TrustRow {
    r.(trust := Some(m.trust), counts := Some(m.counts), last := m.last)
  }

  function Update(rows: seq<TrustRow>, tenant: string, pid: string, m: Merged): seq<TrustRow> {
    if rows == [] then []
    else [if Matches(rows[0], tenant, pid) then Rewritten(rows[0], m) else rows[0]] + Update(rows[1..], tenant, pid, m)
  }

  function Delete(rows: seq<TrustRow>, tenant: string, pid: string): seq<TrustRow> {
    if rows == [] then []
    else if Matches(rows[0], tenant, pid) then Delete(rows[1..], tenant, pid)
    else [rows[0]] + Delete(rows[1..], tenant, pid)
  }

  function KindFor(src: TrustRow): string {
    if src.kind != "" then src.kind else "agent"
  }

  function NewRow(tenant: string, pid: string, src: TrustRow, m: Merged): TrustRow {
    TrustRow(tenant, KindFor(src), pid, Some(m.trust), Some(m.counts), m.last)
  }

  // ── One iteration, and a whole pass ────────────────────────────────

  /** The table after the iteration for one (alias, canonical) pair. */
  function Step(rows: seq<TrustRow>, tenant: string, alias: string, canonical: string): seq<TrustRow> {
    match Find(rows, tenant, alias)
    case None => rows
    case Some(src) =>
      var dst := Find(rows, tenant, canonical);
      var m := Merge(src, dst);
      var written :=
        if dst.Some? then Update(rows, tenant, canonical, m)
        else rows + [NewRow(tenant, canonical, src, m)];
      Delete(written, tenant, alias)
  }

  type Pairs = seq<(string, string)>

  /** The table after the iterations for `pairs`, in that order. */
  function Pass(rows: seq<TrustRow>, tenant: string, pairs: Pairs): seq<TrustRow> {
    if pairs == [] then rows
    else
      var n := |pairs| - 1;
      Step(Pass(rows, tenant, pairs[..n]), tenant, pairs[n].0, pairs[n].1)
  }

  /** What an iteration reports; None when the alias has no row and nothing is committed. */
  function StepDetail(rows: seq<TrustRow>, tenant: string, alias: string, canonical: string): Option<Detail> {
    match Find(rows, tenant, alias)
    case None => None
    case Some(src) =>
      var m := Merge(src, Find(rows, tenant, canonical));
      Some(Detail(alias, canonical, m.counts, m.trust))
  }

  function Details(rows: seq<TrustRow>, tenant: string, pairs: Pairs): seq<Detail> {
    if pairs == [] then []
    else
      var n := |pairs| - 1;
      var here := Pass(rows, tenant, pairs[..n]);
      var detail := StepDetail(here, tenant, pairs[n].0, pairs[n].1);
      Details(rows, tenant, pairs[..n]) + (if detail.Some? then [detail.value] else [])
  }

  /** The tables a pass commits, in order. */
  ghost function Commits(rows: seq<TrustRow>, tenant: string, pairs: Pairs): seq<seq<TrustRow>> {
    if pairs == [] then []
    else
      var n := |pairs| - 1;
      var here := Pass(rows, tenant, pairs[..n]);
      Commits(rows, tenant, pairs[..n])
      + (if StepDetail(here, tenant, pairs[n].0, pairs[n].1).Some? then [Pass(rows, tenant, pairs)] else [])
  }

  lemma OneMorePair(rows: seq<TrustRow>, tenant: string, pairs: Pairs, i: nat)
    requires i < |pairs|
    ensures var here, there := Pass(rows, tenant, pairs[..i]), Pass(rows, tenant, pairs[..i + 1]);
            var detail := StepDetail(here, tenant, pairs[i].0, pairs[i].1);
            && there == Step(here, tenant, pairs[i].0, pairs[i].1)
            && Details(rows, tenant, pairs[..i + 1]) == Details(rows, tenant, pairs[..i])
               + (if detail.Some? then [detail.value] else [])
            && Commits(rows, tenant, pairs[..i + 1]) == Commits(rows, tenant, pairs[..i])
               + (if detail.Some? then [there] else [])
  {
    hide Step, StepDetail;
    assert pairs[..i + 1][..i] == pairs[..i];
  }

  /** The additive loop over the alias row's counts. */
  method MergeSignalCounts(src: Option<Counts>, dst: Option<Counts>) returns (merged: Counts)
    ensures merged == MergeCounts(CountsOf(src), CountsOf(dst))
    ensures forall k :: k in merged <==> (src.Some? && k in src.value) || (dst.Some? && k in dst.value)
    ensures forall k | k in merged && src.Some? && k in src.value ::
              merged[k] == Some((if dst.Some? && k in dst.value && dst.value[k].Some? then dst.value[k].value else 0)
                                + (if src.value[k].Some? then src.value[k].value else 0))
  {
    var from, into := CountsOf(src), CountsOf(dst);
    merged := into;
    var todo := from.Keys;
    while todo != {}
      invariant todo <= from.Keys
      invariant merged.Keys == into.Keys + (from.Keys - todo)
      invariant forall k | k in merged ::
                  merged[k] == if k in from && k !in todo then Some(Value(into, k) + Value(from, k)) else into[k]
    {
      var k :| k in todo;
      merged := merged[k := Some(Value(merged, k) + Value(from, k))];
      todo := todo - {k};
    }
  }
}
