/** The alias table and the store that migrates: which pairs a run works through, and what the run
    amounts to for the registered aliases. */
module AliasStore {
  import opened AliasMerge
  import opened AliasMigration
  import opened Common

  datatype AliasRow = AliasRow(tenant: string, alias: string, canonical: string)

  ghost predicate UniqueAliases(aliases: seq<AliasRow>) {
    forall i, j | 0 <= i < j < |aliases| ::
      aliases[i].tenant != aliases[j].tenant || aliases[i].alias != aliases[j].alias
  }

  function Canonical(aliases: seq<AliasRow>, tenant: string, alias: string): Option<string> {
    if aliases == [] then None
    else if aliases[0].tenant == tenant && aliases[0].alias == alias then Some(aliases[0].canonical)
    else Canonical(aliases[1..], tenant, alias)
  }

  lemma {:induction false} CanonicalIsRegistered(aliases: seq<AliasRow>, tenant: string, alias: string)
    requires UniqueAliases(aliases)
    ensures forall c :: Canonical(aliases, tenant, alias) == Some(c) <==> AliasRow(tenant, alias, c) in aliases
  {
    if aliases != [] {
      CanonicalIsRegistered(aliases[1..], tenant, alias);
      assert forall r :: r in aliases <==> r == aliases[0] || r in aliases[1..];
      if aliases[0].tenant == tenant && aliases[0].alias == alias {
        forall j | 0 <= j < |aliases[1..]|
          ensures aliases[1..][j].tenant != tenant || aliases[1..][j].alias != alias
        {
          assert aliases[1..][j] == aliases[1 + j];
        }
      }
    }
  }

  function Upsert(aliases: seq<AliasRow>, tenant: string, alias: string, canonical: string): seq<AliasRow> {
    if aliases == [] then [AliasRow(tenant, alias, canonical)]
    else if aliases[0].tenant == tenant && aliases[0].alias == alias then
      [aliases[0].(canonical := canonical)] + aliases[1..]
    else [aliases[0]] + Upsert(aliases[1..], tenant, alias, canonical)
  }

  lemma {:induction false} UpsertResolves(aliases: seq<AliasRow>, tenant: string, alias: string, canonical: string)
    requires UniqueAliases(aliases)
    ensures UniqueAliases(Upsert(aliases, tenant, alias, canonical))
    ensures forall t, a :: Canonical(Upsert(aliases, tenant, alias, canonical), t, a) ==
              if t == tenant && a == alias then Some(canonical) else Canonical(aliases, t, a)
    ensures forall r | r in Upsert(aliases, tenant, alias, canonical) ::
              (r.tenant == tenant && r.alias == alias) || r in aliases
  {
    if aliases != [] && !(aliases[0].tenant == tenant && aliases[0].alias == alias) {
      UpsertResolves(aliases[1..], tenant, alias, canonical);
      var rest := Upsert(aliases[1..], tenant, alias, canonical);
      forall j | 0 <= j < |rest|
        ensures aliases[0].tenant != rest[j].tenant || aliases[0].alias != rest[j].alias
      {
        assert rest[j] in rest;
      }
    }
  }

  /** The pairs `SELECT alias, canonical_agent_key ... WHERE tenant_id` returns. */
  function PairsOf(aliases: seq<AliasRow>, tenant: string): Pairs {
    if aliases == [] then []
    else (if aliases[0].tenant == tenant then [(aliases[0].alias, aliases[0].canonical)] else [])
         + PairsOf(aliases[1..], tenant)
  }

  // ── The list of a run ──────────────────────────────────────────────

  /** The run works through exactly the registered aliases of its tenant, each with its canonical key. */
  lemma {:induction false} PairsAreRegistered(aliases: seq<AliasRow>, tenant: string, a: string, c: string)
    ensures (a, c) in PairsOf(aliases, tenant) <==> AliasRow(tenant, a, c) in aliases
  {
    if aliases != [] {
      PairsAreRegistered(aliases[1..], tenant, a, c);
      assert forall r :: r in aliases <==> r == aliases[0] || r in aliases[1..];
    }
  }

  lemma {:induction false} PairsAreDistinct(aliases: seq<AliasRow>, tenant: string)
    requires UniqueAliases(aliases)
    ensures DistinctAliases(PairsOf(aliases, tenant))
  {
    if aliases != [] {
      var rest := PairsOf(aliases[1..], tenant);
      PairsAreDistinct(aliases[1..], tenant);
      forall j | 0 <= j < |rest|
        ensures aliases[0].tenant == tenant ==> rest[j].0 != aliases[0].alias
      {
        assert (rest[j].0, rest[j].1) in rest;
        PairsAreRegistered(aliases[1..], tenant, rest[j].0, rest[j].1);
        var k :| 0 <= k < |aliases[1..]| && aliases[1..][k] == AliasRow(tenant, rest[j].0, rest[j].1);
        assert aliases[k + 1] == aliases[1..][k];
      }
    }
  }

  // The pairs name every registered alias of the tenant once, in some order, with its canonical key.
  ghost predicate ListsRegistered(pairs: Pairs, aliases: seq<AliasRow>, tenant: string) {
    DistinctAliases(pairs) && forall a, c :: (a, c) in pairs <==> AliasRow(tenant, a, c) in aliases
  }

  lemma PairsListRegistered(aliases: seq<AliasRow>, tenant: string)
    requires UniqueAliases(aliases)
    ensures ListsRegistered(PairsOf(aliases, tenant), aliases, tenant)
  {
    PairsAreDistinct(aliases, tenant);
    forall a, c
      ensures (a, c) in PairsOf(aliases, tenant) <==> AliasRow(tenant, a, c) in aliases
    {
      PairsAreRegistered(aliases, tenant, a, c);
    }
  }

  // ── What a run amounts to ──────────────────────────────────────────

  ghost predicate IsRegistered(aliases: seq<AliasRow>, tenant: string, p: string) {
    exists c :: AliasRow(tenant, p, c) in aliases
  }

  // No canonical key of the tenant is registered as an alias.
  ghost predicate NoChains(aliases: seq<AliasRow>, tenant: string) {
    forall a, c, d :: AliasRow(tenant, a, c) in aliases ==> AliasRow(tenant, c, d) !in aliases
  }

  // What a lookup of an id that is no alias finds: untouched if no alias row was sent to it, else all
  // the signals, the least trust and the latest time of its own row and the rows of its aliases, and
  // its own kind or that of one of them.
  ghost predicate MergedInto(before: seq<TrustRow>, tenant: string, pairs: Pairs, p: string, found: Option<TrustRow>) {
    var own := Find(before, tenant, p);
    if SentTo(before, tenant, pairs, p) == 0 then found == own
    else
      && found.Some?
      && (own.Some? ==> found.value.kind == own.value.kind)
      && (own.None? ==> exists a ::
            (a, p) in pairs && Find(before, tenant, a).Some? &&
            found.value.kind == var kind := Find(before, tenant, a).value.kind; if kind == "" then "agent" else kind)
      && (forall k :: Signals(found.value, k) == SumFor(before, tenant, pairs, p, k))
      && found.value.trust == Some(TrustFor(before, tenant, pairs, p))
      && found.value.last == LastFor(before, tenant, pairs, p)
  }

  /** Nothing is left under an alias, and everything else is merged, however the aliases are listed. */
  ghost predicate Migrated(before: seq<TrustRow>, after: seq<TrustRow>, aliases: seq<AliasRow>, tenant: string) {
    && (forall a, c | AliasRow(tenant, a, c) in aliases :: Find(after, tenant, a).None?)
    && forall pairs, p | ListsRegistered(pairs, aliases, tenant) && !IsRegistered(aliases, tenant, p) ::
         MergedInto(before, tenant, pairs, p, Find(after, tenant, p))
  }

  lemma ListedFlat(pairs: Pairs, aliases: seq<AliasRow>, tenant: string)
    requires ListsRegistered(pairs, aliases, tenant) && NoChains(aliases, tenant)
    ensures Flat(pairs)
    ensures forall p :: IsAlias(pairs, p) <==> IsRegistered(aliases, tenant, p)
  {
    forall i, j | 0 <= i < |pairs| && 0 <= j < |pairs|
      ensures pairs[i].1 != pairs[j].0
    {
      assert (pairs[i].0, pairs[i].1) in pairs && (pairs[j].0, pairs[j].1) in pairs;
    }
    forall p
      ensures IsAlias(pairs, p) <==> IsRegistered(aliases, tenant, p)
    {
      if i :| 0 <= i < |pairs| && pairs[i].0 == p {
        assert (p, pairs[i].1) in pairs;
      }
      if c :| AliasRow(tenant, p, c) in aliases {
        assert (p, c) in pairs;
      }
    }
  }

  lemma SameListing(pairs: Pairs, pairs': Pairs, aliases: seq<AliasRow>, tenant: string)
    requires ListsRegistered(pairs, aliases, tenant) && ListsRegistered(pairs', aliases, tenant)
    ensures multiset(pairs) == multiset(pairs')
  {
    OnceEach(pairs);
    OnceEach(pairs');
    forall e: (string, string)
      ensures multiset(pairs)[e] == multiset(pairs')[e]
    {
      assert e == (e.0, e.1);
      assert e in pairs <==> e in pairs';
    }
  }

  lemma {:induction false} OnceEach(pairs: Pairs)
    requires DistinctAliases(pairs)
    ensures forall e :: multiset(pairs)[e] == if e in pairs then 1 else 0
    decreases |pairs|
  {
    if pairs != [] {
      var n := |pairs| - 1;
      OnceEach(pairs[..n]);
      assert pairs == pairs[..n] + [pairs[n]];
      assert pairs[n] !in pairs[..n];
    }
  }

  lemma PassMigrates(rows: seq<TrustRow>, aliases: seq<AliasRow>, tenant: string)
    requires UniqueAliases(aliases) && NoChains(aliases, tenant)
    ensures Migrated(rows, Pass(rows, tenant, PairsOf(aliases, tenant)), aliases, tenant)
  {
    var listed := PairsOf(aliases, tenant);
    var after := Pass(rows, tenant, listed);
    PairsListRegistered(aliases, tenant);
    ListedFlat(listed, aliases, tenant);
    hide UniqueAliases, NoChains, PairsOf, Pass, Find, ListsRegistered, Flat, IsAlias, MergedInto;
    forall a, c | AliasRow(tenant, a, c) in aliases
      ensures Find(after, tenant, a).None?
    {
      PassClosedForm(rows, tenant, listed, a);
    }
    forall pairs, p | ListsRegistered(pairs, aliases, tenant) && !IsRegistered(aliases, tenant, p)
      ensures MergedInto(rows, tenant, pairs, p, Find(after, tenant, p))
    {
      MergedUnder(rows, aliases, tenant, pairs, p);
    }
  }

  lemma {:induction false} SomethingSent(rows: seq<TrustRow>, tenant: string, pairs: Pairs, p: string)
    requires SentTo(rows, tenant, pairs, p) > 0
    ensures FirstSent(rows, tenant, pairs, p).Some?
    decreases |pairs|
  {
    hide Sent;
    if pairs != [] {
      var n := |pairs| - 1;
      if Sent(rows, tenant, p, pairs[n]).None? {
        SomethingSent(rows, tenant, pairs[..n], p);
      }
    }
  }

  lemma MergedUnder(rows: seq<TrustRow>, aliases: seq<AliasRow>, tenant: string, pairs: Pairs, p: string)
    requires UniqueAliases(aliases) && NoChains(aliases, tenant) && ListsRegistered(pairs, aliases, tenant)
    requires !IsRegistered(aliases, tenant, p)
    ensures MergedInto(rows, tenant, pairs, p, Find(Pass(rows, tenant, PairsOf(aliases, tenant)), tenant, p))
  {
    var listed := PairsOf(aliases, tenant);
    PairsListRegistered(aliases, tenant);
    ListedFlat(listed, aliases, tenant);
    ListedFlat(pairs, aliases, tenant);
    SameListing(listed, pairs, aliases, tenant);
    hide UniqueAliases, NoChains, PairsOf, Pass, Find, Flat, IsAlias, SumFor, TrustFor, LastFor, SentTo;
    PassClosedForm(rows, tenant, listed, p);
    SameSums(rows, tenant, listed, pairs, p);
    if SentTo(rows, tenant, listed, p) > 0 && Find(rows, tenant, p).None? {
      FirstSentIsSent(rows, tenant, listed, p);
      SomethingSent(rows, tenant, listed, p);
      var e :| e in listed && Sent(rows, tenant, p, e) == FirstSent(rows, tenant, listed, p);
      assert multiset(listed)[e] > 0 && e in multiset(pairs) && (e.0, p) in pairs;
    }
  }

  // ── The store ──────────────────────────────────────────────────────

  class Store {
    var aliases: seq<AliasRow>
    var trust: seq<TrustRow>
    // The trust table as of the last commit, and every table ever committed by a migration.
    var committed: seq<TrustRow>
    ghost var history: seq<seq<TrustRow>>

    ghost predicate Valid()
      reads this
    {
      UniqueAliases(aliases) && committed == trust
    }

    constructor ()
      ensures Valid() && aliases == [] && trust == [] && history == []
    {
      aliases, trust, committed, history := [], [], [], [];
    }

    /** `resolve_alias` */
    method ResolveAlias(tenant: string, alias: string) returns (canonical: Option<string>)
      requires Valid()
      ensures forall c :: canonical == Some(c) <==> alias != "" && AliasRow(tenant, alias, c) in aliases
    {
      CanonicalIsRegistered(aliases, tenant, alias);
      if alias == "" {
        return None;
      }
      canonical := Canonical(aliases, tenant, alias);
    }

    /** `add_alias`: insert, or on conflict on (tenant, alias) replace the canonical key. */
    method AddAlias(tenant: string, alias: string, canonical: string)
      requires Valid()
      modifies `aliases
      ensures Valid()
      ensures forall t, a :: Canonical(aliases, t, a) ==
                if t == tenant && a == alias then Some(canonical) else old(Canonical(aliases, t, a))
    {
      aliases := Upsert(aliases, tenant, alias, canonical);
      UpsertResolves(old(aliases), tenant, alias, canonical);
    }

    /** One iteration: merge, write the canonical row, drop the alias row, commit. */
    method MigrateOne(tenant: string, alias: string, canonical: string) returns (detail: Option<Detail>)
      requires Valid()
      modifies `trust, `committed, `history
      ensures Valid()
      ensures trust == Step(old(trust), tenant, alias, canonical)
      ensures detail == StepDetail(old(trust), tenant, alias, canonical)
      ensures history == old(history) + (if detail.Some? then [trust] else [])
    {
      hide Find, Update, Delete, MergeCounts;
      var src := Find(trust, tenant, alias);
      if src.None? {
        return None;
      }
      var dst := Find(trust, tenant, canonical);
      var counts := MergeSignalCounts(src.value.counts, if dst.Some? then dst.value.counts else None);
      var low := Min(src.value.trust.GetOr(50),
                     if dst.Some? && dst.value.trust.Some? then dst.value.trust.value else 50);
      var last := src.value.last;
      if dst.Some? && dst.value.last.Some? {
        last := Later(Some(last.GetOr(dst.value.last.value)), dst.value.last);
      }
      var m := Merged(low, counts, last);
      if dst.Some? {
        trust := Update(trust, tenant, canonical, m);
      } else {
        trust := trust + [NewRow(tenant, canonical, src.value, m)];
      }
      trust := Delete(trust, tenant, alias);
      committed := trust;
      history := history + [trust];
      detail := Some(Detail(alias, canonical, counts, low));
    }

    /** `migrate_principals_for_aliases`. A crash leaves the last committed table. */
    method Migrate(tenant: string, dialect: string) returns (report: Report)
      requires Valid()
      modifies `trust, `committed, `history
      ensures Valid()
      ensures dialect != "postgresql" ==> report == Skipped && trust == old(trust) && history == old(history)
      ensures dialect == "postgresql" ==>
                var pairs := PairsOf(aliases, tenant);
                var details := Details(old(trust), tenant, pairs);
                && trust == Pass(old(trust), tenant, pairs)
                && report == Report(|pairs|, |details|, details)
                && history == old(history) + Commits(old(trust), tenant, pairs)
      ensures dialect == "postgresql" && NoChains(aliases, tenant) ==>
                Migrated(old(trust), trust, aliases, tenant)
    {
      if dialect != "postgresql" {
        return Skipped;
      }
      var pairs := PairsOf(aliases, tenant);
      var checked, migrated, details := 0, 0, [];
      assert pairs[..0] == [];
      for i := 0 to |pairs|
        invariant Valid()
        invariant checked == i && migrated == |details|
        invariant trust == Pass(old(trust), tenant, pairs[..i])
        invariant details == Details(old(trust), tenant, pairs[..i])
        invariant history == old(history) + Commits(old(trust), tenant, pairs[..i])
      {
        hide Step, StepDetail, Pass, Details, Commits;
        checked := checked + 1;
        OneMorePair(old(trust), tenant, pairs, i);
        var detail := MigrateOne(tenant, pairs[i].0, pairs[i].1);
        if detail.Some? {
          migrated := migrated + 1;
          details := details + [detail.value];
        }
      }
      assert pairs[..|pairs|] == pairs;
      if NoChains(aliases, tenant) {
        PassMigrates(old(trust), aliases, tenant);
      }
      report := Report(checked, migrated, details);
    }
  }
}
