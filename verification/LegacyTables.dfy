/** Creating the legacy tables (kya/_legacy_tables.py): partial indexes are taken out of the shared
    index sets for the databases that reject them, and put back however table creation ends. */
module LegacyTables {
  import opened Common

  // `postgresql_where` and `sqlite_where` of an Index.
  datatype Index = Index(name: string, pgWhere: Option<string>, sqliteWhere: Option<string>)

  datatype Dialect = PostgreSQL | SQLite | DuckDB | MySQL

  type Schema = Option<string>

  predicate Partial(i: Index) {
    i.pgWhere.Some? || i.sqliteWhere.Some?
  }

  function Whole(s: set<Index>): set<Index> {
    set i | i in s && !Partial(i)
  }

  predicate StripsPartial(d: Dialect) {
    d.DuckDB? || d.MySQL?
  }

  class Table {
    const name: string
    var indexes: set<Index>

    constructor (name: string, indexes: set<Index>)
      ensures this.name == name && this.indexes == indexes
    {
      this.name := name;
      this.indexes := indexes;
    }
  }

  // ── The schema translation ─────────────────────────────────────────

  /** The translation in force during creation: on PostgreSQL with an unchanged schema the
      connection is used as it is, otherwise one entry may be added. */
  function Translation(dialect: Dialect, schema: Schema, importSchema: Schema,
                       existing: map<Schema, Schema>): map<Schema, Schema> {
    if (dialect.PostgreSQL? && schema == importSchema) || importSchema in existing then existing
    else existing[importSchema := if dialect.PostgreSQL? then schema else None]
  }

  // Where a table declared under the import-time schema ends up.
  function Target(importSchema: Schema, translation: map<Schema, Schema>): Schema {
    if importSchema in translation then translation[importSchema] else importSchema
  }

  /** Entries the caller already had are never lost or changed, and at most the import-time schema
      is added. So the tables land where the docstring says, in the current schema on PostgreSQL and
      in the default namespace elsewhere, exactly when the caller's own map does not already send
      the import-time schema somewhere else. */
  lemma TranslationKeepsCaller(dialect: Dialect, schema: Schema, importSchema: Schema, existing: map<Schema, Schema>)
    ensures var t := Translation(dialect, schema, importSchema, existing);
            var wanted := if dialect.PostgreSQL? then schema else None;
            && (forall k | k in existing :: k in t && t[k] == existing[k])
            && t.Keys <= existing.Keys + {importSchema}
            && (Target(importSchema, t) == wanted <==>
                importSchema !in existing || existing[importSchema] == wanted)
  {
  }

  // ── Detach, create, restore ────────────────────────────────────────

  datatype Outcome = GatedOff | Created | CreateRaised | DetachRaised

  method DetachFrom(t: Table, taken: seq<(Table, Index)>) returns (detached: seq<(Table, Index)>)
    modifies t
    ensures t.indexes == Whole(old(t.indexes))
    ensures forall p :: p in detached <==> p in taken || (p.0 == t && p.1 in old(t.indexes) && Partial(p.1))
  {
    detached := taken;
    var todo := t.indexes;
    while todo != {}
      invariant todo <= old(t.indexes)
      invariant t.indexes == set i | i in old(t.indexes) && (!Partial(i) || i in todo)
      invariant forall p :: p in detached <==>
          p in taken || (p.0 == t && p.1 in old(t.indexes) && Partial(p.1) && p.1 !in todo)
      decreases |todo|
    {
      var idx :| idx in todo;
      if Partial(idx) {
        t.indexes := t.indexes - {idx};
        detached := detached + [(t, idx)];
      }
      todo := todo - {idx};
    }
  }

  /** The first `count` tables stripped; the pairs taken are exactly their partial indexes. */
  method Detach(tables: seq<Table>, count: nat) returns (detached: seq<(Table, Index)>)
    requires count <= |tables|
    modifies tables
    ensures forall t | t in tables ::
      t.indexes == if t in tables[..count] then Whole(old(t.indexes)) else old(t.indexes)
    ensures forall p :: p in detached <==> p.0 in tables[..count] && p.1 in old(p.0.indexes) && Partial(p.1)
  {
    detached := [];
    for k := 0 to count
      invariant forall t | t in tables ::
          t.indexes == if t in tables[..k] then Whole(old(t.indexes)) else old(t.indexes)
      invariant forall p :: p in detached <==> p.0 in tables[..k] && p.1 in old(p.0.indexes) && Partial(p.1)
    {
      assert tables[..k + 1] == tables[..k] + [tables[k]];
      detached := DetachFrom(tables[k], detached);
    }
  }

  // Putting the detached pairs back gives every table what it had, given as `before`.
  method Restore(tables: seq<Table>, detached: seq<(Table, Index)>, ghost before: map<Table, set<Index>>)
    requires forall t | t in tables :: t in before && t.indexes == Whole(before[t])
    requires forall p :: p in detached <==> p.0 in tables && p.1 in before[p.0] && Partial(p.1)
    modifies tables
    ensures forall t | t in tables :: t.indexes == before[t]
  {
    for k := 0 to |detached|
      invariant forall t | t in tables :: Whole(before[t]) <= t.indexes <= before[t]
      invariant forall p | p in detached[..k] :: p.1 in p.0.indexes
    {
      assert detached[..k + 1] == detached[..k] + [detached[k]];
      assert detached[k] in detached;
      var t, idx := detached[k].0, detached[k].1;
      t.indexes := t.indexes + {idx};
    }
    assert detached[..|detached|] == detached;
    forall t | t in tables
      ensures t.indexes == before[t]
    {
      forall i | i in before[t] && Partial(i)
        ensures i in t.indexes
      {
        assert (t, i) in detached;
      }
    }
  }

  // _LEGACY_MD.create_all: what its visitor walks over.
  method CreateAll(tables: seq<Table>) returns (views: seq<set<Index>>)
    ensures |views| == |tables| && forall k | 0 <= k < |tables| :: views[k] == tables[k].indexes
  {
    views := seq(|tables|, k requires 0 <= k < |tables| reads tables => tables[k].indexes);
  }

  // The sets of one call's tables when it begins.
  function Sets(tables: seq<Table>): map<Table, set<Index>>
    reads tables
  {
    map t | t in tables :: t.indexes
  }

  // Some of the first tables has a partial index.
  predicate AnyPartial(tables: seq<Table>, sets: map<Table, set<Index>>)
    requires forall t | t in tables :: t in sets
  {
    exists t :: t in tables && exists i :: i in sets[t] && Partial(i)
  }

  /** create_legacy_tables(): `fails` says whether create_all raises, `breaks` at which table, if any,
      the detaching loop does. Creation sees no partial index on the databases that reject them and
      every index elsewhere; and every table has its indexes back at the end, unless the detaching
      loop, which runs outside the try, was cut short after taking a partial index. */
  method CreateLegacyTables(enabled: bool, dialect: Dialect, tables: seq<Table>, fails: bool, breaks: Option<nat>)
    returns (r: Outcome, views: seq<set<Index>>)
    modifies tables
    ensures r.GatedOff? <==> !enabled
    ensures r.DetachRaised? <==> enabled && StripsPartial(dialect) && breaks.Some? && breaks.value < |tables|
    ensures r.CreateRaised? ==> fails
    ensures r.Created? ==> !fails
    ensures r.Created? || r.CreateRaised? ==>
      && |views| == |tables|
      && forall k | 0 <= k < |tables| ::
           if dialect.PostgreSQL? || dialect.SQLite? then views[k] == old(Sets(tables))[tables[k]]
           else forall i :: i in views[k] <==>
                  i in old(Sets(tables))[tables[k]] && i.pgWhere.None? && i.sqliteWhere.None?
    ensures Sets(tables) == old(Sets(tables)) <==>
            !(r.DetachRaised? && AnyPartial(tables[..breaks.value], old(Sets(tables))))
  {
    views := [];
    ghost var before := Sets(tables);
    if !enabled {
      r := GatedOff;
      return;
    }
    if StripsPartial(dialect) {
      if breaks.Some? && breaks.value < |tables| {
        var lost := Detach(tables, breaks.value);
        r := DetachRaised;
        CutShort(tables, breaks.value, before);
        return;
      }
      var detached := Detach(tables, |tables|);
      assert tables[..|tables|] == tables;
      views := CreateAll(tables);
      Restore(tables, detached, before);
    } else {
      views := CreateAll(tables);
    }
    r := if fails then CreateRaised else Created;
  }

  lemma CutShort(tables: seq<Table>, count: nat, before: map<Table, set<Index>>)
    requires count <= |tables| && before.Keys == set t | t in tables
    requires forall t | t in tables ::
      t.indexes == if t in tables[..count] then Whole(before[t]) else before[t]
    ensures Sets(tables) == before <==> !AnyPartial(tables[..count], before)
  {
    if AnyPartial(tables[..count], before) {
      var t :| t in tables[..count] && exists i :: i in before[t] && Partial(i);
      var i :| i in before[t] && Partial(i);
      assert Sets(tables)[t] != before[t];
    } else {
      forall t | t in tables
        ensures Sets(tables)[t] == before[t]
      {
        if t in tables[..count] {
          assert forall i | i in before[t] :: !Partial(i);
        }
      }
    }
  }
}
