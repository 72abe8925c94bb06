/** What the canonical bytes identify: two values print alike exactly when they are the same
    data, and a printed object can be cut off any text that starts with it. */
module JsonIdentity {
  import opened Bytes
  import opened CanonicalJson
  import opened Common
  import opened JsonParser

  // ── Key order is a strict total order ──────────────────────────────

  lemma {:induction false} StrLessTotal(a: string, b: string)
    ensures a == b || StrLess(a, b) || StrLess(b, a)
    ensures !(StrLess(a, b) && StrLess(b, a))
    ensures !StrLess(a, a)
    decreases |a|
  {
    if a != "" && b != "" && a[0] == b[0] {
      StrLessTotal(a[1..], b[1..]);
      assert a == [a[0]] + a[1..] && b == [b[0]] + b[1..];
    } else if a != "" {
      StrLessTotal(a[1..], a[1..]);
    }
    if a != "" {
      StrLessTotal(a[1..], a[1..]);
    }
  }

  lemma {:induction false} StrLessTransitive(a: string, b: string, c: string)
    requires StrLess(a, b) && StrLess(b, c)
    ensures StrLess(a, c)
    decreases |a|
  {
    if a != "" && a[0] == b[0] && b[0] == c[0] {
      StrLessTransitive(a[1..], b[1..], c[1..]);
    }
  }

  // ── Sorting the fields of one object ───────────────────────────────

  ghost predicate Sorted(fields: seq<Field>) {
    forall i, j | 0 <= i < j < |fields| :: StrLess(fields[i].key, fields[j].key)
  }

  lemma {:induction false} InsertSorts(f: Field, fs: seq<Field>)
    requires Sorted(fs)
    requires forall i | 0 <= i < |fs| :: fs[i].key != f.key
    ensures Sorted(Insert(f, fs))
    ensures forall x :: x in Insert(f, fs) <==> x == f || x in fs
  {
    if fs != [] {
      if StrLess(f.key, fs[0].key) {
        forall j | 1 <= j < |fs|
          ensures StrLess(f.key, fs[j].key)
        {
          StrLessTransitive(f.key, fs[0].key, fs[j].key);
        }
      } else {
        StrLessTotal(f.key, fs[0].key);
        InsertSorts(f, fs[1..]);
        var r := Insert(f, fs[1..]);
        forall j | 0 <= j < |r|
          ensures StrLess(fs[0].key, r[j].key)
        {
          assert r[j] in r;
        }
      }
    }
  }

  lemma {:induction false} SortSorts(fs: seq<Field>)
    requires UniqueKeys(fs)
    ensures Sorted(SortFields(fs))
    ensures forall x :: x in SortFields(fs) <==> x in fs
  {
    if fs != [] {
      SortSorts(fs[1..]);
      var r := SortFields(fs[1..]);
      forall i | 0 <= i < |r|
        ensures r[i].key != fs[0].key
      {
        assert r[i] in fs[1..];
      }
      InsertSorts(fs[0], r);
    }
  }

  // A sorted list is determined by its elements.
  lemma {:induction false} SortedUnique(a: seq<Field>, b: seq<Field>)
    requires Sorted(a) && Sorted(b)
    requires forall x :: x in a <==> x in b
    ensures a == b
  {
    assert (a != [] ==> a[0] in a) && (b != [] ==> b[0] in b);
    if a != [] && b != [] {
      assert a[0] in b && b[0] in a;
      StrLessTotal(a[0].key, b[0].key);
      assert a[0] == b[0];
      forall x
        ensures x in a[1..] <==> x in b[1..]
      {
        StrLessTotal(a[0].key, a[0].key);
        assert x in a <==> x in b;
        assert a == [a[0]] + a[1..] && b == [b[0]] + b[1..];
      }
      SortedUnique(a[1..], b[1..]);
    }
  }

  // ── Canonical form and sameness ────────────────────────────────────

  /** Two Python values have one canonical form exactly when they are the same data. */
  lemma {:induction false} CanonIffSame(v: Json, w: Json)
    requires WellFormed(v) && WellFormed(w)
    ensures Canon(v) == Canon(w) <==> Same(v, w)
    decreases v
  {
    match v
    case List(xs) =>
      if w.List? && |w.items| == |xs| {
        forall i | 0 <= i < |xs|
          ensures Canon(xs[i]) == Canon(w.items[i]) <==> Same(xs[i], w.items[i])
        {
          CanonIffSame(xs[i], w.items[i]);
        }
        if Same(v, w) {
          assert CanonItems(xs) == CanonItems(w.items);
        }
        if CanonItems(xs) == CanonItems(w.items) {
          forall i | 0 <= i < |xs|
            ensures Same(xs[i], w.items[i])
          {
            assert CanonItems(xs)[i] == CanonItems(w.items)[i];
          }
        }
      }
    case Object(fs) =>
      if w.Object? {
        forall i, j | 0 <= i < |fs| && 0 <= j < |w.fields|
          ensures Canon(fs[i].value) == Canon(w.fields[j].value) <==> Same(fs[i].value, w.fields[j].value)
        {
          CanonIffSame(fs[i].value, w.fields[j].value);
        }
        CanonObjectIffSame(fs, w.fields);
      }
    case _ =>
  }

  // `CanonIffSame` for every pair of values in two objects.
  ghost predicate ValuesSettled(fs: seq<Field>, gs: seq<Field>) {
    forall i, j | 0 <= i < |fs| && 0 <= j < |gs| ::
      Canon(fs[i].value) == Canon(gs[j].value) <==> Same(fs[i].value, gs[j].value)
  }

  // The two directions of `CanonIffSame` for one object, its values already settled.
  lemma CanonObjectIffSame(fs: seq<Field>, gs: seq<Field>)
    requires UniqueKeys(fs) && UniqueKeys(gs)
    requires ValuesSettled(fs, gs)
    ensures SortFields(CanonFields(fs)) == SortFields(CanonFields(gs)) <==> Same(Object(fs), Object(gs))
  {
    var cf, cg := CanonFields(fs), CanonFields(gs);
    SortSorts(cf);
    SortSorts(cg);
    if Same(Object(fs), Object(gs)) {
      SameElements(fs, gs);
      SortedUnique(SortFields(cf), SortFields(cg));
    }
    if SortFields(cf) == SortFields(cg) {
      forall x ensures x in cf <==> x in cg {
        assert x in SortFields(cf) <==> x in SortFields(cg);
      }
      ElementsSame(fs, gs);
    }
  }

  lemma SameElements(fs: seq<Field>, gs: seq<Field>)
    requires ValuesSettled(fs, gs)
    requires Same(Object(fs), Object(gs))
    ensures forall x :: x in CanonFields(fs) <==> x in CanonFields(gs)
  {
    var cf, cg := CanonFields(fs), CanonFields(gs);
    forall i | 0 <= i < |fs| ensures cf[i] in cg {
      assert MatchedBy(fs[i], gs);
      var j :| 0 <= j < |gs| && SameField(fs[i], gs[j]);
      assert cg[j] == cf[i];
    }
    forall j | 0 <= j < |gs| ensures cg[j] in cf {
      assert MatchedIn(fs, gs[j]);
      var i :| 0 <= i < |fs| && SameField(fs[i], gs[j]);
      assert cf[i] == cg[j];
    }
  }

  lemma ElementsSame(fs: seq<Field>, gs: seq<Field>)
    requires ValuesSettled(fs, gs)
    requires forall x :: x in CanonFields(fs) <==> x in CanonFields(gs)
    ensures Same(Object(fs), Object(gs))
  {
    var cf, cg := CanonFields(fs), CanonFields(gs);
    forall i | 0 <= i < |fs| ensures MatchedBy(fs[i], gs) {
      assert cf[i] in cf;
      var j :| 0 <= j < |cg| && cg[j] == cf[i];
      assert SameField(fs[i], gs[j]);
    }
    forall j | 0 <= j < |gs| ensures MatchedIn(fs, gs[j]) {
      assert cg[j] in cg;
      var i :| 0 <= i < |cf| && cf[i] == cg[j];
      assert SameField(fs[i], gs[j]);
    }
  }

  lemma SameSymmetric(v: Json, w: Json)
    requires WellFormed(v) && WellFormed(w) && Same(v, w)
    ensures Same(w, v)
  {
    CanonIffSame(v, w);
    CanonIffSame(w, v);
  }

  lemma {:induction false} SortedIsFixed(fs: seq<Field>)
    requires Sorted(fs)
    ensures UniqueKeys(fs) && SortFields(fs) == fs
  {
    forall i, j | 0 <= i < j < |fs|
      ensures fs[i].key != fs[j].key
    {
      StrLessTotal(fs[i].key, fs[j].key);
    }
    SortSorts(fs);
    SortedUnique(SortFields(fs), fs);
  }

  /** Canonicalising keeps the data and is done after one pass. */
  lemma {:induction false} CanonIsSame(v: Json)
    requires WellFormed(v)
    ensures WellFormed(Canon(v)) && Canon(Canon(v)) == Canon(v) && Same(v, Canon(v))
    decreases v
  {
    match v {
      case List(xs) =>
        forall i | 0 <= i < |xs|
          ensures WellFormed(Canon(xs[i])) && Canon(Canon(xs[i])) == Canon(xs[i])
        {
          CanonIsSame(xs[i]);
        }
        assert CanonItems(CanonItems(xs)) == CanonItems(xs);
      case Object(fs) =>
        var cf := CanonFields(fs);
        SortSorts(cf);
        var sf := SortFields(cf);
        SortedIsFixed(sf);
        forall k | 0 <= k < |sf|
          ensures WellFormed(sf[k].value) && Canon(sf[k].value) == sf[k].value
        {
          assert sf[k] in cf;
          var i :| 0 <= i < |cf| && cf[i] == sf[k];
          CanonIsSame(fs[i].value);
        }
        assert CanonFields(sf) == sf;
      case _ =>
    }
    CanonIffSame(v, Canon(v));
  }

  // ── What the canonical bytes identify ──────────────────────────────

  /** Same text, same data, and back: the printer is injective on data and blind to field order. */
  lemma DumpsIffSame(v: Json, w: Json)
    requires WellFormed(v) && WellFormed(w)
    ensures Dumps(v) == Dumps(w) <==> Same(v, w)
  {
    CanonIffSame(v, w);
    if Dumps(v) == Dumps(w) {
      ParsePrint(Canon(v), "");
      ParsePrint(Canon(w), "");
      assert Dumps(v) + "" == Dumps(v) && Dumps(w) + "" == Dumps(w);
    }
  }

  /** Reading canonical text gives back the same data and leaves any trailing text untouched. */
  lemma ParseDumps(v: Json, rest: string)
    requires WellFormed(v) && EndsHere(v, rest)
    ensures Parse(Dumps(v) + rest).Some?
    ensures var (w, rest') := Parse(Dumps(v) + rest).value; WellFormed(w) && Same(v, w) && rest' == rest
  {
    CanonIsSame(v);
    ParsePrint(Canon(v), rest);
  }

  /** No canonical object is a proper prefix of another text that starts with one. */
  lemma ObjectsPrefixFree(v: Json, w: Json, a: string, b: string)
    requires v.Object? && w.Object? && WellFormed(v) && WellFormed(w)
    requires Dumps(v) + a == Dumps(w) + b
    ensures Same(v, w) && a == b
  {
    ParsePrint(Canon(v), a);
    ParsePrint(Canon(w), b);
    CanonIffSame(v, w);
  }

  // `Get` sees the same value in the same data.
  lemma {:induction false} GetIsMember(fs: seq<Field>, key: string)
    ensures Get(fs, key).Some? ==> Field(key, Get(fs, key).value) in fs
    ensures Get(fs, key).None? ==> forall i | 0 <= i < |fs| :: fs[i].key != key
  {
    if fs != [] && fs[0].key != key {
      GetIsMember(fs[1..], key);
    }
  }

  lemma GetIsUnique(fs: seq<Field>, i: nat)
    requires UniqueKeys(fs) && i < |fs|
    ensures Get(fs, fs[i].key) == Some(fs[i].value)
  {
    GetIsMember(fs, fs[i].key);
  }

  lemma GetSame(fs: seq<Field>, gs: seq<Field>, key: string)
    requires WellFormed(Object(fs)) && WellFormed(Object(gs)) && Same(Object(fs), Object(gs))
    ensures Get(fs, key).Some? <==> Get(gs, key).Some?
    ensures Get(fs, key).Some? ==>
              && WellFormed(Get(fs, key).value) && WellFormed(Get(gs, key).value)
              && Same(Get(fs, key).value, Get(gs, key).value)
  {
    if Get(fs, key).Some? {
      GetSameOneWay(fs, gs, key);
    }
    if Get(gs, key).Some? {
      SameSymmetric(Object(fs), Object(gs));
      GetSameOneWay(gs, fs, key);
    }
  }

  lemma GetSameOneWay(fs: seq<Field>, gs: seq<Field>, key: string)
    requires WellFormed(Object(fs)) && WellFormed(Object(gs)) && Same(Object(fs), Object(gs))
    requires Get(fs, key).Some?
    ensures Get(gs, key).Some?
    ensures WellFormed(Get(fs, key).value) && WellFormed(Get(gs, key).value)
    ensures Same(Get(fs, key).value, Get(gs, key).value)
  {
    GetIsMember(fs, key);
    var i :| 0 <= i < |fs| && fs[i] == Field(key, Get(fs, key).value);
    assert MatchedBy(fs[i], gs);
    var j :| 0 <= j < |gs| && SameField(fs[i], gs[j]);
    GetIsUnique(gs, j);
  }

  // ── The text is plain ASCII ────────────────────────────────────────

  lemma {:induction false} EscapeAscii(s: string)
    ensures IsAscii(Escape(s))
  {
    if s != "" {
      EscapeAscii(s[1..]);
    }
  }

  lemma {:induction false} PrintNatAscii(n: nat)
    ensures IsAscii(PrintNat(n))
  {
    if n >= 10 {
      PrintNatAscii(n / 10);
    }
  }

  lemma {:induction false} PrintAscii(v: Json)
    ensures IsAscii(Print(v))
    decreases v, 1
  {
    match v
    case Int(n) => PrintNatAscii(if n < 0 then -n else n);
    case Str(s) => EscapeAscii(s);
    case List(items) => PrintItemsAscii(items);
    case Object(fields) => PrintFieldsAscii(fields);
    case _ =>
  }

  lemma {:induction false} PrintItemsAscii(items: seq<Json>)
    ensures IsAscii(PrintItems(items))
    decreases items, 0
  {
    if items != [] {
      PrintAscii(items[0]);
      PrintItemsAscii(items[1..]);
    }
  }

  lemma {:induction false} PrintFieldsAscii(fields: seq<Field>)
    ensures IsAscii(PrintFields(fields))
    decreases fields, 0
  {
    if fields != [] {
      EscapeAscii(fields[0].key);
      PrintAscii(fields[0].value);
      PrintFieldsAscii(fields[1..]);
    }
  }
}
