/** The marker aggregation of `main` (overviewer_core/aux_files/genPOI.py
    lines 204-246): per render, one markers.js index entry and one markersDB
    entry per marker set, the latter seeded with the render's manual POIs;
    then, per regionset, every POI run through every marker set's filter and
    each record appended to that set's `raw` list.

    Filter functions are opaque: each is a Dafny function from POI to the
    value it returns, together with the `hash()` that names it. */
module Aggregation {
  import opened PyValue
  import opened Naming
  import opened Markers
  import opened Progress
  import opened Entities
  import opened Players

  type Filter = Poi -> Value

  /** One entry of a render's `markers` list in the configuration. */
  datatype MarkerDef = MarkerDef(
    name: string,
    filter: Filter,
    filterHash: int,
    icon: Option<Value>,
    createInfoWindow: Option<Value>,
    checked: Option<Value>)

  /** The render being seeded: its name, its marker sets, its manual POIs and
      the regionset it draws (its identity and its `hash()`). */
  datatype Render = Render(
    name: string,
    markerDefs: seq<MarkerDef>,
    manualPois: seq<Poi>,
    rsetId: nat,
    rsetHash: int)

  /** A markers.js entry. */
  datatype IndexEntry = IndexEntry(
    groupName: string,
    displayName: string,
    icon: Value,
    createInfoWindow: Value,
    checked: Value)

  /** A markersDB.js entry; `created` is always False. */
  datatype MarkerSetEntry = MarkerSetEntry(created: bool, name: string, raw: seq<Marker>)

  /** What the regionset loop reads from one regionset: its chunks (for
      iter_entities), its type tag, and what its world holds of player data
      (for iter_player_pois). */
  datatype RegionSetData = RegionSetData(
    chunks: seq<Chunk>,
    typeTag: Option<string>,
    playerDir: PlayerDir,
    listing: seq<PlayerFile>,
    levelDat: PlayerFile)

  /** A marker set as the regionset loop sees it: internal name and filter. */
  datatype MarkerSetRef = MarkerSetRef(internalName: string, filter: Filter)

  function InternalName(f: MarkerDef, r: Render): (n: string)
    ensures |f.name| + 7 <= |n| && n[..|f.name|] == Sanitize(f.name) && IsSafe(n)
  {
    InternalNameShape(f.name, f.filterHash, r.rsetHash);
    GetInternalName(f.name, f.filterHash, r.rsetHash)
  }

  /** Lines 208-214 for a marker set with internal name `name`, with the
      configuration's defaults. */
  function IndexEntryOf(f: MarkerDef, name: string): (e: IndexEntry)
    ensures e.groupName == name && e.displayName == f.name
    ensures e.icon == (if f.icon.Some? then f.icon.value else Str("signpost_icon.png"))
    ensures e.createInfoWindow == (if f.createInfoWindow.Some? then f.createInfoWindow.value else Bool(true))
    ensures e.checked == (if f.checked.Some? then f.checked.value else Bool(false))
  {
    IndexEntry(
      name, f.name,
      match f.icon case Some(v) => v case None => Str("signpost_icon.png"),
      match f.createInfoWindow case Some(v) => v case None => Bool(true),
      match f.checked case Some(v) => v case None => Bool(false))
  }

  /** The non-None records a filter produces for a sequence of POIs, in
      order (the `filter(lambda x: x is not None, ...)` of lines 218-221); the
      first error aborts. */
  function Collect(filter: Filter, pois: seq<Poi>): (r: Result<seq<Marker>, Error>)
    ensures r.Ok? ==> |r.value| <= |pois|
  {
    if pois == [] then Ok([])
    else
      var first :- HandlePoiResult(pois[0], filter(pois[0]));
      var rest :- Collect(filter, pois[1..]);
      Ok((if first.Some? then [first.value] else []) + rest)
  }

  /** Seeding fails exactly when the filter's result fails on some POI. */
  lemma {:induction false} CollectFails(filter: Filter, pois: seq<Poi>)
    ensures Collect(filter, pois).Ok? <==>
      forall i :: 0 <= i < |pois| ==> HandlePoiResult(pois[i], filter(pois[i])).Ok?
  {
    if pois != [] {
      CollectFails(filter, pois[1..]);
      assert forall i :: 1 <= i < |pois| ==> pois[i] == pois[1..][i - 1];
    }
  }

  /** The collected records are exactly the records the filter gives. */
  lemma {:induction false} CollectMembers(filter: Filter, pois: seq<Poi>)
    requires Collect(filter, pois).Ok?
    ensures forall m :: m in Collect(filter, pois).value <==>
      exists i :: 0 <= i < |pois| && HandlePoiResult(pois[i], filter(pois[i])) == Ok(Some(m))
  {
    if pois != [] {
      CollectMembers(filter, pois[1..]);
      var first := HandlePoiResult(pois[0], filter(pois[0])).value;
      var rest := Collect(filter, pois[1..]).value;
      assert Collect(filter, pois).value == (if first.Some? then [first.value] else []) + rest;
      forall m ensures m in Collect(filter, pois).value <==>
        exists i :: 0 <= i < |pois| && HandlePoiResult(pois[i], filter(pois[i])) == Ok(Some(m))
      {
        if m in rest {
          var i :| 0 <= i < |pois[1..]| && HandlePoiResult(pois[1..][i], filter(pois[1..][i])) == Ok(Some(m));
          assert pois[1..][i] == pois[i + 1];
        }
        if exists i :: 0 <= i < |pois| && HandlePoiResult(pois[i], filter(pois[i])) == Ok(Some(m)) {
          var i :| 0 <= i < |pois| && HandlePoiResult(pois[i], filter(pois[i])) == Ok(Some(m));
          if i > 0 {
            assert pois[i] == pois[1..][i - 1];
          }
        }
      }
    }
  }

  /** The record appended for one POI in one marker set. */
  function Append(db: map<string, MarkerSetEntry>, name: string, m: Option<Marker>): (r: map<string, MarkerSetEntry>)
    requires name in db
    ensures r.Keys == db.Keys
    ensures forall k :: k in db && k != name ==> r[k] == db[k]
    ensures r[name].(raw := db[name].raw) == db[name]
    ensures r[name].raw == db[name].raw + (if m.Some? then [m.value] else [])
  {
    if m.Some? then db[name := db[name].(raw := db[name].raw + [m.value])] else db
  }

  predicate NamesIn(sets: seq<MarkerSetRef>, db: map<string, MarkerSetEntry>)
  {
    forall j :: 0 <= j < |sets| ==> sets[j].internalName in db
  }

  /** Lines 236-239 for one POI: each marker set in turn. */
  function ApplySets(db: map<string, MarkerSetEntry>, sets: seq<MarkerSetRef>, poi: Poi): (r: Result<map<string, MarkerSetEntry>, Error>)
    requires NamesIn(sets, db)
    ensures r.Ok? ==> r.value.Keys == db.Keys
  {
    if sets == [] then Ok(db)
    else
      var m :- HandlePoiResult(poi, sets[0].filter(poi));
      var db' := Append(db, sets[0].internalName, m);
      ApplySets(db', sets[1..], poi)
  }

  /** Lines 235-239: every POI through every marker set. */
  function ApplyPois(db: map<string, MarkerSetEntry>, sets: seq<MarkerSetRef>, pois: seq<Poi>): (r: Result<map<string, MarkerSetEntry>, Error>)
    requires NamesIn(sets, db)
    ensures r.Ok? ==> r.value.Keys == db.Keys
  {
    if pois == [] then Ok(db)
    else
      var db' :- ApplySets(db, sets, pois[0]);
      ApplyPois(db', sets, pois[1..])
  }

  predicate DistinctNames(sets: seq<MarkerSetRef>)
  {
    forall j, k :: 0 <= j < k < |sets| ==> sets[j].internalName != sets[k].internalName
  }

  /** One POI through all marker sets succeeds only if every set's filter
      result is handled without error. */
  lemma {:induction false} ApplySetsOk(db: map<string, MarkerSetEntry>, sets: seq<MarkerSetRef>, poi: Poi)
    requires NamesIn(sets, db) && ApplySets(db, sets, poi).Ok?
    ensures forall j :: 0 <= j < |sets| ==> HandlePoiResult(poi, sets[j].filter(poi)).Ok?
  {
    if sets != [] {
      var m := HandlePoiResult(poi, sets[0].filter(poi)).value;
      var db' := Append(db, sets[0].internalName, m);
      ApplySetsOk(db', sets[1..], poi);
      forall j | 1 <= j < |sets| ensures HandlePoiResult(poi, sets[j].filter(poi)).Ok? {
        assert sets[j] == sets[1..][j - 1];
      }
    }
  }

  /** One POI changes no entry whose name is not a marker set's. */
  lemma {:induction false} ApplySetsUntouched(db: map<string, MarkerSetEntry>, sets: seq<MarkerSetRef>, poi: Poi, n: string)
    requires NamesIn(sets, db) && ApplySets(db, sets, poi).Ok?
    requires n in db && forall j :: 0 <= j < |sets| ==> sets[j].internalName != n
    ensures ApplySets(db, sets, poi).value[n] == db[n]
  {
    if sets != [] {
      var m := HandlePoiResult(poi, sets[0].filter(poi)).value;
      var db' := Append(db, sets[0].internalName, m);
      forall k | 0 <= k < |sets[1..]| ensures sets[1..][k].internalName != n {
        assert sets[1..][k] == sets[k + 1];
      }
      ApplySetsUntouched(db', sets[1..], poi, n);
    }
  }

  /** For one POI and distinct marker-set names: each set's list grows by its
      own filter's record, and no other entry changes. */
  lemma {:induction false} ApplySetsEffect(db: map<string, MarkerSetEntry>, sets: seq<MarkerSetRef>, poi: Poi)
    requires NamesIn(sets, db) && DistinctNames(sets)
    requires ApplySets(db, sets, poi).Ok?
    ensures forall j :: 0 <= j < |sets| ==> HandlePoiResult(poi, sets[j].filter(poi)).Ok?
    ensures forall j :: 0 <= j < |sets| ==>
      var m := HandlePoiResult(poi, sets[j].filter(poi)).value;
      ApplySets(db, sets, poi).value[sets[j].internalName] ==
        db[sets[j].internalName].(raw := db[sets[j].internalName].raw + (if m.Some? then [m.value] else []))
  {
    ApplySetsOk(db, sets, poi);
    if sets != [] {
      var m := HandlePoiResult(poi, sets[0].filter(poi)).value;
      var db' := Append(db, sets[0].internalName, m);
      assert NamesIn(sets[1..], db');
      assert DistinctNames(sets[1..]);
      ApplySetsEffect(db', sets[1..], poi);
      var out := ApplySets(db, sets, poi).value;
      assert out == ApplySets(db', sets[1..], poi).value;
      forall j | 0 <= j < |sets|
        ensures var mj := HandlePoiResult(poi, sets[j].filter(poi)).value;
          out[sets[j].internalName] ==
            db[sets[j].internalName].(raw := db[sets[j].internalName].raw + (if mj.Some? then [mj.value] else []))
      {
        if j == 0 {
          forall k | 0 <= k < |sets[1..]| ensures sets[1..][k].internalName != sets[0].internalName {
            assert sets[1..][k] == sets[k + 1];
          }
          ApplySetsUntouched(db', sets[1..], poi, sets[0].internalName);
        } else {
          assert sets[j] == sets[1..][j - 1];
        }
      }
    }
  }

  lemma AppendAssoc(a: seq<Marker>, b: seq<Marker>, c: seq<Marker>)
    ensures (a + b) + c == a + (b + c)
  {
  }

  lemma CollectCons(filter: Filter, pois: seq<Poi>)
    requires pois != [] && HandlePoiResult(pois[0], filter(pois[0])).Ok?
    requires Collect(filter, pois[1..]).Ok?
    ensures var m := HandlePoiResult(pois[0], filter(pois[0])).value;
      Collect(filter, pois) == Ok((if m.Some? then [m.value] else []) + Collect(filter, pois[1..]).value)
  {
  }

  /** Over all POIs, with distinct names: each marker set's list is extended
      by exactly what its filter collects from the POIs, in POI order. */
  lemma {:induction false} ApplyPoisCollects(db: map<string, MarkerSetEntry>, sets: seq<MarkerSetRef>, pois: seq<Poi>)
    requires NamesIn(sets, db) && DistinctNames(sets)
    requires ApplyPois(db, sets, pois).Ok?
    ensures forall j :: 0 <= j < |sets| ==>
      && Collect(sets[j].filter, pois).Ok?
      && ApplyPois(db, sets, pois).value[sets[j].internalName] ==
           db[sets[j].internalName].(raw := db[sets[j].internalName].raw + Collect(sets[j].filter, pois).value)
  {
    if pois == [] {
      forall j | 0 <= j < |sets|
        ensures db[sets[j].internalName].raw + [] == db[sets[j].internalName].raw
      {
      }
    } else {
      ApplySetsEffect(db, sets, pois[0]);
      var db' := ApplySets(db, sets, pois[0]).value;
      assert NamesIn(sets, db');
      var out := ApplyPois(db', sets, pois[1..]).value;
      assert ApplyPois(db, sets, pois).value == out;
      ApplyPoisCollects(db', sets, pois[1..]);
      forall j | 0 <= j < |sets|
        ensures && Collect(sets[j].filter, pois).Ok?
                && out[sets[j].internalName] ==
                   db[sets[j].internalName].(raw := db[sets[j].internalName].raw + Collect(sets[j].filter, pois).value)
      {
        var n := sets[j].internalName;
        var m := HandlePoiResult(pois[0], sets[j].filter(pois[0])).value;
        CollectCons(sets[j].filter, pois);
        AppendAssoc(db[n].raw, if m.Some? then [m.value] else [], Collect(sets[j].filter, pois[1..]).value);
      }
    }
  }

  /** What one POI adds to the entry named n: one record per registration
      of n among the marker sets, in registration order, whether or not the
      registrations share a filter. */
  function RecordsFor(sets: seq<MarkerSetRef>, poi: Poi, n: string): (r: seq<Marker>)
    ensures |r| <= |sets|
    ensures forall m :: m in r ==>
      exists j :: 0 <= j < |sets| && sets[j].internalName == n && HandlePoiResult(poi, sets[j].filter(poi)) == Ok(Some(m))
  {
    if sets == [] then []
    else
      var m := HandlePoiResult(poi, sets[0].filter(poi));
      var rest := RecordsFor(sets[1..], poi, n);
      assert forall m', j :: 0 <= j < |sets[1..]| && m' in rest ==> sets[1..][j] == sets[j + 1];
      (if sets[0].internalName == n && m.Ok? && m.value.Some? then [m.value.value] else []) + rest
  }

  /** One POI through the marker sets, whatever the names: the entry named n
      grows by RecordsFor(sets, poi, n) and keeps everything else. */
  lemma {:induction false} ApplySetsRecords(db: map<string, MarkerSetEntry>, sets: seq<MarkerSetRef>, poi: Poi, n: string)
    requires NamesIn(sets, db) && ApplySets(db, sets, poi).Ok? && n in db
    ensures ApplySets(db, sets, poi).value[n] == db[n].(raw := db[n].raw + RecordsFor(sets, poi, n))
  {
    if sets == [] {
      assert db[n].raw + [] == db[n].raw;
    } else {
      var m := HandlePoiResult(poi, sets[0].filter(poi)).value;
      var db' := Append(db, sets[0].internalName, m);
      assert NamesIn(sets[1..], db');
      ApplySetsRecords(db', sets[1..], poi, n);
      var mine := if sets[0].internalName == n && m.Some? then [m.value] else [];
      assert db'[n].raw == db[n].raw + mine;
      AppendAssoc(db[n].raw, mine, RecordsFor(sets[1..], poi, n));
    }
  }

  /** What all POIs add to the entry named n: each POI's records in POI order. */
  function PoisRecordsFor(sets: seq<MarkerSetRef>, pois: seq<Poi>, n: string): seq<Marker>
  {
    if pois == [] then []
    else RecordsFor(sets, pois[0], n) + PoisRecordsFor(sets, pois[1..], n)
  }

  /** The regionset loop, whatever the names: the entry named n grows by one
      record per POI and per registration of n, POI by POI, and within a POI
      in registration order. */
  lemma {:induction false} ApplyPoisRecords(db: map<string, MarkerSetEntry>, sets: seq<MarkerSetRef>, pois: seq<Poi>, n: string)
    requires NamesIn(sets, db) && ApplyPois(db, sets, pois).Ok? && n in db
    ensures ApplyPois(db, sets, pois).value[n] == db[n].(raw := db[n].raw + PoisRecordsFor(sets, pois, n))
  {
    if pois == [] {
      assert db[n].raw + [] == db[n].raw;
    } else {
      ApplySetsRecords(db, sets, pois[0], n);
      var db' := ApplySets(db, sets, pois[0]).value;
      assert NamesIn(sets, db');
      ApplyPoisRecords(db', sets, pois[1..], n);
      AppendAssoc(db[n].raw, RecordsFor(sets, pois[0], n), PoisRecordsFor(sets, pois[1..], n));
    }
  }

  /** A marker set registered twice for a regionset (two renders of it with
      the same marker definition) receives each record twice. */
  lemma RegisteredTwice(db: map<string, MarkerSetEntry>, n: string, filter: Filter, poi: Poi, m: Marker)
    requires n in db && HandlePoiResult(poi, filter(poi)) == Ok(Some(m))
    ensures var sets := [MarkerSetRef(n, filter), MarkerSetRef(n, filter)];
      NamesIn(sets, db) && ApplySets(db, sets, poi) == Ok(db[n := db[n].(raw := db[n].raw + [m, m])])
  {
    var sets := [MarkerSetRef(n, filter), MarkerSetRef(n, filter)];
    var db1 := db[n := db[n].(raw := db[n].raw + [m])];
    var db2 := db1[n := db1[n].(raw := db1[n].raw + [m])];
    assert Append(db, n, Some(m)) == db1 && Append(db1, n, Some(m)) == db2;
    assert sets[1..] == [MarkerSetRef(n, filter)] && sets[1..][1..] == [];
    assert ApplySets(db, sets, poi) == ApplySets(db1, sets[1..], poi);
    assert ApplySets(db1, sets[1..], poi) == Ok(db2);
    assert db[n].raw + [m] + [m] == db[n].raw + [m, m];
    assert db2 == db[n := db[n].(raw := db[n].raw + [m, m])];
  }

  /** The internal names of a render's marker sets, in order. */
  function InternalNames(r: Render): (names: seq<string>)
    ensures |names| == |r.markerDefs|
    ensures forall j :: 0 <= j < |names| ==> names[j] == InternalName(r.markerDefs[j], r)
  {
    seq(|r.markerDefs|, j requires 0 <= j < |r.markerDefs| => InternalName(r.markerDefs[j], r))
  }

  /** Lines 215-222 for marker sets in order, given their internal names:
      each name (re)bound to a fresh entry seeded from the manual POIs. */
  function SeedDb(db: map<string, MarkerSetEntry>, defs: seq<MarkerDef>, names: seq<string>, manual: seq<Poi>)
    : (out: Result<map<string, MarkerSetEntry>, Error>)
    requires |names| == |defs|
    ensures out.Ok? ==> db.Keys <= out.value.Keys
    ensures out.Ok? ==> forall j :: 0 <= j < |names| ==> names[j] in out.value
    ensures out.Ok? ==> forall n :: n in out.value && n !in db ==> n in names
    decreases defs
  {
    if defs == [] then Ok(db)
    else
      var raw :- Collect(defs[0].filter, manual);
      SeedDb(db[names[0] := MarkerSetEntry(false, defs[0].name, raw)], defs[1..], names[1..], manual)
  }

  /** Seeding succeeds only if every filter is handled without error on
      every manual POI. */
  lemma {:induction false} SeedDbOk(db: map<string, MarkerSetEntry>, defs: seq<MarkerDef>, names: seq<string>, manual: seq<Poi>)
    requires |names| == |defs| && SeedDb(db, defs, names, manual).Ok?
    ensures forall j :: 0 <= j < |defs| ==> Collect(defs[j].filter, manual).Ok?
    decreases defs
  {
    if defs != [] {
      var raw := Collect(defs[0].filter, manual).value;
      SeedDbOk(db[names[0] := MarkerSetEntry(false, defs[0].name, raw)], defs[1..], names[1..], manual);
      forall j | 1 <= j < |defs| ensures Collect(defs[j].filter, manual).Ok? {
        assert defs[j] == defs[1..][j - 1];
      }
    }
  }

  /** Seeding leaves entries of other names untouched. */
  lemma {:induction false} SeedDbUntouched(db: map<string, MarkerSetEntry>, defs: seq<MarkerDef>, names: seq<string>, manual: seq<Poi>, n: string)
    requires |names| == |defs| && SeedDb(db, defs, names, manual).Ok?
    requires n in db && n !in names
    ensures SeedDb(db, defs, names, manual).value[n] == db[n]
    decreases defs
  {
    if defs != [] {
      var raw := Collect(defs[0].filter, manual).value;
      assert names[0] in names;
      SeedDbUntouched(db[names[0] := MarkerSetEntry(false, defs[0].name, raw)], defs[1..], names[1..], manual, n);
    }
  }

  /** Seeding: a marker set whose internal name no later set reuses holds
      exactly its filter's records for the manual POIs. A later set with the
      same name replaces the earlier one. */
  lemma {:induction false} SeedDbEntries(db: map<string, MarkerSetEntry>, defs: seq<MarkerDef>, names: seq<string>, manual: seq<Poi>)
    requires |names| == |defs| && SeedDb(db, defs, names, manual).Ok?
    ensures forall j :: 0 <= j < |defs| ==> Collect(defs[j].filter, manual).Ok?
    ensures forall j :: (0 <= j < |defs| && forall k :: j < k < |defs| ==> names[k] != names[j]) ==>
      SeedDb(db, defs, names, manual).value[names[j]] ==
        MarkerSetEntry(false, defs[j].name, Collect(defs[j].filter, manual).value)
    decreases defs
  {
    SeedDbOk(db, defs, names, manual);
    if defs != [] {
      var raw := Collect(defs[0].filter, manual).value;
      var db' := db[names[0] := MarkerSetEntry(false, defs[0].name, raw)];
      SeedDbEntries(db', defs[1..], names[1..], manual);
      var out := SeedDb(db, defs, names, manual).value;
      assert out == SeedDb(db', defs[1..], names[1..], manual).value;
      forall j | 0 <= j < |defs| && (forall k :: j < k < |defs| ==> names[k] != names[j])
        ensures out[names[j]] == MarkerSetEntry(false, defs[j].name, Collect(defs[j].filter, manual).value)
      {
        if j == 0 {
          assert names[0] !in names[1..] by {
            forall k | 0 <= k < |names[1..]| ensures names[1..][k] != names[0] {
              assert names[1..][k] == names[k + 1];
            }
          }
          SeedDbUntouched(db', defs[1..], names[1..], manual, names[0]);
        } else {
          assert defs[j] == defs[1..][j - 1] && names[j] == names[1..][j - 1];
          forall k | j - 1 < k < |names[1..]| ensures names[1..][k] != names[1..][j - 1] {
            assert names[1..][k] == names[k + 1];
          }
        }
      }
    }
  }

  /** One step of seeding. */
  lemma SeedDbStep(db: map<string, MarkerSetEntry>, defs: seq<MarkerDef>, names: seq<string>, manual: seq<Poi>)
    requires |names| == |defs| && defs != []
    ensures Collect(defs[0].filter, manual).Err? ==>
      SeedDb(db, defs, names, manual) == Err(Collect(defs[0].filter, manual).error)
    ensures Collect(defs[0].filter, manual).Ok? ==>
      SeedDb(db, defs, names, manual) == SeedDb(db[names[0] :=
        MarkerSetEntry(false, defs[0].name, Collect(defs[0].filter, manual).value)], defs[1..], names[1..], manual)
  {
  }

  /** The markers.js list for marker sets with the given internal names. */
  function IndexEntries(defs: seq<MarkerDef>, names: seq<string>): (es: seq<IndexEntry>)
    requires |names| == |defs|
    ensures |es| == |defs|
    ensures forall j :: 0 <= j < |es| ==> es[j] == IndexEntryOf(defs[j], names[j])
  {
    seq(|defs|, j requires 0 <= j < |defs| => IndexEntryOf(defs[j], names[j]))
  }

  /** The marker sets as registered for their regionset. */
  function SetRefs(defs: seq<MarkerDef>, names: seq<string>): (refs: seq<MarkerSetRef>)
    requires |names| == |defs|
    ensures |refs| == |defs|
    ensures forall j :: 0 <= j < |refs| ==> refs[j] == MarkerSetRef(names[j], defs[j].filter)
  {
    seq(|defs|, j requires 0 <= j < |defs| => MarkerSetRef(names[j], defs[j].filter))
  }

  lemma NamesInUpdate(sets: seq<MarkerSetRef>, db: map<string, MarkerSetEntry>, s: MarkerSetRef, e: MarkerSetEntry)
    requires NamesIn(sets, db)
    ensures NamesIn(sets + [s], db[s.internalName := e])
  {
  }

  lemma TakeOneMore<T>(s: seq<T>, i: nat)
    requires i < |s|
    ensures s[..i + 1] == s[..i] + [s[i]]
  {
  }

  lemma AppendOneMore<T>(before: seq<T>, s: seq<T>, i: nat)
    requires i < |s|
    ensures before + s[..i + 1] == (before + s[..i]) + [s[i]]
  {
    assert s[..i + 1] == s[..i] + [s[i]];
  }

  /** Registered marker sets keep their entries when entries are added. */
  lemma NamesInGrow(sets: map<nat, seq<MarkerSetRef>>, oldDb: map<string, MarkerSetEntry>,
                    db: map<string, MarkerSetEntry>, id: nat, added: seq<MarkerSetRef>,
                    newSets: map<nat, seq<MarkerSetRef>>)
    requires forall k :: k in sets ==> NamesIn(sets[k], oldDb)
    requires oldDb.Keys <= db.Keys && NamesIn(added, db)
    requires newSets == sets[id := added]
    ensures forall k :: k in newSets ==> NamesIn(newSets[k], db)
  {
    forall k | k in newSets ensures NamesIn(newSets[k], db) {
      if k != id {
        assert NamesIn(sets[k], oldDb);
      }
    }
  }

  /** Lines 230-232: the POIs of one regionset, its entities (unless the
      scan is skipped) chained before its players' POIs. Both sources are
      generators, so an entity-scan error surfaces before any player error. */
  function RegionSetPois(skipScan: bool, entities: Result<seq<Poi>, Error>, players: Result<seq<Poi>, Error>)
    : (r: Result<seq<Poi>, Error>)
    ensures skipScan ==> r == players
    ensures !skipScan && entities.Err? ==> r == entities
    ensures !skipScan && entities.Ok? && players.Err? ==> r == players
    ensures r.Ok? && !skipScan ==>
      |r.value| == |entities.value| + |players.value| &&
      r.value[..|entities.value|] == entities.value && r.value[|entities.value|..] == players.value
  {
    if skipScan then players
    else if entities.Err? then entities
    else Prepend(entities.value, players)
  }

  /** The loop of lines 206-226 on values: each marker set's index entry,
      its seeded database entry and its registration for the regionset,
      stopping at the first filter error. */
  method SeedMarkerSets(db: map<string, MarkerSetEntry>, defs: seq<MarkerDef>, names: seq<string>,
                        manual: seq<Poi>, before: seq<MarkerSetRef>)
    returns (err: Option<Error>, out: map<string, MarkerSetEntry>, entries: seq<IndexEntry>, registered: seq<MarkerSetRef>)
    requires |names| == |defs| && NamesIn(before, db)
    ensures err.None? <==> SeedDb(db, defs, names, manual).Ok?
    ensures err.Some? ==> SeedDb(db, defs, names, manual) == Err(err.value)
    ensures err.None? ==> out == SeedDb(db, defs, names, manual).value
    ensures err.None? ==> entries == IndexEntries(defs, names)
    ensures err.None? ==> registered == before + SetRefs(defs, names) && NamesIn(registered, out)
  {
    entries := [];
    registered := before;
    out := db;
    var i := 0;
    assert defs[i..] == defs && names[i..] == names;
    while i < |defs|
      invariant 0 <= i <= |defs|
      invariant entries == IndexEntries(defs, names)[..i]
      invariant registered == before + SetRefs(defs, names)[..i]
      invariant SeedDb(db, defs, names, manual) == SeedDb(out, defs[i..], names[i..], manual)
      invariant NamesIn(registered, out)
    {
      var f := defs[i];
      var name := names[i];
      assert defs[i..][0] == f && defs[i..][1..] == defs[i + 1..];
      assert names[i..][0] == name && names[i..][1..] == names[i + 1..];
      SeedDbStep(out, defs[i..], names[i..], manual);
      entries := entries + [IndexEntryOf(f, name)];
      var raw := Collect(f.filter, manual);
      if raw.Err? {
        return Some(raw.error), out, entries, registered;
      }
      NamesInUpdate(registered, out, MarkerSetRef(name, f.filter), MarkerSetEntry(false, f.name, raw.value));
      out := out[name := MarkerSetEntry(false, f.name, raw.value)];
      registered := registered + [MarkerSetRef(name, f.filter)];
      TakeOneMore(IndexEntries(defs, names), i);
      AppendOneMore(before, SetRefs(defs, names), i);
      i := i + 1;
    }
    assert defs[i..] == [];
    assert IndexEntries(defs, names)[..i] == IndexEntries(defs, names);
    assert SetRefs(defs, names)[..i] == SetRefs(defs, names);
    err := None;
  }

  /** The inner loop of lines 236-239 on values: one POI through each marker
      set in turn, appending its records. */
  method ApplyToPoi(db: map<string, MarkerSetEntry>, sets: seq<MarkerSetRef>, poi: Poi)
    returns (err: Option<Error>, out: map<string, MarkerSetEntry>)
    requires NamesIn(sets, db)
    ensures err.None? <==> ApplySets(db, sets, poi).Ok?
    ensures err.Some? ==> ApplySets(db, sets, poi) == Err(err.value)
    ensures err.None? ==> out == ApplySets(db, sets, poi).value
  {
    out := db;
    var j := 0;
    assert sets[j..] == sets;
    while j < |sets|
      invariant 0 <= j <= |sets|
      invariant NamesIn(sets, out) && out.Keys == db.Keys
      invariant ApplySets(db, sets, poi) == ApplySets(out, sets[j..], poi)
    {
      assert sets[j..][0] == sets[j] && sets[j..][1..] == sets[j + 1..];
      var m := HandlePoiResult(poi, sets[j].filter(poi));
      if m.Err? {
        return Some(m.error), out;
      }
      out := Append(out, sets[j].internalName, m.value);
      j := j + 1;
    }
    assert sets[j..] == [];
    err := None;
  }

  /** The loops of lines 233-246 on values: every POI through every marker
      set, appending the records, with the progress log at the report counts. */
  method ApplyAll(db: map<string, MarkerSetEntry>, sets: seq<MarkerSetRef>, pois: seq<Poi>)
    returns (err: Option<Error>, out: map<string, MarkerSetEntry>, logged: seq<nat>)
    requires NamesIn(sets, db)
    ensures err.None? <==> ApplyPois(db, sets, pois).Ok?
    ensures err.Some? ==> ApplyPois(db, sets, pois) == Err(err.value)
    ensures err.None? ==> out == ApplyPois(db, sets, pois).value && logged == ReportsUpTo(|pois|)
  {
    var count: nat := 0;
    var freq: nat := 100;
    logged := [];
    out := db;
    var i := 0;
    assert pois[i..] == pois;
    while i < |pois|
      invariant 0 <= i <= |pois| && count == i
      invariant NamesIn(sets, out) && out.Keys == db.Keys
      invariant ApplyPois(db, sets, pois) == ApplyPois(out, sets, pois[i..])
      invariant freq == Freq(count) && logged == ReportsUpTo(count)
    {
      var poi := pois[i];
      assert pois[i..][0] == poi && pois[i..][1..] == pois[i + 1..];
      var e;
      e, out := ApplyToPoi(out, sets, poi);
      if e.Some? {
        return e, out, logged;
      }
      count, freq, logged := Tick(count, freq, logged);
      i := i + 1;
    }
    assert pois[i..] == [];
    err := None;
  }

  /** Runtime state of main: markers.js, markersDB.js and the marker sets
      registered per regionset. */
  class Aggregator {
    var markers: map<string, seq<IndexEntry>>
    var markerDb: map<string, MarkerSetEntry>
    var markersetsByRset: map<nat, seq<MarkerSetRef>>

    /** Every registered marker set has its markersDB entry. */
    ghost predicate Valid()
      reads this
    {
      forall id :: id in markersetsByRset ==> NamesIn(markersetsByRset[id], markerDb)
    }

    constructor ()
      ensures Valid()
      ensures markers == map[] && markerDb == map[] && markersetsByRset == map[]
    {
      markers := map[];
      markerDb := map[];
      markersetsByRset := map[];
    }

    /** Lines 204-226 for one render. A filter that fails on a manual POI
        aborts the run and leaves the state as it was. */
    method AddRender(r: Render) returns (err: Option<Error>)
      requires Valid()
      modifies this
      ensures var names := InternalNames(r);
        && (err.None? <==> SeedDb(old(markerDb), r.markerDefs, names, r.manualPois).Ok?)
        && (err.None? ==> Valid())
        && (err.None? ==> markers == old(markers)[r.name := IndexEntries(r.markerDefs, names)])
        && (err.None? ==> markerDb == SeedDb(old(markerDb), r.markerDefs, names, r.manualPois).value)
        && (err.None? ==> markersetsByRset == old(markersetsByRset)[r.rsetId :=
             (if r.rsetId in old(markersetsByRset) then old(markersetsByRset)[r.rsetId] else [])
             + SetRefs(r.markerDefs, names)])
      ensures err.Some? ==>
        markers == old(markers) && markerDb == old(markerDb) && markersetsByRset == old(markersetsByRset)
    {
      err := AddMarkerSets(r.name, r.markerDefs, InternalNames(r), r.manualPois, r.rsetId);
    }

    /** Lines 205-226 given the internal names: the loop runs on local
        copies, which are stored once every marker set is seeded. */
    method AddMarkerSets(rname: string, defs: seq<MarkerDef>, names: seq<string>, manual: seq<Poi>, rsetId: nat)
      returns (err: Option<Error>)
      requires Valid() && |names| == |defs|
      modifies this
      ensures err.None? <==> SeedDb(old(markerDb), defs, names, manual).Ok?
      ensures err.None? ==> Valid()
      ensures err.None? ==> markers == old(markers)[rname := IndexEntries(defs, names)]
      ensures err.None? ==> markerDb == SeedDb(old(markerDb), defs, names, manual).value
      ensures err.None? ==> markersetsByRset == old(markersetsByRset)[rsetId :=
        (if rsetId in old(markersetsByRset) then old(markersetsByRset)[rsetId] else []) + SetRefs(defs, names)]
      ensures err.Some? ==>
        markers == old(markers) && markerDb == old(markerDb) && markersetsByRset == old(markersetsByRset)
    {
      var before := if rsetId in markersetsByRset then markersetsByRset[rsetId] else [];
      var db, entries, registered;
      err, db, entries, registered := SeedMarkerSets(markerDb, defs, names, manual, before);
      if err.Some? {
        return;
      }
      NamesInGrow(markersetsByRset, markerDb, db, rsetId, registered, markersetsByRset[rsetId := registered]);
      markerDb := db;
      markers := markers[rname := entries];
      markersetsByRset := markersetsByRset[rsetId := registered];
    }

    /** Lines 228-246 for one regionset whose marker sets are registered:
        its POIs (entities unless the scan is skipped, then its players'),
        every POI through every marker set, and the progress log. The entity
        scan is the corrected one, which skips a chunk that fails to load; a
        failing player generator or filter aborts the run. */
    method ProcessRegionSet(rsetId: nat, rset: RegionSetData, skipScan: bool)
      returns (err: Option<Error>, logged: seq<nat>, warnings: seq<(int, int)>)
      requires Valid() && rsetId in markersetsByRset
      modifies this
      ensures Valid()
      ensures markers == old(markers) && markersetsByRset == old(markersetsByRset)
      ensures var pois := RegionSetPois(skipScan, Ok(ScanOf(rset.chunks)),
                                        PlayerPois(rset.typeTag, rset.playerDir, rset.listing, rset.levelDat));
        && (pois.Err? ==> err == Some(pois.error) && markerDb == old(markerDb))
        && (pois.Ok? ==> (err.None? <==> ApplyPois(old(markerDb), markersetsByRset[rsetId], pois.value).Ok?))
        && (pois.Ok? && err.Some? ==>
              ApplyPois(old(markerDb), markersetsByRset[rsetId], pois.value) == Err(err.value) && markerDb == old(markerDb))
        && (pois.Ok? && err.None? ==>
              markerDb == ApplyPois(old(markerDb), markersetsByRset[rsetId], pois.value).value &&
              logged == ReportsUpTo(|pois.value|))
      ensures skipScan ==> warnings == []
      ensures !skipScan ==> warnings == ScanWarnings(rset.chunks)
    {
      var entities: seq<Poi> := [];
      warnings := [];
      if !skipScan {
        entities, warnings := ScanEntities(rset.chunks);
      }
      var players := IterPlayerPois(rset.typeTag, rset.playerDir, rset.listing, rset.levelDat);
      var pois := RegionSetPois(skipScan, Ok(entities), players);
      if pois.Err? {
        return Some(pois.error), [], warnings;
      }
      var db;
      err, db, logged := ApplyAll(markerDb, markersetsByRset[rsetId], pois.value);
      if err.None? {
        markerDb := db;
      }
    }
  }
}
