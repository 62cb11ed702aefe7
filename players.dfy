/** `iter_player_pois` (overviewer_core/aux_files/genPOI.py lines 55-118):
    the Player and PlayerSpawn POIs of one regionset.

    Reading the disk is not modelled: the directory mode that was found, the
    files it lists with their decoded NBT contents (or the IOError that
    loading raised), and the outcome of each UUID lookup against the session
    server are inputs. */
module Players {
  import opened PyValue
  import opened Dimensions

  /** Where player data was found: `playerdata/` (UUID-named files),
      `players/` (name-named files), or neither, in which case the player of
      a single-player world is read from `level.dat`. */
  datatype PlayerDir = UuidDir | LegacyDir | SinglePlayer

  /** The outcome of `json.loads(urllib2.urlopen(url).read())`: a JSON object,
      a ValueError (malformed answer: caught, the UUID is kept as the name), or
      any other failure (not caught: the run aborts). */
  datatype NameLookup = Profile(profile: map<string, Value>) | Malformed | Unreachable

  /** One entry of the player directory (or level.dat): its file name, its
      root NBT compound (None when nbt.load raised IOError), and what the
      session server answered for it. */
  datatype PlayerFile = PlayerFile(fileName: string, contents: Option<Value>, lookup: NameLookup)

  predicate EndsWithDat(name: string)
  {
    |name| >= 4 && name[|name| - 4..] == ".dat"
  }

  /** `[x for x in playerfiles if x.endswith(".dat")]`. */
  function DatFiles(listing: seq<PlayerFile>): (r: seq<PlayerFile>)
    ensures forall f :: f in r <==> f in listing && EndsWithDat(f.fileName)
    ensures |r| <= |listing|
  {
    if listing == [] then []
    else (if EndsWithDat(listing[0].fileName) then [listing[0]] else []) + DatFiles(listing[1..])
  }

  /** The comprehension keeps a single file iff its name ends in ".dat". */
  lemma DatFilesOne(f: PlayerFile)
    ensures DatFiles([f]) == if EndsWithDat(f.fileName) then [f] else []
  {
    assert [f][1..] == [];
  }

  /** The comprehension works file by file: the kept files of a listing are
      those of its first part followed by those of the rest, so each file is
      kept at most once and in listing order. */
  lemma {:induction false} DatFilesAppend(a: seq<PlayerFile>, b: seq<PlayerFile>)
    ensures DatFiles(a + b) == DatFiles(a) + DatFiles(b)
  {
    if a == [] {
      assert a + b == b;
    } else {
      assert (a + b)[0] == a[0] && (a + b)[1..] == a[1..] + b;
      DatFilesAppend(a[1..], b);
      var head := if EndsWithDat(a[0].fileName) then [a[0]] else [];
      assert DatFiles(a + b) == head + (DatFiles(a[1..]) + DatFiles(b));
      assert head + (DatFiles(a[1..]) + DatFiles(b)) == (head + DatFiles(a[1..])) + DatFiles(b);
    }
  }

  /** A listing of .dat files only is kept whole, in its own order. */
  lemma {:induction false} DatFilesAllDat(listing: seq<PlayerFile>)
    requires forall i :: 0 <= i < |listing| ==> EndsWithDat(listing[i].fileName)
    ensures DatFiles(listing) == listing
  {
    if listing != [] {
      DatFilesAllDat(listing[1..]);
    }
  }

  /** The files the loop visits: the .dat files of a player directory, or
      level.dat alone. */
  function PlayerFiles(mode: PlayerDir, listing: seq<PlayerFile>, levelDat: PlayerFile): (r: seq<PlayerFile>)
    ensures mode == SinglePlayer ==> r == [levelDat]
    ensures mode != SinglePlayer ==> forall f :: f in r <==> f in listing && EndsWithDat(f.fileName)
    ensures mode != SinglePlayer ==> r == DatFiles(listing)
  {
    if mode == SinglePlayer then [levelDat] else DatFiles(listing)
  }

  /** `playerfile.split(".")[0]`. */
  function BaseName(fileName: string): (r: string)
    ensures '.' !in r
    ensures |r| <= |fileName| && r == fileName[..|r|]
    ensures |r| < |fileName| ==> fileName[|r|] == '.'
  {
    if fileName == [] || fileName[0] == '.' then [] else [fileName[0]] + BaseName(fileName[1..])
  }

  /** The player's data for one file: None when the file is skipped
      (IOError); `data['Data']['Player']` of level.dat for a single-player world. */
  function PlayerData(file: PlayerFile, mode: PlayerDir): (r: Result<Option<Value>, Error>)
    ensures file.contents.None? ==> r == Ok(None)
    ensures file.contents.Some? && mode != SinglePlayer ==> r == Ok(file.contents)
    ensures file.contents.Some? && mode == SinglePlayer ==>
      var root := file.contents.value;
      && (r.Ok? <==> root.Dict? && "Data" in root.entries && root.entries["Data"].Dict? &&
                     "Player" in root.entries["Data"].entries)
      && (r.Ok? ==> r.value == Some(root.entries["Data"].entries["Player"]))
      && (r.Err? ==> r.error == KeyError || r.error == TypeError)
  {
    match file.contents
    case None => Ok(None)
    case Some(root) =>
      if mode == SinglePlayer then
        var level :- Lookup(root, "Data");
        var player :- Lookup(level, "Player");
        Ok(Some(player))
      else Ok(Some(root))
  }

  /** The name a player's POIs carry (lines 92-102). */
  function PlayerName(file: PlayerFile, mode: PlayerDir): (r: Result<Value, Error>)
    ensures mode == SinglePlayer ==> r == Ok(Str("Player"))
    ensures mode == LegacyDir ==> r == Ok(Str(BaseName(file.fileName)))
    ensures mode == UuidDir && file.lookup.Malformed? ==> r == Ok(Str(BaseName(file.fileName)))
    ensures mode == UuidDir && file.lookup.Profile? ==>
      r == Ok(if "name" in file.lookup.profile then file.lookup.profile["name"] else Str(BaseName(file.fileName)))
    ensures r.Err? <==> mode == UuidDir && file.lookup.Unreachable?
  {
    var base := Str(BaseName(file.fileName));
    match mode
    case SinglePlayer => Ok(Str("Player"))
    case LegacyDir => Ok(base)
    case UuidDir =>
      match file.lookup
      case Profile(p) => Ok(if "name" in p then p["name"] else base)
      case Malformed => Ok(base)
      case Unreachable => Err(NetworkError)
  }

  predicate IsPlayer(p: Poi)
  {
    "id" in p && p["id"] == Str("Player")
  }

  predicate IsSpawn(p: Poi)
  {
    "id" in p && p["id"] == Str("PlayerSpawn")
  }

  /** `int(data['Pos'][i])`. */
  function PosCoord(data: Value, i: nat): (r: Result<int, Error>)
    ensures r.Ok? <==> data.Dict? && "Pos" in data.entries && Index(data.entries["Pos"], i).Ok? &&
                       ToInt(Index(data.entries["Pos"], i).value).Ok?
    ensures r.Ok? ==> r == ToInt(Index(data.entries["Pos"], i).value)
  {
    var pos :- Lookup(data, "Pos");
    var c :- Index(pos, i);
    ToInt(c)
  }

  /** Lines 103-110: the player's own data, extended with id "Player", its
      name and its position truncated to ints, when its stored Dimension
      equals the requested one; nothing otherwise. */
  function LastPosition(data: Value, name: Value, dim: int): (r: Result<seq<Poi>, Error>)
    ensures r.Ok? ==> data.Dict? && "Dimension" in data.entries && |r.value| <= 1
    ensures r.Ok? ==> (r.value != [] <==> EqualsInt(data.entries["Dimension"], dim))
    ensures r.Ok? && r.value != [] ==>
      var p := r.value[0];
      && IsPlayer(p) && "EntityId" in p && p["EntityId"] == name
      && p.Keys == data.entries.Keys + {"id", "EntityId", "x", "y", "z"}
      && (forall k :: k in data.entries && k !in {"id", "EntityId", "x", "y", "z"} ==> p[k] == data.entries[k])
      && PosCoord(data, 0).Ok? && p["x"] == Int(PosCoord(data, 0).value)
      && PosCoord(data, 1).Ok? && p["y"] == Int(PosCoord(data, 1).value)
      && PosCoord(data, 2).Ok? && p["z"] == Int(PosCoord(data, 2).value)
  {
    var stored :- Lookup(data, "Dimension");
    if EqualsInt(stored, dim) then
      var x :- PosCoord(data, 0);
      var y :- PosCoord(data, 1);
      var z :- PosCoord(data, 2);
      Ok([PlayerRecord(data.entries, name, x, y, z)])
    else Ok([])
  }

  /** Lines 105-109: the player's data with id, name and position set. */
  function PlayerRecord(entries: map<string, Value>, name: Value, x: int, y: int, z: int): (p: Poi)
    ensures IsPlayer(p) && "EntityId" in p && p["EntityId"] == name
    ensures p.Keys == entries.Keys + {"id", "EntityId", "x", "y", "z"}
    ensures forall k :: k in entries && k !in {"id", "EntityId", "x", "y", "z"} ==> p[k] == entries[k]
    ensures p["x"] == Int(x) && p["y"] == Int(y) && p["z"] == Int(z)
  {
    entries["id" := Str("Player")]["EntityId" := name]["x" := Int(x)]["y" := Int(y)]["z" := Int(z)]
  }

  /** Lines 111-118: a record at the spawn point when the data has SpawnX and
      the requested dimension is the overworld, whatever dimension the player is in. */
  function SpawnPoint(data: Value, name: Value, dim: int): (r: Result<seq<Poi>, Error>)
    requires data.Dict?
    ensures r.Ok? ==> |r.value| <= 1
    ensures r.Ok? ==> (r.value != [] <==> "SpawnX" in data.entries && dim == 0)
    ensures r.Ok? && r.value != [] ==>
      var p := r.value[0];
      && IsSpawn(p) && "EntityId" in p && p["EntityId"] == name
      && p.Keys == {"id", "EntityId", "x", "y", "z"}
      && "SpawnY" in data.entries && "SpawnZ" in data.entries
      && p["x"] == data.entries["SpawnX"]
      && p["y"] == data.entries["SpawnY"]
      && p["z"] == data.entries["SpawnZ"]
  {
    if "SpawnX" in data.entries && dim == 0 then
      var sy :- Lookup(data, "SpawnY");
      var sz :- Lookup(data, "SpawnZ");
      Ok([map["id" := Str("PlayerSpawn"), "EntityId" := name, "x" := data.entries["SpawnX"], "y" := sy, "z" := sz]])
    else Ok([])
  }

  /** The POIs one player's data yields: the Player record first, then the
      PlayerSpawn record. */
  function PlayerRecords(data: Value, name: Value, dim: int): (r: Result<seq<Poi>, Error>)
    ensures r.Ok? ==> data.Dict? && "Dimension" in data.entries && |r.value| <= 2
  {
    var here :- LastPosition(data, name, dim);
    var spawn :- SpawnPoint(data, name, dim);
    Ok(here + spawn)
  }

  /** One player's data yields a Player record iff its stored Dimension is
      the requested one, and a PlayerSpawn record iff it has SpawnX and the
      dimension is the overworld; both carry the player's name. */
  lemma PlayerRecordsRule(data: Value, name: Value, dim: int)
    requires PlayerRecords(data, name, dim).Ok?
    ensures var r := PlayerRecords(data, name, dim).value;
      && ((exists p :: p in r && IsPlayer(p)) <==> EqualsInt(data.entries["Dimension"], dim))
      && ((exists p :: p in r && IsSpawn(p)) <==> "SpawnX" in data.entries && dim == 0)
      && (forall p :: p in r ==> (IsPlayer(p) || IsSpawn(p)) && "EntityId" in p && p["EntityId"] == name)
      && (forall p :: p in r && IsPlayer(p) ==> "Dimension" in p && p["Dimension"] == data.entries["Dimension"])
  {
    var here := LastPosition(data, name, dim).value;
    var spawn := SpawnPoint(data, name, dim).value;
    PlayerRecordKeys(data, name, dim);
    JoinRecords(here, spawn, name, data.entries["Dimension"]);
  }

  /** A Player record list and a PlayerSpawn record list, each of at most one
      record, joined in that order. */
  lemma JoinRecords(here: seq<Poi>, spawn: seq<Poi>, name: Value, stored: Value)
    requires |here| <= 1 && |spawn| <= 1
    requires forall p :: p in here ==>
      IsPlayer(p) && "EntityId" in p && p["EntityId"] == name && "Dimension" in p && p["Dimension"] == stored
    requires forall p :: p in spawn ==> IsSpawn(p) && "EntityId" in p && p["EntityId"] == name
    ensures (exists p :: p in here + spawn && IsPlayer(p)) <==> here != []
    ensures (exists p :: p in here + spawn && IsSpawn(p)) <==> spawn != []
    ensures forall p :: p in here + spawn ==> (IsPlayer(p) || IsSpawn(p)) && "EntityId" in p && p["EntityId"] == name
    ensures forall p :: p in here + spawn && IsPlayer(p) ==> "Dimension" in p && p["Dimension"] == stored
  {
    assert here != [] ==> here[0] in here + spawn;
    assert spawn != [] ==> spawn[0] in here + spawn;
  }

  /** The Player record keeps the stored Dimension. */
  lemma PlayerRecordKeys(data: Value, name: Value, dim: int)
    requires LastPosition(data, name, dim).Ok?
    ensures forall p :: p in LastPosition(data, name, dim).value ==>
      IsPlayer(p) && "EntityId" in p && p["EntityId"] == name &&
      "Dimension" in p && p["Dimension"] == data.entries["Dimension"]
  {
    var here := LastPosition(data, name, dim).value;
    if here != [] {
      assert "Dimension" !in {"id", "EntityId", "x", "y", "z"};
      assert forall p :: p in here ==> p == here[0];
    }
  }

  /** What one file contributes: nothing when it is skipped, else its records. */
  function FileRecords(file: PlayerFile, mode: PlayerDir, dim: int): (r: Result<seq<Poi>, Error>)
    ensures file.contents.None? ==> r == Ok([])
    ensures mode == UuidDir && file.contents.Some? && file.lookup.Unreachable? ==> r == Err(NetworkError)
    ensures r.Ok? ==> |r.value| <= 2
  {
    var data :- PlayerData(file, mode);
    match data
    case None => Ok([])
    case Some(d) =>
      var name :- PlayerName(file, mode);
      PlayerRecords(d, name, dim)
  }

  /** The records of all files, in file order; the first error aborts. */
  function AllRecords(files: seq<PlayerFile>, mode: PlayerDir, dim: int): (r: Result<seq<Poi>, Error>)
    ensures r.Ok? ==> |r.value| <= 2 * |files|
  {
    if files == [] then Ok([])
    else
      var first :- FileRecords(files[0], mode, dim);
      var rest :- AllRecords(files[1..], mode, dim);
      Ok(first + rest)
  }

  /** Every POI of a regionset's players is a Player in the requested
      dimension or a PlayerSpawn of an overworld regionset; in a single-player
      world every one of them is named 'Player'. */
  lemma {:induction false} AllRecordsSound(files: seq<PlayerFile>, mode: PlayerDir, dim: int)
    requires AllRecords(files, mode, dim).Ok?
    ensures forall p :: p in AllRecords(files, mode, dim).value ==>
      (IsPlayer(p) && "Dimension" in p && EqualsInt(p["Dimension"], dim)) ||
      (IsSpawn(p) && dim == 0)
    ensures mode == SinglePlayer ==>
      forall p :: p in AllRecords(files, mode, dim).value ==> "EntityId" in p && p["EntityId"] == Str("Player")
  {
    if files != [] {
      AllRecordsSound(files[1..], mode, dim);
      var first := FileRecords(files[0], mode, dim);
      var data := PlayerData(files[0], mode);
      if data.value.Some? {
        var d := data.value.value;
        var name := PlayerName(files[0], mode).value;
        assert first == PlayerRecords(d, name, dim);
        PlayerRecordsRule(d, name, dim);
        forall p | p in first.value && IsPlayer(p)
          ensures "Dimension" in p && EqualsInt(p["Dimension"], dim)
        {
          assert p["Dimension"] == d.entries["Dimension"];
        }
      }
    }
  }

  lemma AllRecordsCons(files: seq<PlayerFile>, mode: PlayerDir, dim: int)
    requires files != []
    ensures AllRecords(files, mode, dim) ==
      var first := FileRecords(files[0], mode, dim);
      if first.Err? then first else Prepend(first.value, AllRecords(files[1..], mode, dim))
  {
  }

  /** A file that cannot be read is skipped without changing what the others yield. */
  lemma {:induction false} UnreadableFileSkipped(files: seq<PlayerFile>, k: nat, mode: PlayerDir, dim: int)
    requires k < |files| && files[k].contents.None?
    ensures AllRecords(files, mode, dim) == AllRecords(files[..k] + files[k + 1..], mode, dim)
  {
    var without := files[..k] + files[k + 1..];
    AllRecordsCons(files, mode, dim);
    if k == 0 {
      assert without == files[1..];
      assert FileRecords(files[0], mode, dim) == Ok([]);
      var rest := AllRecords(files[1..], mode, dim);
      assert rest.Ok? ==> [] + rest.value == rest.value;
    } else {
      UnreadableFileSkipped(files[1..], k - 1, mode, dim);
      assert without[0] == files[0];
      assert without[1..] == files[1..][..k - 1] + files[1..][k..];
      AllRecordsCons(without, mode, dim);
    }
  }

  /** One more file: its records join those collected so far, or its error
      is the whole result. */
  lemma AllRecordsStep(files: seq<PlayerFile>, i: nat, pois: seq<Poi>, mode: PlayerDir, dim: int)
    requires i < |files|
    requires AllRecords(files, mode, dim) == Prepend(pois, AllRecords(files[i..], mode, dim))
    ensures var recs := FileRecords(files[i], mode, dim);
      && (recs.Err? ==> AllRecords(files, mode, dim) == recs)
      && (recs.Ok? ==> AllRecords(files, mode, dim) == Prepend(pois + recs.value, AllRecords(files[i + 1..], mode, dim)))
  {
    assert files[i..][0] == files[i] && files[i..][1..] == files[i + 1..];
    AllRecordsCons(files[i..], mode, dim);
    var recs := FileRecords(files[i], mode, dim);
    if recs.Ok? {
      PrependPrepend(pois, recs.value, AllRecords(files[i + 1..], mode, dim));
    }
  }

  /** Every file visited: what was collected is the whole result. */
  lemma AllRecordsDone(files: seq<PlayerFile>, pois: seq<Poi>, mode: PlayerDir, dim: int)
    requires AllRecords(files, mode, dim) == Prepend(pois, AllRecords(files[|files|..], mode, dim))
    ensures AllRecords(files, mode, dim) == Ok(pois)
  {
    assert files[|files|..] == [];
    assert AllRecords([], mode, dim) == Ok([]);
    assert pois + [] == pois;
  }

  /** The loop of lines 84-118 over the player files, for a resolved dimension. */
  method CollectPlayerPois(files: seq<PlayerFile>, mode: PlayerDir, dim: int) returns (r: Result<seq<Poi>, Error>)
    ensures r == AllRecords(files, mode, dim)
  {
    var pois: seq<Poi> := [];
    var i := 0;
    assert files[i..] == files;
    PrependNil(AllRecords(files, mode, dim));
    while i < |files|
      invariant 0 <= i <= |files|
      invariant AllRecords(files, mode, dim) == Prepend(pois, AllRecords(files[i..], mode, dim))
    {
      AllRecordsStep(files, i, pois, mode, dim);
      var recs := FileRecords(files[i], mode, dim);
      if recs.Err? {
        return recs;
      }
      pois := pois + recs.value;
      i := i + 1;
    }
    AllRecordsDone(files, pois, mode, dim);
    r := Ok(pois);
  }

  /** What iter_player_pois yields, or the error it raises: the dimension
      error first, then the player files' records. Only Player records and,
      for the overworld, PlayerSpawn records come out. */
  function PlayerPois(tag: Option<string>, mode: PlayerDir, listing: seq<PlayerFile>, levelDat: PlayerFile)
    : (r: Result<seq<Poi>, Error>)
    ensures ResolveDimension(tag).Err? ==> r == Err(ResolveDimension(tag).error)
    ensures r.Ok? ==> forall p :: p in r.value ==> IsPlayer(p) || (IsSpawn(p) && ResolveDimension(tag) == Ok(0))
  {
    var dim :- ResolveDimension(tag);
    var files := PlayerFiles(mode, listing, levelDat);
    var recs := AllRecords(files, mode, dim);
    if recs.Ok? then AllRecordsSound(files, mode, dim); recs else recs
  }

  /** iter_player_pois: resolve the dimension, pick the files, collect. */
  method IterPlayerPois(tag: Option<string>, mode: PlayerDir, listing: seq<PlayerFile>, levelDat: PlayerFile)
    returns (r: Result<seq<Poi>, Error>)
    ensures ResolveDimension(tag).Err? ==> r == Err(ResolveDimension(tag).error)
    ensures ResolveDimension(tag).Ok? ==>
      r == AllRecords(PlayerFiles(mode, listing, levelDat), mode, ResolveDimension(tag).value)
    ensures r == PlayerPois(tag, mode, listing, levelDat)
  {
    var resolved := ResolveDimension(tag);
    if resolved.Err? {
      return Err(resolved.error);
    }
    r := CollectPlayerPois(PlayerFiles(mode, listing, levelDat), mode, resolved.value);
  }
}
