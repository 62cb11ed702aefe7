/** `iter_entities` (overviewer_core/aux_files/genPOI.py lines 43-53): the
    tile entities and entities of every chunk of a regionset, in chunk order.

    The chunk source is not modelled: each chunk the regionset enumerates
    comes with what `get_chunk` gave for it. A chunk whose data signals
    corruption while its lists are being read stops contributing at that
    point, and the scan logs one warning with its coordinates.

    `get_chunk` is called outside the `try`, so as written a chunk that fails
    to load aborts the scan (`EntitiesOf`, `IterEntities`), although the
    handler exists to skip corrupt chunks with a warning. `ScanOf`,
    `ScanWarnings` and `ScanEntities` are the scan with the load inside the
    `try`: such a chunk is skipped and its coordinates logged. The regionset
    loop uses the corrected scan. */
module Entities {
  import opened PyValue

  datatype ChunkRead =
    | Decoded(tileEntities: seq<Poi>, entities: seq<Poi>, corruptAt: Option<nat>)
    | LoadFailed

  datatype Chunk = Chunk(x: int, z: int, read: ChunkRead)

  /** What one decoded chunk yields: its tile entities, then its entities,
      cut short where corruption was signalled. */
  function ChunkYield(read: ChunkRead): (r: seq<Poi>)
    requires read.Decoded?
    ensures r <= read.tileEntities + read.entities
    ensures read.corruptAt.None? ==> r == read.tileEntities + read.entities
    ensures read.corruptAt.Some? ==>
      |r| == if read.corruptAt.value < |read.tileEntities + read.entities|
             then read.corruptAt.value else |read.tileEntities + read.entities|
  {
    var all := read.tileEntities + read.entities;
    match read.corruptAt
    case None => all
    case Some(k) => if k < |all| then all[..k] else all
  }

  /** The POIs of all chunks, in order; a chunk that fails to load aborts. */
  function EntitiesOf(chunks: seq<Chunk>): (r: Result<seq<Poi>, Error>)
    ensures r.Ok? <==> forall i :: 0 <= i < |chunks| ==> chunks[i].read.Decoded?
    ensures r.Err? ==> r.error == CorruptChunk
  {
    if chunks == [] then Ok([])
    else if chunks[0].read.LoadFailed? then Err(CorruptChunk)
    else Prepend(ChunkYield(chunks[0].read), EntitiesOf(chunks[1..]))
  }

  /** The coordinates of the chunks whose corruption was logged. */
  function CorruptCoords(chunks: seq<Chunk>): (r: seq<(int, int)>)
    ensures |r| <= |chunks|
  {
    if chunks == [] then []
    else
      (if chunks[0].read.Decoded? && chunks[0].read.corruptAt.Some?
       then [(chunks[0].x, chunks[0].z)] else [])
      + CorruptCoords(chunks[1..])
  }

  /** Every POI the scan yields is a tile entity or an entity of some chunk. */
  lemma {:induction false} EntitiesSound(chunks: seq<Chunk>)
    requires EntitiesOf(chunks).Ok?
    ensures forall p :: p in EntitiesOf(chunks).value ==>
      exists c :: c in chunks && c.read.Decoded? && (p in c.read.tileEntities || p in c.read.entities)
  {
    if chunks != [] {
      EntitiesSound(chunks[1..]);
      var c := chunks[0];
      var y := ChunkYield(c.read);
      forall p | p in y
        ensures p in c.read.tileEntities || p in c.read.entities
      {
        var all := c.read.tileEntities + c.read.entities;
        var i :| 0 <= i < |y| && y[i] == p;
        assert p == all[i];
      }
      forall p | p in EntitiesOf(chunks).value
        ensures exists c :: c in chunks && c.read.Decoded? && (p in c.read.tileEntities || p in c.read.entities)
      {
        if p in y {
          assert chunks[0] in chunks;
        } else {
          assert p in EntitiesOf(chunks[1..]).value;
          var c' :| c' in chunks[1..] && c'.read.Decoded? && (p in c'.read.tileEntities || p in c'.read.entities);
          assert c' in chunks;
        }
      }
    }
  }

  /** A chunk that is corrupt from the start contributes nothing: the scan
      yields what it would without that chunk, and logs its coordinates. */
  lemma {:induction false} CorruptChunkSkipped(chunks: seq<Chunk>, k: nat)
    requires k < |chunks| && chunks[k].read.Decoded? && chunks[k].read.corruptAt == Some(0)
    ensures EntitiesOf(chunks) == EntitiesOf(chunks[..k] + chunks[k + 1..])
    ensures CorruptCoords(chunks) ==
      CorruptCoords(chunks[..k]) + [(chunks[k].x, chunks[k].z)] + CorruptCoords(chunks[k + 1..])
  {
    CorruptChunkYieldsNothing(chunks, k);
    var c := chunks[k];
    assert chunks == (chunks[..k] + [c]) + chunks[k + 1..];
    CorruptCoordsAppend(chunks[..k] + [c], chunks[k + 1..]);
    CorruptCoordsAppend(chunks[..k], [c]);
    assert CorruptCoords([c]) == [(c.x, c.z)] + CorruptCoords([]);
  }

  lemma {:induction false} CorruptChunkYieldsNothing(chunks: seq<Chunk>, k: nat)
    requires k < |chunks| && chunks[k].read.Decoded? && chunks[k].read.corruptAt == Some(0)
    ensures EntitiesOf(chunks) == EntitiesOf(chunks[..k] + chunks[k + 1..])
  {
    var without := chunks[..k] + chunks[k + 1..];
    if k == 0 {
      assert without == chunks[1..];
      assert ChunkYield(chunks[0].read) == [];
      PrependNil(EntitiesOf(chunks[1..]));
    } else {
      CorruptChunkYieldsNothing(chunks[1..], k - 1);
      assert without[0] == chunks[0];
      assert without[1..] == chunks[1..][..k - 1] + chunks[1..][k..];
      assert chunks[1..][k..] == chunks[k + 1..];
    }
  }

  /** One decoded chunk of the scan. */
  lemma EntitiesStep(chunks: seq<Chunk>, i: nat)
    requires i < |chunks| && chunks[i].read.Decoded?
    ensures EntitiesOf(chunks[i..]) == Prepend(ChunkYield(chunks[i].read), EntitiesOf(chunks[i + 1..]))
  {
    assert chunks[i..][0] == chunks[i] && chunks[i..][1..] == chunks[i + 1..];
  }

  /** The warnings of one more chunk. */
  lemma CorruptCoordsStep(chunks: seq<Chunk>, i: nat)
    requires i < |chunks|
    ensures CorruptCoords(chunks[..i + 1]) == CorruptCoords(chunks[..i]) +
      (if chunks[i].read.Decoded? && chunks[i].read.corruptAt.Some? then [(chunks[i].x, chunks[i].z)] else [])
  {
    var c := chunks[i];
    assert chunks[..i + 1] == chunks[..i] + [c];
    CorruptCoordsAppend(chunks[..i], [c]);
    assert CorruptCoords([c]) == (if c.read.Decoded? && c.read.corruptAt.Some? then [(c.x, c.z)] else []) + CorruptCoords([]);
  }

  lemma {:induction false} CorruptCoordsAppend(a: seq<Chunk>, b: seq<Chunk>)
    ensures CorruptCoords(a + b) == CorruptCoords(a) + CorruptCoords(b)
  {
    if a != [] {
      assert (a + b)[1..] == a[1..] + b;
      CorruptCoordsAppend(a[1..], b);
    } else {
      assert a + b == b;
    }
  }

  /** The generator loop, run to completion: the POIs in order and the
      warnings logged for corrupt chunks. */
  method IterEntities(chunks: seq<Chunk>) returns (r: Result<seq<Poi>, Error>, warnings: seq<(int, int)>)
    ensures r == EntitiesOf(chunks)
    ensures r.Ok? ==> warnings == CorruptCoords(chunks)
  {
    var pois: seq<Poi> := [];
    warnings := [];
    var i := 0;
    PrependNil(EntitiesOf(chunks));
    assert chunks[i..] == chunks;
    while i < |chunks|
      invariant 0 <= i <= |chunks|
      invariant EntitiesOf(chunks) == Prepend(pois, EntitiesOf(chunks[i..]))
      invariant warnings == CorruptCoords(chunks[..i])
    {
      var c := chunks[i];
      CorruptCoordsStep(chunks, i);
      if c.read.LoadFailed? {
        return Err(CorruptChunk), warnings;
      }
      var y := ChunkYield(c.read);
      EntitiesStep(chunks, i);
      PrependPrepend(pois, y, EntitiesOf(chunks[i + 1..]));
      pois := pois + y;
      if c.read.corruptAt.Some? {
        warnings := warnings + [(c.x, c.z)];
      }
      i := i + 1;
    }
    assert chunks[i..] == [] && chunks[..i] == chunks;
    assert pois + [] == pois;
    r := Ok(pois);
  }

  /** The scan with `get_chunk` inside the `try`: the POIs of the decoded
      chunks, in order; a chunk that fails to load yields nothing. */
  function ScanOf(chunks: seq<Chunk>): (r: seq<Poi>)
  {
    if chunks == [] then []
    else (if chunks[0].read.Decoded? then ChunkYield(chunks[0].read) else []) + ScanOf(chunks[1..])
  }

  /** Its warnings: one per chunk that fails to load or is corrupt. */
  function ScanWarnings(chunks: seq<Chunk>): (r: seq<(int, int)>)
    ensures |r| <= |chunks|
  {
    if chunks == [] then []
    else
      (if chunks[0].read.LoadFailed? || chunks[0].read.corruptAt.Some?
       then [(chunks[0].x, chunks[0].z)] else [])
      + ScanWarnings(chunks[1..])
  }

  /** Where every chunk loads, the corrected scan is the scan as written. */
  lemma {:induction false} ScanAgrees(chunks: seq<Chunk>)
    requires forall i :: 0 <= i < |chunks| ==> chunks[i].read.Decoded?
    ensures EntitiesOf(chunks) == Ok(ScanOf(chunks))
    ensures ScanWarnings(chunks) == CorruptCoords(chunks)
  {
    if chunks != [] {
      ScanAgrees(chunks[1..]);
    }
  }

  /** Every POI of the corrected scan is a tile entity or an entity of a
      decoded chunk. */
  lemma {:induction false} ScanSound(chunks: seq<Chunk>)
    ensures forall p :: p in ScanOf(chunks) ==>
      exists c :: c in chunks && c.read.Decoded? && (p in c.read.tileEntities || p in c.read.entities)
  {
    if chunks != [] {
      ScanSound(chunks[1..]);
      var c := chunks[0];
      var y := if c.read.Decoded? then ChunkYield(c.read) else [];
      forall p | p in ScanOf(chunks)
        ensures exists c :: c in chunks && c.read.Decoded? && (p in c.read.tileEntities || p in c.read.entities)
      {
        if p in y {
          var all := c.read.tileEntities + c.read.entities;
          var i :| 0 <= i < |y| && y[i] == p;
          assert p == all[i];
          assert chunks[0] in chunks;
        } else {
          assert p in ScanOf(chunks[1..]);
          var c' :| c' in chunks[1..] && c'.read.Decoded? && (p in c'.read.tileEntities || p in c'.read.entities);
          assert c' in chunks;
        }
      }
    }
  }

  lemma {:induction false} ScanOfAppend(a: seq<Chunk>, b: seq<Chunk>)
    ensures ScanOf(a + b) == ScanOf(a) + ScanOf(b)
  {
    if a != [] {
      assert (a + b)[1..] == a[1..] + b;
      ScanOfAppend(a[1..], b);
    } else {
      assert a + b == b;
    }
  }

  lemma {:induction false} ScanWarningsAppend(a: seq<Chunk>, b: seq<Chunk>)
    ensures ScanWarnings(a + b) == ScanWarnings(a) + ScanWarnings(b)
  {
    if a != [] {
      assert (a + b)[1..] == a[1..] + b;
      ScanWarningsAppend(a[1..], b);
    } else {
      assert a + b == b;
    }
  }

  /** A chunk that fails to load is skipped: the corrected scan yields what
      it would without that chunk, and logs the chunk's coordinates. */
  lemma LoadFailedSkipped(chunks: seq<Chunk>, k: nat)
    requires k < |chunks| && chunks[k].read.LoadFailed?
    ensures ScanOf(chunks) == ScanOf(chunks[..k] + chunks[k + 1..])
    ensures ScanWarnings(chunks) ==
      ScanWarnings(chunks[..k]) + [(chunks[k].x, chunks[k].z)] + ScanWarnings(chunks[k + 1..])
  {
    SplitAt(chunks, k);
    LoadFailedYieldsNothing(chunks[..k], chunks[k], chunks[k + 1..]);
    LoadFailedWarns(chunks[..k], chunks[k], chunks[k + 1..]);
  }

  lemma SplitAt(chunks: seq<Chunk>, k: nat)
    requires k < |chunks|
    ensures chunks == chunks[..k] + [chunks[k]] + chunks[k + 1..]
  {
  }

  lemma LoadFailedYieldsNothing(before: seq<Chunk>, c: Chunk, after: seq<Chunk>)
    requires c.read.LoadFailed?
    ensures ScanOf(before + [c] + after) == ScanOf(before + after)
  {
    ScanOfAppend(before + [c], after);
    ScanOfAppend(before, [c]);
    ScanOfAppend(before, after);
    assert ScanOf([c]) == [] + ScanOf([]);
  }

  lemma LoadFailedWarns(before: seq<Chunk>, c: Chunk, after: seq<Chunk>)
    requires c.read.LoadFailed?
    ensures ScanWarnings(before + [c] + after) == ScanWarnings(before) + [(c.x, c.z)] + ScanWarnings(after)
  {
    ScanWarningsAppend(before + [c], after);
    ScanWarningsAppend(before, [c]);
    assert ScanWarnings([c]) == [(c.x, c.z)] + ScanWarnings([]);
  }

  /** As written, a chunk that fails to load after one that yields a POI
      aborts the whole scan, where the corrected scan keeps that POI and
      logs the failed chunk. */
  lemma LoadFailureAborts(p: Poi)
    ensures var chunks := [Chunk(0, 0, Decoded([p], [], None)), Chunk(1, 0, LoadFailed)];
      && EntitiesOf(chunks) == Err(CorruptChunk)
      && ScanOf(chunks) == [p]
      && ScanWarnings(chunks) == [(1, 0)]
  {
    var chunks := [Chunk(0, 0, Decoded([p], [], None)), Chunk(1, 0, LoadFailed)];
    assert chunks[1..][1..] == [];
    assert ChunkYield(chunks[0].read) == [p];
    assert ScanOf(chunks[1..]) == [] + ScanOf([]);
    assert ScanOf(chunks) == [p] + ScanOf(chunks[1..]);
  }

  /** The corrected generator loop, run to completion. */
  method ScanEntities(chunks: seq<Chunk>) returns (pois: seq<Poi>, warnings: seq<(int, int)>)
    ensures pois == ScanOf(chunks)
    ensures warnings == ScanWarnings(chunks)
  {
    pois := [];
    warnings := [];
    var i := 0;
    while i < |chunks|
      invariant 0 <= i <= |chunks|
      invariant pois == ScanOf(chunks[..i]) && warnings == ScanWarnings(chunks[..i])
    {
      var c := chunks[i];
      assert chunks[..i + 1] == chunks[..i] + [c];
      ScanOfAppend(chunks[..i], [c]);
      ScanWarningsAppend(chunks[..i], [c]);
      assert ScanOf([c]) == (if c.read.Decoded? then ChunkYield(c.read) else []) + ScanOf([]);
      assert ScanWarnings([c]) ==
        (if c.read.LoadFailed? || c.read.corruptAt.Some? then [(c.x, c.z)] else []) + ScanWarnings([]);
      if c.read.Decoded? {
        pois := pois + ChunkYield(c.read);
      }
      if c.read.LoadFailed? || c.read.corruptAt.Some? {
        warnings := warnings + [(c.x, c.z)];
      }
      i := i + 1;
    }
    assert chunks[..i] == chunks;
  }
}
