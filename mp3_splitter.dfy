/**
 * split_mp3_files: cut every ".mp3" file of a folder into consecutive chunks of a
 * fixed number of seconds, written to the "split_audio" subfolder.
 *
 * Decoding is an input: `audio` maps the path of each file the decoder accepts to
 * its length in milliseconds (a path outside it raises). Exports are effects: an
 * export raises exactly when its path is in `exportFails`.
 */
module Splitter {
  import opened Strings
  import opened Paths
  import opened Effects
  import opened Batch

  const DefaultChunkSeconds: int := 30
  const OutputSubfolder: string := "split_audio"

  datatype Decision =
    | Skip            // shorter than one chunk: reported and skipped
    | DivisionByZero  // a chunk duration of 0 raises in the floor division
    | Cut(count: nat) // that many chunks are exported

  /** The length of one chunk in milliseconds. */
  function ChunkMs(chunkSeconds: int): int {
    chunkSeconds * 1000
  }

  /** What happens to a decoded file of lengthMs milliseconds. The source compares
      lengthMs / 1000 seconds with the chunk duration and floor-divides the two;
      in exact arithmetic that is a comparison and a division of milliseconds. */
  function Decide(lengthMs: nat, chunkSeconds: int): (d: Decision)
    ensures d == Skip <==> lengthMs < ChunkMs(chunkSeconds)
    ensures d == DivisionByZero <==> chunkSeconds == 0
    ensures d.Cut? && chunkSeconds < 0 ==> d.count == 0
  {
    if lengthMs < ChunkMs(chunkSeconds) then Skip
    else if chunkSeconds == 0 then DivisionByZero
    else if chunkSeconds < 0 then Cut(0)
    else Cut(lengthMs / ChunkMs(chunkSeconds))
  }

  /** The chunk count is the floor of length over chunk length: the chunks fit in
      the audio and the discarded tail is shorter than one chunk. */
  lemma ChunkCountIsFloor(lengthMs: nat, chunkSeconds: int)
    requires chunkSeconds > 0 && Decide(lengthMs, chunkSeconds).Cut?
    ensures var n := Decide(lengthMs, chunkSeconds).count;
      n >= 1 && n * ChunkMs(chunkSeconds) <= lengthMs < n * ChunkMs(chunkSeconds) + ChunkMs(chunkSeconds)
  {
    DivMod(lengthMs, ChunkMs(chunkSeconds));
    DivZero(lengthMs, ChunkMs(chunkSeconds));
  }

  /** With a positive duration, a file is skipped exactly when it would yield no chunk. */
  lemma SkipIffNoChunk(lengthMs: nat, chunkSeconds: int)
    requires chunkSeconds > 0
    ensures Decide(lengthMs, chunkSeconds) == Skip <==> lengthMs / ChunkMs(chunkSeconds) == 0
  {
    DivZero(lengthMs, ChunkMs(chunkSeconds));
  }

  lemma DivMod(x: nat, d: nat)
    requires d > 0
    ensures (x / d) * d <= x < (x / d) * d + d
  {
  }

  lemma DivZero(x: nat, d: nat)
    requires d > 0
    ensures x / d == 0 <==> x < d
  {
  }

  lemma MulSucc(i: int, d: int)
    ensures (i + 1) * d == i * d + d
  {
  }

  lemma MulAssoc(a: int, b: int, c: int)
    ensures a * b * c == a * (b * c)
  {
  }

  lemma MulMonotone(a: nat, b: nat, d: nat)
    requires a <= b
    ensures a * d <= b * d
  {
  }

  datatype Chunk = Chunk(number: nat, startMs: nat, endMs: nat, name: string)

  /** The chunk's file name: the base name, "_chunk", the chunk number in decimal,
      and ".mp3". */
  function ChunkName(baseName: string, number: nat): string {
    baseName + "_chunk" + NatToString(number) + ".mp3"
  }

  /** The i-th chunk (from 0), for chunks of len milliseconds. */
  function ChunkAt(baseName: string, len: nat, i: nat): Chunk {
    Chunk(i + 1, i * len, i * len + len, ChunkName(baseName, i + 1))
  }

  /** The end of the last chunk: how much of the audio the chunks cover. */
  function Covered(chunks: seq<Chunk>): nat {
    if chunks == [] then 0 else chunks[|chunks| - 1].endMs
  }

  /** The first n chunks of len milliseconds. */
  function Chunks(baseName: string, len: nat, n: nat): seq<Chunk> {
    seq(n, i requires 0 <= i < n => ChunkAt(baseName, len, i))
  }

  /** Chunks are numbered from 1, chunk i starts at i * len and is len long, the
      first starting at 0 and each starting where the previous one ends; together
      they cover n * len. */
  lemma ChunksAreContiguous(baseName: string, len: nat, n: nat)
    ensures forall i :: 0 <= i < n ==>
      Chunks(baseName, len, n)[i].number == i + 1 && Chunks(baseName, len, n)[i].name == ChunkName(baseName, i + 1) &&
      Chunks(baseName, len, n)[i].startMs == i * len &&
      Chunks(baseName, len, n)[i].endMs == Chunks(baseName, len, n)[i].startMs + len &&
      Chunks(baseName, len, n)[i].endMs <= n * len
    ensures n > 0 ==> Chunks(baseName, len, n)[0].startMs == 0
    ensures forall i :: 0 < i < n ==> Chunks(baseName, len, n)[i].startMs == Chunks(baseName, len, n)[i - 1].endMs
    ensures Covered(Chunks(baseName, len, n)) == n * len
  {
    var chunks := Chunks(baseName, len, n);
    forall i | 0 <= i < n ensures chunks[i].endMs <= n * len {
      MulSucc(i, len);
      MulMonotone(i + 1, n, len);
    }
    forall i | 0 < i < n ensures chunks[i].startMs == chunks[i - 1].endMs {
      MulSucc(i - 1, len);
    }
    if n > 0 {
      MulSucc(n - 1, len);
    }
  }

  /** The chunks cut from a decoded file: numbered from 1, each exactly one chunk
      long, the first starting at 0 and each starting where the previous one ends,
      none running past the end of the audio, and as many as fit, so that what is
      left over is shorter than one chunk. */
  function Plan(baseName: string, lengthMs: nat, chunkSeconds: int): (chunks: seq<Chunk>)
    ensures chunkSeconds <= 0 || lengthMs < ChunkMs(chunkSeconds) ==> chunks == []
    ensures forall i :: 0 <= i < |chunks| ==>
      chunks[i].number == i + 1 && chunks[i].name == ChunkName(baseName, i + 1) &&
      chunks[i].endMs == chunks[i].startMs + ChunkMs(chunkSeconds) && chunks[i].endMs <= lengthMs
    ensures chunks != [] ==> chunks[0].startMs == 0
    ensures forall i :: 0 < i < |chunks| ==> chunks[i].startMs == chunks[i - 1].endMs
    ensures chunkSeconds > 0 ==> lengthMs - Covered(chunks) < ChunkMs(chunkSeconds)
  {
    if chunkSeconds > 0 && lengthMs >= ChunkMs(chunkSeconds) then
      var len := ChunkMs(chunkSeconds);
      var n := lengthMs / len;
      DivMod(lengthMs, len);
      ChunksAreContiguous(baseName, len, n);
      Chunks(baseName, len, n)
    else []
  }

  /** Chunk i of the plan starts at i * chunk_duration * 1000, as the source computes it. */
  lemma PlanAt(baseName: string, lengthMs: nat, chunkSeconds: int, i: nat)
    requires i < |Plan(baseName, lengthMs, chunkSeconds)|
    ensures chunkSeconds > 0
    ensures Plan(baseName, lengthMs, chunkSeconds)[i]
      == Chunk(i + 1, i * chunkSeconds * 1000, i * chunkSeconds * 1000 + chunkSeconds * 1000, ChunkName(baseName, i + 1))
  {
    var len := ChunkMs(chunkSeconds);
    assert chunkSeconds > 0 && lengthMs >= len;
    assert Plan(baseName, lengthMs, chunkSeconds) == Chunks(baseName, len, lengthMs / len);
    MulAssoc(i, chunkSeconds, 1000);
  }

  /** Plan yields exactly the Decide count of chunks. */
  lemma PlanLength(baseName: string, lengthMs: nat, chunkSeconds: int)
    ensures |Plan(baseName, lengthMs, chunkSeconds)|
      == match Decide(lengthMs, chunkSeconds) case Cut(n) => n case _ => 0
  {
  }

  /** With the default duration, a file yields one 30-second chunk for every whole
      30 seconds of audio, and none when it is shorter than that. */
  lemma DefaultPlan(baseName: string, lengthMs: nat)
    ensures |Plan(baseName, lengthMs, DefaultChunkSeconds)| == lengthMs / 30000
    ensures forall c :: c in Plan(baseName, lengthMs, DefaultChunkSeconds) ==> c.endMs - c.startMs == 30000
  {
    PlanLength(baseName, lengthMs, DefaultChunkSeconds);
  }

  /** Within one source file, no two chunks get the same name. */
  lemma ChunkNamesDistinct(baseName: string, lengthMs: nat, chunkSeconds: int, i: nat, j: nat)
    requires i < j < |Plan(baseName, lengthMs, chunkSeconds)|
    ensures Plan(baseName, lengthMs, chunkSeconds)[i].name != Plan(baseName, lengthMs, chunkSeconds)[j].name
  {
    var prefix := baseName + "_chunk";
    if ChunkName(baseName, i + 1) == ChunkName(baseName, j + 1) {
      CancelAround(prefix, NatToString(i + 1), NatToString(j + 1), ".mp3");
      NatToStringInjective(i + 1, j + 1);
    }
  }

  function ChunkPath(outDir: Path, chunk: Chunk): Path {
    Join(outDir, chunk.name)
  }

  /** The number of chunks before the first one whose export raises. */
  function ExportedCount(outDir: Path, chunks: seq<Chunk>, exportFails: set<Path>): (k: nat)
    ensures k <= |chunks|
  {
    if chunks == [] || ChunkPath(outDir, chunks[0]) in exportFails then 0
    else 1 + ExportedCount(outDir, chunks[1..], exportFails)
  }

  /** Every chunk before the count exports, and the chunk at the count, if any,
      is the first whose export raises. */
  lemma {:induction false} ExportedCountIsFirstFailure(outDir: Path, chunks: seq<Chunk>, exportFails: set<Path>)
    ensures var k := ExportedCount(outDir, chunks, exportFails);
      (forall i :: 0 <= i < k ==> ChunkPath(outDir, chunks[i]) !in exportFails) &&
      (k < |chunks| ==> ChunkPath(outDir, chunks[k]) in exportFails)
  {
    if chunks != [] && ChunkPath(outDir, chunks[0]) !in exportFails {
      var rest := chunks[1..];
      ExportedCountIsFirstFailure(outDir, rest, exportFails);
      var k := ExportedCount(outDir, chunks, exportFails);
      forall i | 1 <= i < k ensures ChunkPath(outDir, chunks[i]) !in exportFails {
        assert chunks[i] == rest[i - 1];
      }
      if k < |chunks| {
        assert chunks[k] == rest[k - 1];
      }
    }
  }

  /** Conversely, a position with only exporting chunks before it and a failing
      chunk (or the end) at it is the count. */
  lemma {:induction false} ExportedCountIsUnique(outDir: Path, chunks: seq<Chunk>, exportFails: set<Path>, k: nat)
    requires k <= |chunks|
    requires forall i :: 0 <= i < k ==> ChunkPath(outDir, chunks[i]) !in exportFails
    requires k < |chunks| ==> ChunkPath(outDir, chunks[k]) in exportFails
    ensures ExportedCount(outDir, chunks, exportFails) == k
  {
    if k > 0 {
      var rest := chunks[1..];
      forall i | 0 <= i < k - 1 ensures ChunkPath(outDir, rest[i]) !in exportFails {
        assert rest[i] == chunks[i + 1];
      }
      if k - 1 < |rest| {
        assert rest[k - 1] == chunks[k];
      }
      ExportedCountIsUnique(outDir, rest, exportFails, k - 1);
    }
  }

  /** What one chunk that exports contributes: the export of its span to its
      path, then its progress line. */
  function ExportStep(outDir: Path): Chunk -> seq<Event> {
    chunk => [Export(ChunkPath(outDir, chunk), chunk.startMs, chunk.endMs), Report(Exported(chunk.name))]
  }

  /** The effects of the export loop for one file: the chunks before the first
      export that raises, in order, then one error report naming the file if an
      export raised. */
  function ExportEvents(fileName: string, outDir: Path, chunks: seq<Chunk>, exportFails: set<Path>): seq<Event> {
    var k := ExportedCount(outDir, chunks, exportFails);
    ForEach(chunks[..k], ExportStep(outDir)) + (if k < |chunks| then [Report(Failed(fileName))] else [])
  }

  /** Stopping at a position with only exporting chunks before it and a failing
      chunk (or the end) at it gives the effects of the export loop. */
  lemma ExportEventsStopAt(fileName: string, outDir: Path, chunks: seq<Chunk>, exportFails: set<Path>, k: nat)
    requires k <= |chunks|
    requires forall i :: 0 <= i < k ==> ChunkPath(outDir, chunks[i]) !in exportFails
    requires k < |chunks| ==> ChunkPath(outDir, chunks[k]) in exportFails
    ensures ExportEvents(fileName, outDir, chunks, exportFails) ==
      ForEach(chunks[..k], ExportStep(outDir)) + (if k < |chunks| then [Report(Failed(fileName))] else [])
  {
    ExportedCountIsUnique(outDir, chunks, exportFails, k);
  }

  /** An error is reported for the file exactly when the export of one of its
      chunks raises. */
  lemma ExportFailureReported(fileName: string, outDir: Path, chunks: seq<Chunk>, exportFails: set<Path>)
    ensures Report(Failed(fileName)) in ExportEvents(fileName, outDir, chunks, exportFails) <==>
      exists i :: 0 <= i < |chunks| && ChunkPath(outDir, chunks[i]) in exportFails
  {
    var k := ExportedCount(outDir, chunks, exportFails);
    ExportedCountIsFirstFailure(outDir, chunks, exportFails);
    InForEach(chunks[..k], ExportStep(outDir), Report(Failed(fileName)));
    if exists i :: 0 <= i < |chunks| && ChunkPath(outDir, chunks[i]) in exportFails {
      var i :| 0 <= i < |chunks| && ChunkPath(outDir, chunks[i]) in exportFails;
      assert k <= i;
    }
  }

  /** The effects of the try block for one ".mp3" entry. */
  function FileEvents(folderPath: Path, fileName: string, chunkSeconds: int, audio: map<Path, nat>, exportFails: set<Path>): seq<Event> {
    var filePath := Join(folderPath, fileName);
    if filePath !in audio then [Report(Failed(fileName))]
    else match Decide(audio[filePath], chunkSeconds)
      case Skip => [Report(Skipped(fileName))]
      case DivisionByZero => [Report(Failed(fileName))]
      case Cut(_) =>
        ExportEvents(fileName, Join(folderPath, OutputSubfolder),
                     Plan(Stem(fileName), audio[filePath], chunkSeconds), exportFails)
  }

  /** The body of the loop over the listing: entries not ending in ".mp3" have no effect. */
  function EntryEvents(folderPath: Path, chunkSeconds: int, audio: map<Path, nat>, exportFails: set<Path>): string -> seq<Event> {
    name => if IsMp3(name) then FileEvents(folderPath, name, chunkSeconds, audio, exportFails) else []
  }

  /** Only ".mp3" entries have effects, and every effect belongs to one of them. */
  lemma OnlyMp3EntriesHandled(folderPath: Path, listing: seq<string>, chunkSeconds: int, audio: map<Path, nat>, exportFails: set<Path>, e: Event)
    ensures e in ForEach(listing, EntryEvents(folderPath, chunkSeconds, audio, exportFails)) <==>
      exists k :: 0 <= k < |listing| && IsMp3(listing[k]) && e in FileEvents(folderPath, listing[k], chunkSeconds, audio, exportFails)
  {
    InForEach(listing, EntryEvents(folderPath, chunkSeconds, audio, exportFails), e);
  }

  /** The export loop: chunk after chunk, computing its span and name, until an
      export raises. */
  method ExportChunks(fileName: string, outDir: Path, baseName: string, lengthMs: nat, chunkSeconds: int, numChunks: nat, exportFails: set<Path>)
    returns (events: seq<Event>)
    requires numChunks == |Plan(baseName, lengthMs, chunkSeconds)|
    ensures events == ExportEvents(fileName, outDir, Plan(baseName, lengthMs, chunkSeconds), exportFails)
  {
    ghost var plan := Plan(baseName, lengthMs, chunkSeconds);
    ghost var step := ExportStep(outDir);
    events := [];
    var i := 0;
    var failed := false;
    while i < numChunks && !failed
      invariant 0 <= i <= numChunks
      invariant forall j :: 0 <= j < i ==> ChunkPath(outDir, plan[j]) !in exportFails
      invariant !failed ==> events == ForEach(plan[..i], step)
      invariant failed ==> i < numChunks && ChunkPath(outDir, plan[i]) in exportFails
      invariant failed ==> events == ForEach(plan[..i], step) + [Report(Failed(fileName))]
      decreases numChunks - i, !failed
    {
      var startTime := i * chunkSeconds * 1000;
      var endTime := startTime + chunkSeconds * 1000;
      var chunkName := baseName + "_chunk" + NatToString(i + 1) + ".mp3";
      var chunkPath := Join(outDir, chunkName);
      assert plan[i] == Chunk(i + 1, startTime, endTime, chunkName) by {
        PlanAt(baseName, lengthMs, chunkSeconds, i);
      }
      if chunkPath in exportFails {
        events := events + [Report(Failed(fileName))];
        failed := true;
      } else {
        assert ForEach(plan[..i + 1], step) == ForEach(plan[..i], step) + step(plan[i]) by {
          ForEachSnoc(plan, i, step);
        }
        events := events + [Export(chunkPath, startTime, endTime), Report(Exported(chunkName))];
        i := i + 1;
      }
    }
    assert events == ExportEvents(fileName, outDir, plan, exportFails) by {
      ExportEventsStopAt(fileName, outDir, plan, exportFails, i);
    }
  }

  /** The try block for one ".mp3" entry: decode, then skip, fail or cut. */
  method SplitFile(folderPath: Path, fileName: string, chunkSeconds: int, audio: map<Path, nat>, exportFails: set<Path>)
    returns (events: seq<Event>)
    ensures events == FileEvents(folderPath, fileName, chunkSeconds, audio, exportFails)
  {
    var filePath := Join(folderPath, fileName);
    if filePath !in audio {
      return [Report(Failed(fileName))];
    }
    var lengthMs := audio[filePath];
    if lengthMs < chunkSeconds * 1000 {
      return [Report(Skipped(fileName))];
    }
    if chunkSeconds == 0 {
      return [Report(Failed(fileName))];
    }
    var baseName := Stem(fileName);
    var numChunks := if chunkSeconds < 0 then 0 else lengthMs / (chunkSeconds * 1000);
    PlanLength(baseName, lengthMs, chunkSeconds);
    events := ExportChunks(fileName, Join(folderPath, OutputSubfolder), baseName, lengthMs, chunkSeconds, numChunks, exportFails);
  }

  /** One pass of the loop: an ".mp3" entry is split, any other is ignored. */
  method HandleEntry(folderPath: Path, fileName: string, chunkSeconds: int, audio: map<Path, nat>, exportFails: set<Path>)
    returns (events: seq<Event>)
    ensures events == EntryEvents(folderPath, chunkSeconds, audio, exportFails)(fileName)
  {
    if IsMp3(fileName) {
      events := SplitFile(folderPath, fileName, chunkSeconds, audio, exportFails);
    } else {
      events := [];
    }
  }

  /** The loop of split_mp3_files over the folder's listing. */
  method SplitListing(folderPath: Path, listing: seq<string>, chunkSeconds: int, audio: map<Path, nat>, exportFails: set<Path>)
    returns (events: seq<Event>)
    ensures events == ForEach(listing, EntryEvents(folderPath, chunkSeconds, audio, exportFails))
  {
    var handle := EntryEvents(folderPath, chunkSeconds, audio, exportFails);
    events := [];
    var i := 0;
    while i < |listing|
      invariant 0 <= i <= |listing|
      invariant events == ForEach(listing[..i], handle)
    {
      var fileName := listing[i];
      var entryEvents := HandleEntry(folderPath, fileName, chunkSeconds, audio, exportFails);
      events := events + entryEvents;
      assert ForEach(listing[..i + 1], handle) == ForEach(listing[..i], handle) + handle(fileName) by {
        ForEachSnoc(listing, i, handle);
      }
      i := i + 1;
    }
    assert listing[..|listing|] == listing;
  }

  /** split_mp3_files: make sure the output folder exists, then handle the
      listing's entries in order. The chunk duration defaults to 30 seconds. */
  method SplitMp3Files(folderPath: Path, listing: seq<string>, audio: map<Path, nat>, exportFails: set<Path>,
                       chunkSeconds: int := DefaultChunkSeconds)
    returns (events: seq<Event>)
    ensures events == [MakeDirs(Join(folderPath, OutputSubfolder))]
      + ForEach(listing, EntryEvents(folderPath, chunkSeconds, audio, exportFails))
  {
    var handled := SplitListing(folderPath, listing, chunkSeconds, audio, exportFails);
    events := [MakeDirs(Join(folderPath, OutputSubfolder))] + handled;
  }
}
