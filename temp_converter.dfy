/**
 * temp.py: turn every ".mp3" file directly inside one folder into a spectrogram
 * PNG in a second, flat folder.
 *
 * Whether the output folder exists, the folder's listing and whether rendering
 * one file succeeds are inputs: the file system and the plotting are foreign code.
 */
module TempConverter {
  import opened Strings
  import opened Paths
  import opened Effects
  import opened Batch

  /** generate_spectrogram: never raises. Unlike the
      preprocessing converter it makes no directory; when decoding, plotting or
      saving fails, the failure is reported with the audio path. */
  function GenerateSpectrogram(mp3Path: Path, outputPath: Path, renders: bool): (events: seq<Event>)
    ensures events != []
    ensures events[|events| - 1] == Report(if renders then Saved(outputPath) else Failed(mp3Path))
    ensures Write(outputPath) in events <==> renders
    ensures forall e: Event :: e in events ==> !e.MakeDirs? && (e.Write? ==> e.path == outputPath)
  {
    if renders then [Write(outputPath), Report(Saved(outputPath))] else [Report(Failed(mp3Path))]
  }

  /** The PNG for file: its stem with ".png", inside the spectrogram folder. */
  function OutputPath(spectrogramFolder: Path, file: string): (r: Path)
    ensures EndsWith(r, Stem(file) + ".png")
  {
    Join(spectrogramFolder, Stem(file) + ".png")
  }

  /** The loop's body for one entry of the listing. */
  function EntryStep(mp3Folder: Path, spectrogramFolder: Path, render: (Path, Path) -> bool, file: string): seq<Event> {
    if IsMp3(file) then
      var mp3Path, outputPath := Join(mp3Folder, file), OutputPath(spectrogramFolder, file);
      GenerateSpectrogram(mp3Path, outputPath, render(mp3Path, outputPath))
    else []
  }

  function EntryEvents(mp3Folder: Path, spectrogramFolder: Path, render: (Path, Path) -> bool): string -> seq<Event> {
    file => EntryStep(mp3Folder, spectrogramFolder, render, file)
  }

  /** Everything convert_all_mp3s_to_spectrograms does: the output folder is made
      only when it does not exist yet, then the listing is handled in order. */
  function ConversionEvents(mp3Folder: Path, spectrogramFolder: Path, folderExists: bool, listing: seq<string>, render: (Path, Path) -> bool): seq<Event> {
    (if folderExists then [] else [MakeDirs(spectrogramFolder)]) + ForEach(listing, EntryEvents(mp3Folder, spectrogramFolder, render))
  }

  method ConvertEntry(mp3Folder: Path, spectrogramFolder: Path, file: string, render: (Path, Path) -> bool)
    returns (events: seq<Event>)
    ensures events == EntryStep(mp3Folder, spectrogramFolder, render, file)
  {
    events := [];
    if IsMp3(file) {
      var mp3Path := Join(mp3Folder, file);
      var outputName := Stem(file) + ".png";
      var outputPath := Join(spectrogramFolder, outputName);
      events := GenerateSpectrogram(mp3Path, outputPath, render(mp3Path, outputPath));
    }
  }

  /** The loop over os.listdir(mp3_folder). */
  method ConvertListing(mp3Folder: Path, spectrogramFolder: Path, listing: seq<string>, render: (Path, Path) -> bool)
    returns (events: seq<Event>)
    ensures events == ForEach(listing, EntryEvents(mp3Folder, spectrogramFolder, render))
  {
    var handle := EntryEvents(mp3Folder, spectrogramFolder, render);
    events := [];
    var i := 0;
    while i < |listing|
      invariant 0 <= i <= |listing|
      invariant events == ForEach(listing[..i], handle)
    {
      var entryEvents := ConvertEntry(mp3Folder, spectrogramFolder, listing[i], render);
      events := events + entryEvents;
      assert ForEach(listing[..i + 1], handle) == ForEach(listing[..i], handle) + handle(listing[i]) by {
        ForEachSnoc(listing, i, handle);
      }
      i := i + 1;
    }
    assert listing[..|listing|] == listing;
  }

  /** convert_all_mp3s_to_spectrograms: the folder test, then the listing loop. */
  method ConvertAllMp3sToSpectrograms(mp3Folder: Path, spectrogramFolder: Path, folderExists: bool, listing: seq<string>, render: (Path, Path) -> bool)
    returns (events: seq<Event>)
    ensures events == ConversionEvents(mp3Folder, spectrogramFolder, folderExists, listing, render)
  {
    events := [];
    if !folderExists {
      events := [MakeDirs(spectrogramFolder)];
    }
    var converted := ConvertListing(mp3Folder, spectrogramFolder, listing, render);
    events := events + converted;
  }

  /** What one entry contributes: no directory, a write only for a rendered
      ".mp3" entry at its output path, and for every ".mp3" entry a final report
      of its own outcome. */
  lemma EntryEffects(mp3Folder: Path, spectrogramFolder: Path, render: (Path, Path) -> bool, file: string, p: Path)
    ensures Write(p) in EntryStep(mp3Folder, spectrogramFolder, render, file) <==>
      IsMp3(file) && p == OutputPath(spectrogramFolder, file) && render(Join(mp3Folder, file), p)
    ensures MakeDirs(p) !in EntryStep(mp3Folder, spectrogramFolder, render, file)
    ensures IsMp3(file) ==>
      var ip, op := Join(mp3Folder, file), OutputPath(spectrogramFolder, file);
      var events := EntryStep(mp3Folder, spectrogramFolder, render, file);
      events != [] && events[|events| - 1] == Report(if render(ip, op) then Saved(op) else Failed(ip))
  {
  }

  /** The only directory ever made is the spectrogram folder, and only when it
      was missing. */
  lemma FolderMadeOnlyWhenMissing(mp3Folder: Path, spectrogramFolder: Path, folderExists: bool, listing: seq<string>, render: (Path, Path) -> bool, d: Path)
    ensures MakeDirs(d) in ConversionEvents(mp3Folder, spectrogramFolder, folderExists, listing, render) <==>
      !folderExists && d == spectrogramFolder
  {
    var handle := EntryEvents(mp3Folder, spectrogramFolder, render);
    InForEach(listing, handle, MakeDirs(d));
    forall k | 0 <= k < |listing| ensures MakeDirs(d) !in handle(listing[k]) {
      EntryEffects(mp3Folder, spectrogramFolder, render, listing[k], d);
    }
  }

  /** A PNG is written at p exactly when some ".mp3" entry of the listing maps to
      p and renders. */
  lemma WrittenExactlyTheRenderedMp3s(mp3Folder: Path, spectrogramFolder: Path, folderExists: bool, listing: seq<string>, render: (Path, Path) -> bool, p: Path)
    ensures Write(p) in ConversionEvents(mp3Folder, spectrogramFolder, folderExists, listing, render) <==>
      exists k :: 0 <= k < |listing| && IsMp3(listing[k]) && p == OutputPath(spectrogramFolder, listing[k]) &&
        render(Join(mp3Folder, listing[k]), p)
  {
    var handle := EntryEvents(mp3Folder, spectrogramFolder, render);
    InForEach(listing, handle, Write(p));
    forall k | 0 <= k < |listing|
      ensures Write(p) in handle(listing[k]) <==>
        IsMp3(listing[k]) && p == OutputPath(spectrogramFolder, listing[k]) && render(Join(mp3Folder, listing[k]), p)
    {
      EntryEffects(mp3Folder, spectrogramFolder, render, listing[k], p);
    }
  }

  /** A failure with one entry stops nothing: every ".mp3" entry gets the report
      of its own outcome, saved at its output path when it renders and failed
      with its audio path otherwise. */
  lemma EveryMp3Reported(mp3Folder: Path, spectrogramFolder: Path, folderExists: bool, listing: seq<string>, render: (Path, Path) -> bool, k: nat)
    requires k < |listing| && IsMp3(listing[k])
    ensures var ip, op := Join(mp3Folder, listing[k]), OutputPath(spectrogramFolder, listing[k]);
      Report(if render(ip, op) then Saved(op) else Failed(ip)) in ConversionEvents(mp3Folder, spectrogramFolder, folderExists, listing, render)
  {
    var file := listing[k];
    var ip, op := Join(mp3Folder, file), OutputPath(spectrogramFolder, file);
    var report := Report(if render(ip, op) then Saved(op) else Failed(ip));
    var handle := EntryEvents(mp3Folder, spectrogramFolder, render);
    assert report in handle(file) by {
      EntryEffects(mp3Folder, spectrogramFolder, render, file, []);
      var events := handle(file);
      assert events[|events| - 1] in events;
    }
    InForEach(listing, handle, report);
  }

  /** Every PNG lands directly in the spectrogram folder, whatever its spelling:
      the path is the folder as os.path.join continues it, followed by a name with
      no '/'. For a folder that does not end in '/', its directory is that folder:
      the folder that was checked, and made when missing, is the one written into. */
  lemma OutputInSpectrogramFolder(spectrogramFolder: Path, file: string)
    requires '/' !in file
    ensures var name := Stem(file) + ".png";
      '/' !in name && OutputPath(spectrogramFolder, file) == JoinPrefix(spectrogramFolder) + name
    ensures spectrogramFolder != [] && spectrogramFolder[|spectrogramFolder| - 1] != '/' ==>
      Dirname(OutputPath(spectrogramFolder, file)) == spectrogramFolder
  {
    var name := Stem(file) + ".png";
    StemHasNoSlash(file, ".png");
    JoinRelative(spectrogramFolder, name);
    if spectrogramFolder != [] && spectrogramFolder[|spectrogramFolder| - 1] != '/' {
      DirnameOfChild(spectrogramFolder, name);
    }
  }
}
