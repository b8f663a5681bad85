/**
 * Preprocessing/spectro_converter.py: walk an input folder recursively and write,
 * for every ".mp3" file, a spectrogram PNG at the same relative place under an
 * output folder.
 *
 * os.walk is an input: the directories it yields, each with its path relative to
 * the input folder (as components) and its file names. Whether rendering one file
 * succeeds is an input too (`render`), since decoding and plotting are foreign code.
 */
module SpectroConverter {
  import opened Strings
  import opened Paths
  import opened Effects
  import opened Batch

  /** How far generate_spectrogram gets with one file. */
  datatype RenderOutcome =
    | Rendered         // decoded, transformed, plotted and saved
    | FailsBeforeSave  // decoding, the transform, the plotting or making the output directory raises
    | FailsOnSave      // the output directory was made, then savefig raises

  /** generate_spectrogram: never raises. The output's
      directory is made (an existing one is no error) right before the image is
      saved; any exception is reported with the audio path. */
  function GenerateSpectrogram(audioPath: Path, outputPath: Path, outcome: RenderOutcome): (events: seq<Event>)
    ensures events != []
    ensures events[|events| - 1] == Report(if outcome == Rendered then Saved(outputPath) else Failed(audioPath))
    ensures Write(outputPath) in events <==> outcome == Rendered
    ensures forall k :: 0 <= k < |events| && events[k].Write? ==>
      events[k].path == outputPath && 0 < k && events[k - 1] == MakeDirs(Dirname(outputPath))
  {
    match outcome
    case FailsBeforeSave => [Report(Failed(audioPath))]
    case FailsOnSave => [MakeDirs(Dirname(outputPath)), Report(Failed(audioPath))]
    case Rendered => [MakeDirs(Dirname(outputPath)), Write(outputPath), Report(Saved(outputPath))]
  }

  /** One directory yielded by os.walk: its path below the input folder, as
      components, and the names of the files in it. */
  datatype Directory = Directory(rel: seq<string>, files: seq<string>)

  /** A component os.walk can yield: not empty, no separator, not "." or "..". */
  predicate IsName(s: string) {
    s != [] && '/' !in s && s != "." && s != ".."
  }

  function JoinAll(parts: seq<string>): (r: Path)
    requires parts != []
    ensures EndsWith(r, parts[|parts| - 1])
  {
    if |parts| == 1 then parts[0] else JoinAll(parts[..|parts| - 1]) + "/" + parts[|parts| - 1]
  }

  /** os.path.relpath of the root of directory rel against the input folder:
      "." for the input folder itself, otherwise the components joined by '/'. */
  function RelPath(rel: seq<string>): (r: Path)
    ensures rel == [] ==> r == "."
    ensures rel != [] ==> EndsWith(r, rel[|rel| - 1])
  {
    if rel == [] then "." else JoinAll(rel)
  }

  /** The root os.walk yields for the directory rel below top. */
  function Root(top: Path, rel: seq<string>): (r: Path)
    ensures rel == [] ==> r == top
    ensures rel != [] ==> EndsWith(r, rel[|rel| - 1])
  {
    if rel == [] then top else Join(Root(top, rel[..|rel| - 1]), rel[|rel| - 1])
  }

  function InputPath(inputFolder: Path, rel: seq<string>, file: string): Path {
    Join(Root(inputFolder, rel), file)
  }

  /** The output folder joined with the relative path, then with the file's stem
      followed by ".png". */
  function OutputPath(outputFolder: Path, rel: seq<string>, file: string): (r: Path)
    ensures EndsWith(r, Stem(file) + ".png")
  {
    Join(Join(outputFolder, RelPath(rel)), Stem(file) + ".png")
  }

  /** The inner loop's body for one file of the directory rel: an ".mp3" file is
      rendered, any other is ignored. */
  function FileStep(inputFolder: Path, outputFolder: Path, render: (Path, Path) -> RenderOutcome, rel: seq<string>, file: string): seq<Event> {
    if IsMp3(file) then
      var inputPath, outputPath := InputPath(inputFolder, rel, file), OutputPath(outputFolder, rel, file);
      GenerateSpectrogram(inputPath, outputPath, render(inputPath, outputPath))
    else []
  }

  /** The inner loop's body for the directory rel. */
  function FileEvents(inputFolder: Path, outputFolder: Path, render: (Path, Path) -> RenderOutcome, rel: seq<string>): string -> seq<Event> {
    file => FileStep(inputFolder, outputFolder, render, rel, file)
  }

  /** The outer loop's body. */
  function DirectoryEvents(inputFolder: Path, outputFolder: Path, render: (Path, Path) -> RenderOutcome): Directory -> seq<Event> {
    (dir: Directory) => ForEach(dir.files, FileEvents(inputFolder, outputFolder, render, dir.rel))
  }

  /** One pass of the inner loop: an ".mp3" file is rendered, any other is ignored. */
  method ProcessFile(inputFolder: Path, outputFolder: Path, rel: seq<string>, file: string, render: (Path, Path) -> RenderOutcome)
    returns (events: seq<Event>)
    ensures events == FileStep(inputFolder, outputFolder, render, rel, file)
  {
    events := [];
    if IsMp3(file) {
      var inputPath := Join(Root(inputFolder, rel), file);
      var relativePath := RelPath(rel);
      var outputPath := Join(Join(outputFolder, relativePath), Stem(file) + ".png");
      events := GenerateSpectrogram(inputPath, outputPath, render(inputPath, outputPath));
    }
  }

  /** The inner loop: every file of one directory, in listing order. */
  method ProcessDirectory(inputFolder: Path, outputFolder: Path, dir: Directory, render: (Path, Path) -> RenderOutcome)
    returns (events: seq<Event>)
    ensures events == DirectoryEvents(inputFolder, outputFolder, render)(dir)
  {
    var handle := FileEvents(inputFolder, outputFolder, render, dir.rel);
    var files := dir.files;
    events := [];
    var j := 0;
    while j < |files|
      invariant 0 <= j <= |files|
      invariant events == ForEach(files[..j], handle)
    {
      var fileEvents := ProcessFile(inputFolder, outputFolder, dir.rel, files[j], render);
      events := events + fileEvents;
      assert ForEach(files[..j + 1], handle) == ForEach(files[..j], handle) + handle(files[j]) by {
        ForEachSnoc(files, j, handle);
      }
      j := j + 1;
    }
    assert files[..|files|] == files;
  }

  /** process_audio_files: every directory of the
      walk, in the order os.walk yields them. */
  method ProcessAudioFiles(inputFolder: Path, outputFolder: Path, walk: seq<Directory>, render: (Path, Path) -> RenderOutcome)
    returns (events: seq<Event>)
    ensures events == ForEach(walk, DirectoryEvents(inputFolder, outputFolder, render))
  {
    var handle := DirectoryEvents(inputFolder, outputFolder, render);
    events := [];
    var i := 0;
    while i < |walk|
      invariant 0 <= i <= |walk|
      invariant events == ForEach(walk[..i], handle)
    {
      var dirEvents := ProcessDirectory(inputFolder, outputFolder, walk[i], render);
      events := events + dirEvents;
      assert ForEach(walk[..i + 1], handle) == ForEach(walk[..i], handle) + handle(walk[i]) by {
        ForEachSnoc(walk, i, handle);
      }
      i := i + 1;
    }
    assert walk[..|walk|] == walk;
  }

  /** The file j of directory i of the walk is an ".mp3" file whose spectrogram
      is saved at p. */
  predicate SavedAt(inputFolder: Path, outputFolder: Path, walk: seq<Directory>, render: (Path, Path) -> RenderOutcome, i: int, j: int, p: Path) {
    0 <= i < |walk| && 0 <= j < |walk[i].files| && IsMp3(walk[i].files[j]) &&
    p == OutputPath(outputFolder, walk[i].rel, walk[i].files[j]) &&
    render(InputPath(inputFolder, walk[i].rel, walk[i].files[j]), p) == Rendered
  }

  /** What one file contributes: a write only for a rendered ".mp3" file, at its
      output path, and for every ".mp3" file a final report of its own outcome. */
  lemma FileEffects(inputFolder: Path, outputFolder: Path, render: (Path, Path) -> RenderOutcome, rel: seq<string>, file: string, p: Path)
    ensures Write(p) in FileStep(inputFolder, outputFolder, render, rel, file) <==>
      IsMp3(file) && p == OutputPath(outputFolder, rel, file) &&
      render(InputPath(inputFolder, rel, file), p) == Rendered
    ensures IsMp3(file) ==>
      var ip, op := InputPath(inputFolder, rel, file), OutputPath(outputFolder, rel, file);
      var events := FileStep(inputFolder, outputFolder, render, rel, file);
      events != [] && events[|events| - 1] == Report(if render(ip, op) == Rendered then Saved(op) else Failed(ip))
  {
  }

  /** A spectrogram is written at p exactly when some ".mp3" file of some directory
      of the walk maps to p and renders: nothing else is written, and nothing that
      renders is missed. */
  lemma WrittenExactlyTheRenderedMp3s(inputFolder: Path, outputFolder: Path, walk: seq<Directory>, render: (Path, Path) -> RenderOutcome, p: Path)
    ensures Write(p) in ForEach(walk, DirectoryEvents(inputFolder, outputFolder, render)) <==>
      exists i, j :: SavedAt(inputFolder, outputFolder, walk, render, i, j, p)
  {
    var handle := DirectoryEvents(inputFolder, outputFolder, render);
    InForEach(walk, handle, Write(p));
    if Write(p) in ForEach(walk, handle) {
      var i :| 0 <= i < |walk| && Write(p) in handle(walk[i]);
      var fh := FileEvents(inputFolder, outputFolder, render, walk[i].rel);
      InForEach(walk[i].files, fh, Write(p));
      var j :| 0 <= j < |walk[i].files| && Write(p) in fh(walk[i].files[j]);
      FileEffects(inputFolder, outputFolder, render, walk[i].rel, walk[i].files[j], p);
      assert SavedAt(inputFolder, outputFolder, walk, render, i, j, p);
    }
    if exists i, j :: SavedAt(inputFolder, outputFolder, walk, render, i, j, p) {
      var i, j :| SavedAt(inputFolder, outputFolder, walk, render, i, j, p);
      var fh := FileEvents(inputFolder, outputFolder, render, walk[i].rel);
      FileEffects(inputFolder, outputFolder, render, walk[i].rel, walk[i].files[j], p);
      InForEach(walk[i].files, fh, Write(p));
      InForEach(walk, handle, Write(p));
    }
  }

  /** The walk is exhaustive and error-contained: every ".mp3" file of every
      directory gets the report of its own outcome, saved at its output path when
      it renders and failed with its input path otherwise, whatever happened to
      the files before it. */
  lemma EveryMp3Reported(inputFolder: Path, outputFolder: Path, walk: seq<Directory>, render: (Path, Path) -> RenderOutcome, i: nat, j: nat)
    requires i < |walk| && j < |walk[i].files| && IsMp3(walk[i].files[j])
    ensures var ip, op := InputPath(inputFolder, walk[i].rel, walk[i].files[j]), OutputPath(outputFolder, walk[i].rel, walk[i].files[j]);
      Report(if render(ip, op) == Rendered then Saved(op) else Failed(ip)) in ForEach(walk, DirectoryEvents(inputFolder, outputFolder, render))
  {
    var rel, file := walk[i].rel, walk[i].files[j];
    var ip, op := InputPath(inputFolder, rel, file), OutputPath(outputFolder, rel, file);
    var report := Report(if render(ip, op) == Rendered then Saved(op) else Failed(ip));
    var fh := FileEvents(inputFolder, outputFolder, render, rel);
    assert report in fh(file) by {
      FileEffects(inputFolder, outputFolder, render, rel, file, []);
      var events := fh(file);
      assert events[|events| - 1] in events;
    }
    InForEach(walk[i].files, fh, report);
    InForEach(walk, DirectoryEvents(inputFolder, outputFolder, render), report);
  }

  /** Every component of rel is one os.walk can yield. */
  predicate Components(rel: seq<string>) {
    forall k :: 0 <= k < |rel| ==> IsName(rel[k])
  }

  lemma JoinAllShape(parts: seq<string>)
    requires parts != [] && Components(parts)
    ensures JoinAll(parts) != [] && JoinAll(parts)[0] == parts[0][0]
    ensures JoinAll(parts)[|JoinAll(parts)| - 1] == parts[|parts| - 1][|parts[|parts| - 1]| - 1] != '/'
    ensures |parts| == 1 <==> '/' !in JoinAll(parts)
    ensures |parts| > 1 ==> LastIndexOf(JoinAll(parts), '/') == |JoinAll(parts[..|parts| - 1])|
  {
    var last := parts[|parts| - 1];
    assert last[|last| - 1] in last;
    if |parts| > 1 {
      var init := parts[..|parts| - 1];
      JoinAllShape(init);
      LastSlashOfChild(JoinAll(init), last, JoinAll(parts));
      assert JoinAll(parts)[|JoinAll(init)|] == '/';
    }
  }

  /** A joined path of several components splits at its last '/' into the join of
      all but the last component and the last component. */
  lemma JoinAllSplit(parts: seq<string>)
    requires |parts| > 1 && Components(parts)
    ensures var j, init := JoinAll(parts), JoinAll(parts[..|parts| - 1]);
      LastIndexOf(j, '/') == |init| && init == j[..|init|] && parts[|parts| - 1] == j[|init| + 1..]
  {
    JoinAllShape(parts);
  }

  /** Two lists of several components that join to the same path agree on their
      last component and on the join of the others. */
  lemma JoinAllSameSplit(p1: seq<string>, p2: seq<string>)
    requires |p1| > 1 && Components(p1) && |p2| > 1 && Components(p2)
    requires JoinAll(p1) == JoinAll(p2)
    ensures JoinAll(p1[..|p1| - 1]) == JoinAll(p2[..|p2| - 1]) && p1[|p1| - 1] == p2[|p2| - 1]
  {
    JoinAllSplit(p1);
    JoinAllSplit(p2);
  }

  /** Two component lists that join to the same path are the same list. */
  lemma {:induction false} JoinAllSameJoin(p1: seq<string>, p2: seq<string>)
    requires p1 != [] && Components(p1) && p2 != [] && Components(p2)
    requires JoinAll(p1) == JoinAll(p2)
    ensures p1 == p2
  {
    assert |p1| == 1 <==> |p2| == 1 by {
      JoinAllShape(p1);
      JoinAllShape(p2);
    }
    if |p1| == 1 {
      assert p1 == [JoinAll(p1)] && p2 == [JoinAll(p2)];
    } else {
      var i1, i2 := p1[..|p1| - 1], p2[..|p2| - 1];
      assert i1 == i2 && p1[|p1| - 1] == p2[|p2| - 1] by {
        JoinAllSameSplit(p1, p2);
        assert Components(i1) && Components(i2);
        JoinAllSameJoin(i1, i2);
      }
      assert p1 == i1 + [p1[|p1| - 1]] == i2 + [p2[|p2| - 1]] == p2;
    }
  }

  /** Different component lists never join to the same relative path. */
  lemma JoinAllInjective(p1: seq<string>, p2: seq<string>)
    requires p1 != [] && Components(p1) && p2 != [] && Components(p2)
    ensures JoinAll(p1) == JoinAll(p2) <==> p1 == p2
  {
    if JoinAll(p1) == JoinAll(p2) {
      JoinAllSameJoin(p1, p2);
    }
  }

  /** The directory os.walk yields is the input folder joined with the relative
      path, which is why os.path.relpath gives back exactly that relative path. */
  lemma {:induction false} RootIsTopJoinedWithRelPath(top: Path, rel: seq<string>)
    requires rel != [] && Components(rel)
    ensures Root(top, rel) == JoinPrefix(top) + RelPath(rel)
  {
    var last := rel[|rel| - 1];
    var init := rel[..|rel| - 1];
    assert last != [] && last[0] != '/' by {
      assert IsName(last);
      assert last[0] in last;
    }
    if |rel| == 1 {
      assert Root(top, rel) == Join(top, last) by {
        assert init == [];
      }
      JoinRelative(top, last);
      assert RelPath(rel) == last;
    } else {
      var q, j := JoinPrefix(top), JoinAll(init);
      assert Root(top, init) == q + j by {
        assert Components(init);
        RootIsTopJoinedWithRelPath(top, init);
      }
      assert j != [] && j[|j| - 1] != '/' by {
        assert Components(init);
        JoinAllShape(init);
      }
      JoinAfter(q, j, last);
      assert RelPath(rel) == j + "/" + last;
    }
  }

  lemma RelPathShape(rel: seq<string>)
    requires Components(rel)
    ensures RelPath(rel) != [] && RelPath(rel)[0] != '/' && RelPath(rel)[|RelPath(rel)| - 1] != '/'
    ensures RelPath(rel) == "." <==> rel == []
  {
    if rel != [] {
      JoinAllShape(rel);
      if |rel| > 1 {
        assert '/' in JoinAll(rel);
      } else {
        assert JoinAll(rel) == rel[0];
      }
    }
  }

  /** os.path.relpath recovers the directory: distinct places below the input
      folder have distinct relative paths. */
  lemma RelPathInjective(r1: seq<string>, r2: seq<string>)
    requires Components(r1) && Components(r2)
    ensures RelPath(r1) == RelPath(r2) <==> r1 == r2
  {
    RelPathShape(r1);
    RelPathShape(r2);
    if r1 != [] && r2 != [] {
      JoinAllInjective(r1, r2);
    }
  }

  /** A spectrogram path is its mirrored directory, a '/', and a file name with no
      '/' in it. */
  lemma OutputPathIsChild(outputFolder: Path, rel: seq<string>, file: string)
    requires Components(rel) && '/' !in file
    ensures var dir := Join(outputFolder, RelPath(rel));
      dir != [] && dir[|dir| - 1] != '/' && '/' !in Stem(file) + ".png" &&
      OutputPath(outputFolder, rel, file) == dir + "/" + (Stem(file) + ".png")
  {
    var dir := Join(outputFolder, RelPath(rel));
    var name := Stem(file) + ".png";
    StemHasNoSlash(file, ".png");
    RelPathShape(rel);
    assert dir[|dir| - 1] == RelPath(rel)[|RelPath(rel)| - 1];
    JoinRelative(dir, name);
  }

  /** The directory generate_spectrogram makes before saving is the input
      directory's mirror under the output folder. */
  lemma OutputDirectoryIsMirrored(outputFolder: Path, rel: seq<string>, file: string)
    requires Components(rel) && '/' !in file
    ensures Dirname(OutputPath(outputFolder, rel, file)) == Join(outputFolder, RelPath(rel))
  {
    OutputPathIsChild(outputFolder, rel, file);
    DirnameOfChild(Join(outputFolder, RelPath(rel)), Stem(file) + ".png");
  }

  /** Two ".mp3" files get the same spectrogram path exactly when they are in the
      same directory and share a stem: the mirrored tree never mixes up directories. */
  lemma OutputPathInjective(outputFolder: Path, r1: seq<string>, f1: string, r2: seq<string>, f2: string)
    requires Components(r1) && '/' !in f1 && Components(r2) && '/' !in f2
    ensures OutputPath(outputFolder, r1, f1) == OutputPath(outputFolder, r2, f2) <==> r1 == r2 && Stem(f1) == Stem(f2)
  {
    if OutputPath(outputFolder, r1, f1) == OutputPath(outputFolder, r2, f2) {
      var n1, n2 := Stem(f1) + ".png", Stem(f2) + ".png";
      OutputPathIsChild(outputFolder, r1, f1);
      OutputPathIsChild(outputFolder, r2, f2);
      ChildInjective(Join(outputFolder, RelPath(r1)), n1, Join(outputFolder, RelPath(r2)), n2);
      assert Stem(f1) == n1[..|n1| - 4] == Stem(f2);
      RelPathShape(r1);
      RelPathShape(r2);
      JoinRelativeInjective(outputFolder, RelPath(r1), RelPath(r2));
      RelPathInjective(r1, r2);
    }
  }
}
