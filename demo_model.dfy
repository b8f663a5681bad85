/**
 * Model/demo_model.py, up to the point where the training data is assembled:
 * every ".png" file of a folder becomes one image paired with the folder's label,
 * and the AI-generated corpus (label 0) is joined with the real corpus (label 1).
 *
 * The folder listings and the image loader are inputs: `load` gives the decoded
 * image for a path, or None where keras's load_img raises. The image type is a
 * parameter, since resizing and pixel scaling are floating-point work.
 */
module DemoModel {
  import opened Wrappers
  import opened Strings
  import opened Paths
  import opened Batch

  /** The two corpora and the label each one gets. */
  const Dataset1Path: Path := "ImageData/SunoAI/SunoCaps"
  const Dataset2Path: Path := "ImageData/Real/GTZAN"
  const AiLabel: int := 0
  const RealLabel: int := 1

  /** Why assembling the training data stops with an exception. */
  datatype LoadError =
    | CannotLoad(path: Path)  // load_img raises for this path; nothing catches it
    | DimensionMismatch       // np.concatenate of an empty corpus with a non-empty one

  /** Parallel image and label arrays, as load_images_from_folder returns them. */
  datatype Examples<Image> = Examples(images: seq<Image>, labels: seq<int>)

  predicate IsPng(path: Path) {
    EndsWith(path, ".png")
  }

  /** The loop's filter for one listing entry: the joined path, if it ends with ".png". */
  function PngPath(folder: Path, name: string): seq<Path> {
    if IsPng(Join(folder, name)) then [Join(folder, name)] else []
  }

  function PngStep(folder: Path): string -> seq<Path> {
    name => PngPath(folder, name)
  }

  /** The paths load_images_from_folder loads, in listing order. */
  function ImagePaths(folder: Path, listing: seq<string>): seq<Path> {
    ForEach(listing, PngStep(folder))
  }

  /** Filtering on the joined path is filtering on the entry's own name. */
  lemma PngPathOfName(folder: Path, name: string, p: Path)
    ensures p in PngPath(folder, name) <==> IsPng(name) && p == Join(folder, name)
  {
    JoinEndsWith(folder, name, ".png");
  }

  /** A path is loaded exactly when it is the folder joined with a listed name
      ending ".png". */
  lemma ImagePathsAreThePngEntries(folder: Path, listing: seq<string>, p: Path)
    ensures p in ImagePaths(folder, listing) <==>
      exists k :: 0 <= k < |listing| && IsPng(listing[k]) && p == Join(folder, listing[k])
  {
    InForEach(listing, PngStep(folder), p);
    forall k | 0 <= k < |listing|
      ensures p in PngStep(folder)(listing[k]) <==> IsPng(listing[k]) && p == Join(folder, listing[k])
    {
      PngPathOfName(folder, listing[k], p);
    }
  }

  /** load_images_from_folder, entry by entry: the first image that
      cannot be loaded ends the call with its exception. */
  function Load<Image>(folder: Path, classLabel: int, listing: seq<string>, load: Path -> Option<Image>): (r: Result<Examples<Image>, LoadError>)
    ensures r.Ok? ==> |r.value.images| == |r.value.labels| == |ImagePaths(folder, listing)|
    ensures r.Err? ==> r.error.CannotLoad? && r.error.path in ImagePaths(folder, listing) && load(r.error.path).None?
  {
    if listing == [] then Ok(Examples([], []))
    else
      match Load(folder, classLabel, listing[..|listing| - 1], load)
      case Err(e) => Err(e)
      case Ok(ex) =>
        var path := Join(folder, listing[|listing| - 1]);
        assert ImagePaths(folder, listing) == ImagePaths(folder, listing[..|listing| - 1]) + PngPath(folder, listing[|listing| - 1]);
        if !IsPng(path) then Ok(ex)
        else match load(path)
          case None => Err(CannotLoad(path))
          case Some(image) => Ok(Examples(ex.images + [image], ex.labels + [classLabel]))
  }

  /** Every path of paths loads. */
  predicate AllLoad<Image>(paths: seq<Path>, load: Path -> Option<Image>) {
    forall i :: 0 <= i < |paths| ==> load(paths[i]).Some?
  }

  lemma AllLoadAppend<Image>(a: seq<Path>, b: seq<Path>, load: Path -> Option<Image>)
    ensures AllLoad(a + b, load) <==> AllLoad(a, load) && AllLoad(b, load)
  {
    if AllLoad(a, load) && AllLoad(b, load) {
      forall i | 0 <= i < |a + b| ensures load((a + b)[i]).Some? {
        if i < |a| { assert (a + b)[i] == a[i]; } else { assert (a + b)[i] == b[i - |a|]; }
      }
    }
    if AllLoad(a + b, load) {
      forall i | 0 <= i < |a| ensures load(a[i]).Some? { assert (a + b)[i] == a[i]; }
      forall i | 0 <= i < |b| ensures load(b[i]).Some? { assert (a + b)[|a| + i] == b[i]; }
    }
  }

  /** Path k is the first of paths that does not load. */
  predicate FirstUnloadable<Image>(paths: seq<Path>, load: Path -> Option<Image>, k: int) {
    0 <= k < |paths| && load(paths[k]).None? && AllLoad(paths[..k], load)
  }

  /** The first path of a that does not load is also the first of a + b. */
  lemma FirstUnloadableOfPrefix<Image>(a: seq<Path>, b: seq<Path>, load: Path -> Option<Image>, k: int)
    requires FirstUnloadable(a, load, k)
    ensures FirstUnloadable(a + b, load, k) && (a + b)[k] == a[k]
  {
    assert (a + b)[..k] == a[..k];
  }

  /** When all of a loads, the first path of b that does not load is the first of a + b. */
  lemma FirstUnloadableOfSuffix<Image>(a: seq<Path>, b: seq<Path>, load: Path -> Option<Image>, k: int)
    requires AllLoad(a, load) && FirstUnloadable(b, load, k)
    ensures FirstUnloadable(a + b, load, |a| + k) && (a + b)[|a| + k] == b[k]
  {
    assert (a + b)[..|a| + k] == a + b[..k];
    AllLoadAppend(a, b[..k], load);
  }

  /** A call succeeds exactly when every ".png" path loads. */
  lemma {:induction false} LoadSucceedsIff<Image>(folder: Path, classLabel: int, listing: seq<string>, load: Path -> Option<Image>)
    ensures Load(folder, classLabel, listing, load).Ok? <==> AllLoad(ImagePaths(folder, listing), load)
  {
    if listing != [] {
      var init, name := listing[..|listing| - 1], listing[|listing| - 1];
      var before, step := ImagePaths(folder, init), PngPath(folder, name);
      assert ImagePaths(folder, listing) == before + step;
      AllLoadAppend(before, step, load);
      LoadSucceedsIff(folder, classLabel, init, load);
      if step != [] {
        assert AllLoad(step, load) <==> load(step[0]).Some?;
      }
    }
  }

  /** A call that succeeds returns one image per ".png" path, in listing order,
      each paired with the call's label. */
  lemma {:induction false} LoadedExamples<Image>(folder: Path, classLabel: int, listing: seq<string>, load: Path -> Option<Image>)
    requires Load(folder, classLabel, listing, load).Ok?
    ensures var paths, ex := ImagePaths(folder, listing), Load(folder, classLabel, listing, load).value;
      |ex.images| == |paths| && |ex.labels| == |paths| &&
      forall i :: 0 <= i < |paths| ==> load(paths[i]) == Some(ex.images[i]) && ex.labels[i] == classLabel
  {
    if listing != [] {
      var init, name := listing[..|listing| - 1], listing[|listing| - 1];
      LoadedExamples(folder, classLabel, init, load);
      var before := ImagePaths(folder, init);
      var paths := ImagePaths(folder, listing);
      var path := Join(folder, name);
      assert paths == before + PngPath(folder, name);
      var prev := Load(folder, classLabel, init, load).value;
      var ex := Load(folder, classLabel, listing, load).value;
      if IsPng(path) {
        var image := load(path).value;
        assert paths == before + [path];
        assert ex == Examples(prev.images + [image], prev.labels + [classLabel]);
        forall i | 0 <= i < |paths| ensures load(paths[i]) == Some(ex.images[i]) && ex.labels[i] == classLabel {
          if i < |before| {
            assert paths[i] == before[i] && ex.images[i] == prev.images[i] && ex.labels[i] == prev.labels[i];
          } else {
            assert paths[i] == path && ex.images[i] == image;
          }
        }
      } else {
        assert paths == before;
      }
    }
  }

  /** A call that fails reports the first ".png" path that does not load. */
  lemma {:induction false} FirstUnloadableReported<Image>(folder: Path, classLabel: int, listing: seq<string>, load: Path -> Option<Image>)
    ensures var paths, r := ImagePaths(folder, listing), Load(folder, classLabel, listing, load);
      r.Err? ==> exists k :: FirstUnloadable(paths, load, k) && r.error == CannotLoad(paths[k])
  {
    if listing != [] {
      var init, name := listing[..|listing| - 1], listing[|listing| - 1];
      var before, step := ImagePaths(folder, init), PngPath(folder, name);
      var paths := ImagePaths(folder, listing);
      assert paths == before + step;
      var prev := Load(folder, classLabel, init, load);
      if prev.Err? {
        FirstUnloadableReported(folder, classLabel, init, load);
        var k :| FirstUnloadable(before, load, k) && prev.error == CannotLoad(before[k]);
        assert paths[k] == before[k] && paths[..k] == before[..k];
        assert FirstUnloadable(paths, load, k);
      } else if step != [] && load(step[0]).None? {
        LoadSucceedsIff(folder, classLabel, init, load);
        var k := |before|;
        assert paths[k] == step[0] && paths[..k] == before;
        assert FirstUnloadable(paths, load, k);
      }
    }
  }

  /** Once an image fails to load, the rest of the listing is never reached. */
  lemma {:induction false} LoadStopsAtError<Image>(folder: Path, classLabel: int, listing: seq<string>, load: Path -> Option<Image>, i: nat)
    requires i <= |listing| && Load(folder, classLabel, listing[..i], load).Err?
    ensures Load(folder, classLabel, listing, load) == Load(folder, classLabel, listing[..i], load)
  {
    if i < |listing| {
      var init := listing[..|listing| - 1];
      assert init[..i] == listing[..i];
      LoadStopsAtError(folder, classLabel, init, load, i);
    } else {
      assert listing[..i] == listing;
    }
  }

  /** One more entry of the listing, after a prefix that loaded: a ".png" path adds
      its image and the label, or stops the call when it cannot be loaded. */
  lemma LoadNext<Image>(folder: Path, classLabel: int, listing: seq<string>, load: Path -> Option<Image>, i: nat, ex: Examples<Image>)
    requires i < |listing| && Load(folder, classLabel, listing[..i], load) == Ok(ex)
    ensures var path := Join(folder, listing[i]);
      Load(folder, classLabel, listing[..i + 1], load) ==
        if !IsPng(path) then Ok(ex)
        else if load(path).None? then Err(CannotLoad(path))
        else Ok(Examples(ex.images + [load(path).value], ex.labels + [classLabel]))
  {
    assert listing[..i + 1][..i] == listing[..i];
  }

  /** load_images_from_folder: the loop over the folder's listing. */
  method LoadImagesFromFolder<Image>(folder: Path, classLabel: int, listing: seq<string>, load: Path -> Option<Image>)
    returns (r: Result<Examples<Image>, LoadError>)
    ensures r == Load(folder, classLabel, listing, load)
  {
    var images: seq<Image> := [];
    var labels: seq<int> := [];
    var i := 0;
    while i < |listing|
      invariant 0 <= i <= |listing|
      invariant Load(folder, classLabel, listing[..i], load) == Ok(Examples(images, labels))
    {
      var filepath := Join(folder, listing[i]);
      LoadNext(folder, classLabel, listing, load, i, Examples(images, labels));
      if IsPng(filepath) {
        var image := load(filepath);
        if image.None? {
          LoadStopsAtError(folder, classLabel, listing, load, i + 1);
          return Err(CannotLoad(filepath));
        }
        images := images + [image.value];
        labels := labels + [classLabel];
      }
      i := i + 1;
    }
    assert listing[..i] == listing;
    r := Ok(Examples(images, labels));
  }

  /** np.concatenate along the first axis, of the image arrays and then of the
      label arrays. np.array of an empty image list is one-dimensional and cannot
      be joined with the four-dimensional array of a non-empty corpus; two empty
      corpora, or two non-empty ones, join. The label arrays are one-dimensional
      either way, but the image concatenation comes first. */
  function Concatenate<Image>(first: Examples<Image>, second: Examples<Image>): (r: Result<Examples<Image>, LoadError>)
    ensures r.Err? <==> (first.images == [] <==> second.images != [])
    ensures r.Err? ==> r.error == DimensionMismatch
    ensures r.Ok? ==>
      |r.value.images| == |first.images| + |second.images| && |r.value.labels| == |first.labels| + |second.labels| &&
      r.value.images[..|first.images|] == first.images && r.value.images[|first.images|..] == second.images &&
      r.value.labels[..|first.labels|] == first.labels && r.value.labels[|first.labels|..] == second.labels
  {
    if (first.images == []) != (second.images == []) then Err(DimensionMismatch)
    else Ok(Examples(first.images + second.images, first.labels + second.labels))
  }

  /** The module's top level: Dataset1 with label 0, then Dataset2 with label 1,
      then the two concatenations. */
  function Assemble<Image>(listing1: seq<string>, listing2: seq<string>, load: Path -> Option<Image>): Result<Examples<Image>, LoadError> {
    match Load(Dataset1Path, AiLabel, listing1, load)
    case Err(e) => Err(e)
    case Ok(dataset1) =>
      match Load(Dataset2Path, RealLabel, listing2, load)
      case Err(e) => Err(e)
      case Ok(dataset2) => Concatenate(dataset1, dataset2)
  }

  method AssembleDatasets<Image>(listing1: seq<string>, listing2: seq<string>, load: Path -> Option<Image>)
    returns (r: Result<Examples<Image>, LoadError>)
    ensures r == Assemble(listing1, listing2, load)
  {
    var dataset1 := LoadImagesFromFolder(Dataset1Path, AiLabel, listing1, load);
    if dataset1.Err? {
      return Err(dataset1.error);
    }
    var dataset2 := LoadImagesFromFolder(Dataset2Path, RealLabel, listing2, load);
    if dataset2.Err? {
      return Err(dataset2.error);
    }
    r := Concatenate(dataset1.value, dataset2.value);
  }

  /** How often w occurs in a sequence that holds v everywhere. */
  lemma {:induction false} CountOfConstant(s: seq<int>, v: int, w: int)
    requires forall i :: 0 <= i < |s| ==> s[i] == v
    ensures multiset(s)[w] == if w == v then |s| else 0
  {
    if s != [] {
      CountOfConstant(s[..|s| - 1], v, w);
      assert s == s[..|s| - 1] + [s[|s| - 1]];
    }
  }

  /** A successful assembly is the two loaded corpora, one after the other. */
  lemma AssembledParts<Image>(listing1: seq<string>, listing2: seq<string>, load: Path -> Option<Image>)
    requires Assemble(listing1, listing2, load).Ok?
    ensures Load(Dataset1Path, AiLabel, listing1, load).Ok? && Load(Dataset2Path, RealLabel, listing2, load).Ok?
    ensures var d1, d2 := Load(Dataset1Path, AiLabel, listing1, load).value, Load(Dataset2Path, RealLabel, listing2, load).value;
      Assemble(listing1, listing2, load).value == Examples(d1.images + d2.images, d1.labels + d2.labels)
  {
  }

  /** The assembled arrays hold one entry per ".png" path of the two corpora. */
  lemma AssembledSizes<Image>(listing1: seq<string>, listing2: seq<string>, load: Path -> Option<Image>,
                              p1: seq<Path>, p2: seq<Path>, ex: Examples<Image>)
    requires Assemble(listing1, listing2, load).Ok?
    requires p1 == ImagePaths(Dataset1Path, listing1) && p2 == ImagePaths(Dataset2Path, listing2)
    requires ex == Assemble(listing1, listing2, load).value
    ensures |ex.images| == |ex.labels| == |p1| + |p2|
  {
    AssembledParts(listing1, listing2, load);
  }

  /** Position k of the assembled data holds the image of path k of Dataset1
      followed by Dataset2, with the label of the corpus it comes from. */
  lemma AssembledAt<Image>(listing1: seq<string>, listing2: seq<string>, load: Path -> Option<Image>,
                           p1: seq<Path>, p2: seq<Path>, ex: Examples<Image>, k: int)
    requires Assemble(listing1, listing2, load).Ok?
    requires p1 == ImagePaths(Dataset1Path, listing1) && p2 == ImagePaths(Dataset2Path, listing2)
    requires ex == Assemble(listing1, listing2, load).value
    requires 0 <= k < |p1| + |p2|
    ensures |ex.images| == |ex.labels| == |p1| + |p2|
    ensures k < |p1| ==> load(p1[k]) == Some(ex.images[k]) && ex.labels[k] == AiLabel
    ensures k >= |p1| ==> load(p2[k - |p1|]) == Some(ex.images[k]) && ex.labels[k] == RealLabel
  {
    AssembledParts(listing1, listing2, load);
    var d1 := Load(Dataset1Path, AiLabel, listing1, load).value;
    var d2 := Load(Dataset2Path, RealLabel, listing2, load).value;
    assert Paired(p1, d1, load, AiLabel) by {
      LoadedExamples(Dataset1Path, AiLabel, listing1, load);
    }
    assert Paired(p2, d2, load, RealLabel) by {
      LoadedExamples(Dataset2Path, RealLabel, listing2, load);
    }
    PairedInConcatenation(p1, p2, d1, d2, load, AiLabel, RealLabel, k);
  }

  /** The assembled data: every Dataset1 image first, labelled 0, then every
      Dataset2 image, labelled 1, each in listing order and each paired with the
      label of its own file. */
  lemma AssembledDataset<Image>(listing1: seq<string>, listing2: seq<string>, load: Path -> Option<Image>,
                                p1: seq<Path>, p2: seq<Path>, ex: Examples<Image>)
    requires Assemble(listing1, listing2, load).Ok?
    requires p1 == ImagePaths(Dataset1Path, listing1) && p2 == ImagePaths(Dataset2Path, listing2)
    requires ex == Assemble(listing1, listing2, load).value
    ensures |ex.images| == |p1| + |p2| && |ex.labels| == |p1| + |p2|
    ensures forall i :: 0 <= i < |p1| ==> load(p1[i]) == Some(ex.images[i]) && ex.labels[i] == AiLabel
    ensures forall i :: 0 <= i < |p2| ==> load(p2[i]) == Some(ex.images[|p1| + i]) && ex.labels[|p1| + i] == RealLabel
  {
    AssembledSizes(listing1, listing2, load, p1, p2, ex);
    forall i | 0 <= i < |p1|
      ensures load(p1[i]) == Some(ex.images[i]) && ex.labels[i] == AiLabel
    {
      AssembledAt(listing1, listing2, load, p1, p2, ex, i);
    }
    forall i | 0 <= i < |p2|
      ensures load(p2[i]) == Some(ex.images[|p1| + i]) && ex.labels[|p1| + i] == RealLabel
    {
      AssembledAt(listing1, listing2, load, p1, p2, ex, |p1| + i);
    }
  }

  /** Image i of ex is the image of path i, label i is the given label, and there
      are as many of each as paths. */
  ghost predicate Paired<Image>(paths: seq<Path>, ex: Examples<Image>, load: Path -> Option<Image>, classLabel: int) {
    |ex.images| == |ex.labels| == |paths| &&
    forall i :: 0 <= i < |paths| ==> load(paths[i]) == Some(ex.images[i]) && ex.labels[i] == classLabel
  }

  /** Joining two corpora, each paired index by index with its paths and labelled
      with one label, pairs the joined arrays with the paths one after the other:
      position k holds the k-th image of the first corpus, or else image k - |p1|
      of the second, with that corpus's label. */
  lemma PairedInConcatenation<Image>(p1: seq<Path>, p2: seq<Path>, d1: Examples<Image>, d2: Examples<Image>,
                                     load: Path -> Option<Image>, label1: int, label2: int, k: int)
    requires Paired(p1, d1, load, label1) && Paired(p2, d2, load, label2)
    requires 0 <= k < |p1| + |p2|
    ensures var images, labels := d1.images + d2.images, d1.labels + d2.labels;
      |images| == |labels| == |p1| + |p2| &&
      if k < |p1| then load(p1[k]) == Some(images[k]) && labels[k] == label1
      else load(p2[k - |p1|]) == Some(images[k]) && labels[k] == label2
  {
  }

  /** There are as many 0 labels as Dataset1 images and as many 1 labels as
      Dataset2 images. */
  lemma AssembledLabelCounts<Image>(listing1: seq<string>, listing2: seq<string>, load: Path -> Option<Image>)
    requires Assemble(listing1, listing2, load).Ok?
    ensures var ex := Assemble(listing1, listing2, load).value;
      multiset(ex.labels)[AiLabel] == |ImagePaths(Dataset1Path, listing1)| &&
      multiset(ex.labels)[RealLabel] == |ImagePaths(Dataset2Path, listing2)|
  {
    AssembledParts(listing1, listing2, load);
    var d1 := Load(Dataset1Path, AiLabel, listing1, load).value;
    var d2 := Load(Dataset2Path, RealLabel, listing2, load).value;
    var ex := Assemble(listing1, listing2, load).value;
    assert forall i :: 0 <= i < |d1.labels| ==> d1.labels[i] == AiLabel by {
      LoadedExamples(Dataset1Path, AiLabel, listing1, load);
    }
    assert forall i :: 0 <= i < |d2.labels| ==> d2.labels[i] == RealLabel by {
      LoadedExamples(Dataset2Path, RealLabel, listing2, load);
    }
    CountOfConstant(d1.labels, AiLabel, AiLabel);
    CountOfConstant(d1.labels, AiLabel, RealLabel);
    CountOfConstant(d2.labels, RealLabel, AiLabel);
    CountOfConstant(d2.labels, RealLabel, RealLabel);
  }

  /** Assembly succeeds exactly when every image of both corpora loads and the
      corpora are both empty or both non-empty. */
  lemma AssembleSucceedsIff<Image>(listing1: seq<string>, listing2: seq<string>, load: Path -> Option<Image>)
    ensures var p1, p2 := ImagePaths(Dataset1Path, listing1), ImagePaths(Dataset2Path, listing2);
      Assemble(listing1, listing2, load).Ok? <==> AllLoad(p1, load) && AllLoad(p2, load) && (p1 == [] <==> p2 == [])
  {
    LoadSucceedsIff(Dataset1Path, AiLabel, listing1, load);
    LoadSucceedsIff(Dataset2Path, RealLabel, listing2, load);
    if Load(Dataset1Path, AiLabel, listing1, load).Ok? && Load(Dataset2Path, RealLabel, listing2, load).Ok? {
      LoadedExamples(Dataset1Path, AiLabel, listing1, load);
      LoadedExamples(Dataset2Path, RealLabel, listing2, load);
    }
  }

  /** An image that does not load stops everything, and it is the first such image
      of Dataset1 followed by Dataset2. */
  lemma AssembleFailsAtFirstUnloadable<Image>(listing1: seq<string>, listing2: seq<string>, load: Path -> Option<Image>)
    ensures var paths := ImagePaths(Dataset1Path, listing1) + ImagePaths(Dataset2Path, listing2);
      var r := Assemble(listing1, listing2, load);
      r.Err? && r.error.CannotLoad? ==> exists k :: FirstUnloadable(paths, load, k) && r.error.path == paths[k]
  {
    var p1, p2 := ImagePaths(Dataset1Path, listing1), ImagePaths(Dataset2Path, listing2);
    var paths := p1 + p2;
    var r := Assemble(listing1, listing2, load);
    if r.Err? && r.error.CannotLoad? {
      if Load(Dataset1Path, AiLabel, listing1, load).Err? {
        FirstUnloadableReported(Dataset1Path, AiLabel, listing1, load);
        var k :| FirstUnloadable(p1, load, k) && r.error == CannotLoad(p1[k]);
        FirstUnloadableOfPrefix(p1, p2, load, k);
      } else {
        LoadSucceedsIff(Dataset1Path, AiLabel, listing1, load);
        FirstUnloadableReported(Dataset2Path, RealLabel, listing2, load);
        var k :| FirstUnloadable(p2, load, k) && r.error == CannotLoad(p2[k]);
        FirstUnloadableOfSuffix(p1, p2, load, k);
      }
    }
  }
}
