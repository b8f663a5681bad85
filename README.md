# Audio-provenance data pipeline: a Dafny model

This project models the batch core of a pipeline that tells AI-generated music
from human-made music. The pipeline works in four steps:

- **mp3_splitter.py** cuts every MP3 file of a folder into fixed-length chunks.
  The chunks go to a `split_audio` subfolder.
- **Preprocessing/spectro_converter.py** walks a folder tree. It writes a greyscale
  spectrogram PNG for every MP3 file, at the same relative place in an output tree.
- **temp.py** does the same for one flat folder, by default from `App_Audio`
  into `App_Spectrograms`, the folder whose PNGs the desktop application lists
  and classifies.
- **Model/demo_model.py** loads every PNG of two corpora. It gives the AI corpus
  label 0 and the real corpus label 1, then joins the two into one labelled
  dataset.

## What the model takes as input

The three batch scripts (mp3_splitter.py, Preprocessing/spectro_converter.py
and temp.py) are imperative loops whose effects are directory creation, file
writes, audio exports and printed progress lines. The model gives each of them
a method with the same loops. Each method returns the effects as a trace of
`Effects.Event` values:

- `MakeDirs`
- `Write`
- `Export`
- `Report`, whose message stands for each printed line: saved, exported, skipped
  or failed.

Each method is proved equal to a specification function over its inputs.
Lemmas about those functions state what the scripts promise.

The training-data part of Model/demo_model.py has no effects of that kind that
the model keeps. Its methods, `LoadImagesFromFolder` and `AssembleDatasets`,
return a `Result`: the loaded images and labels, or the error that ends the
script.

Everything outside Python's own logic becomes an input:

- directory listings, and the directories `os.walk` yields
- whether the output folder already exists
- the length in milliseconds of every audio file the decoder accepts
- which exports, renders and image loads raise

The pure library code the scripts rely on is modelled exactly. This covers
POSIX `os.path.join`, `os.path.splitext`, `os.path.dirname` and `str.endswith`,
in `Paths` and `Strings`.

Modules:

- `Strings` and `Paths`: string and path primitives.
- `Batch`: the shared "handle every entry, collect its effects" loop shape, with
  its append, membership and containment laws.
- `Splitter`: mp3_splitter.py.
- `SpectroConverter`: Preprocessing/spectro_converter.py.
- `TempConverter`: temp.py.
- `DemoModel`: Model/demo_model.py, lines 9-40.

### Error behaviour of the training-data script

- **Image load failures abort the run.** In Model/demo_model.py, `load_img` is
  outside any `try`, so the first image that cannot be loaded ends the script.
  The model returns `Err(CannotLoad(path))` for the first such path.
- **An empty class fails only at the concatenation.** No check rejects an empty
  corpus. The script fails only because `np.concatenate` cannot join the
  one-dimensional `np.array([])` of an empty corpus with the four-dimensional
  array of a non-empty one. The model returns `Err(DimensionMismatch)` exactly
  when one corpus is empty and the other is not. When both are empty, assembly
  succeeds with no examples.

## Model

| member | source | states |
|---|---|---|
| Strings.DigitsValueOfNatToString | mp3_splitter.py:37 | The chunk number written into a chunk name reads back as that number. |
| Strings.NatToStringInjective | mp3_splitter.py:37 | Two chunk numbers have the same decimal text exactly when they are equal. |
| Strings.NatToString | mp3_splitter.py:37 | `str(n)` of a chunk number is non-empty and made of decimal digits only; the two lemmas above show it is read back as n and differs between numbers. |
| Paths.Join | mp3_splitter.py:13 | `os.path.join(a, b)` always ends with `b`. |
| Paths.JoinEndsWith | Model/demo_model.py:23-24 | A joined path ends with a suffix that has no '/' exactly when the joined name does. So the PNG filter on the joined path is a filter on the listed name. |
| Paths.SplitExt | mp3_splitter.py:28 | `os.path.splitext` loses nothing: stem followed by extension is the path. |
| Paths.ExtensionOfName | mp3_splitter.py:28 | A name without '/' has an extension exactly when a dot follows a non-dot character. The extension starts at the last dot and holds no other dot. |
| Paths.StemOfMp3Name | mp3_splitter.py:28 | The base name of an ".mp3" file is the name without ".mp3". The exception is a name whose rest is all dots, which keeps its whole name. |
| Paths.Mp3StemInjective | Preprocessing/spectro_converter.py:51 | Two ".mp3" names whose rests are not all dots have the same stem exactly when they are the same name, so their outputs are distinct. |
| Paths.Mp3StemCollision | temp.py:45-46 | For a run of dots `d`, the names `d.mp3` and `d.mp3.mp3` have the same stem. Both files therefore write the same output path, and the second overwrites the first. |
| Paths.DirnameOfChild | Preprocessing/spectro_converter.py:32 | `os.path.dirname` of `dir + "/" + name` is `dir`, for a `name` without '/' and a `dir` without a trailing '/'. |
| Paths.Dirname | Preprocessing/spectro_converter.py:32 | `os.path.dirname(p)` is a prefix of p. A path without '/' has an empty directory, and a directory that ends in '/' is made of slashes only (the root), since other trailing slashes are stripped. |
| Batch.ForEachAppend | mp3_splitter.py:16-43 | Running the loop over two listings one after the other is running it over their concatenation. |
| Batch.ForEachAt | mp3_splitter.py:16-43 | Each entry's effects appear whole, after those of the earlier entries and before those of the later ones. A failure inside one entry never changes another entry's effects. |
| Batch.ForEachSnoc | mp3_splitter.py:16-43 | Handling one more entry adds that entry's effects after those already produced. |
| Batch.InForEach | mp3_splitter.py:16-17 | An effect occurs in a run exactly when some entry of the listing produces it. |
| Splitter.Decide | mp3_splitter.py:21-29 | A decoded file is skipped exactly when it is shorter than one chunk. A duration of 0 raises exactly then (a division by zero). A negative duration cuts zero chunks. |
| Splitter.ChunkCountIsFloor | mp3_splitter.py:29 | For a positive duration, the chunk count n is at least 1. The n chunks fit in the audio, and the discarded tail is shorter than one chunk. |
| Splitter.SkipIffNoChunk | mp3_splitter.py:23-29 | For a positive duration, the skip test agrees with the floor division giving 0 chunks. |
| Splitter.ChunksAreContiguous | mp3_splitter.py:31-33 | With len = c*1000 milliseconds, chunk i is numbered i+1, starts at i*len and ends at (i+1)*len. The chunks start at 0, each starts where the previous one ends, and together they cover n chunk lengths. |
| Splitter.Plan | mp3_splitter.py:28-38 | The planned chunks are numbered from 1 and named `<base>_chunk<k>.mp3`. Each is one chunk length long and ends within the audio. They start at 0, are contiguous, and leave less than one chunk uncovered. There are none for a short file or a non-positive duration. |
| Splitter.PlanAt | mp3_splitter.py:31-37 | Chunk i of the plan is exactly what iteration i of the loop computes: its number, start, end and name. |
| Splitter.PlanLength | mp3_splitter.py:29-31 | The plan has as many chunks as `range(num_chunks)` iterates. |
| Splitter.DefaultPlan | mp3_splitter.py:5-33 | With the default `chunk_duration` of 30, a file yields one chunk for every whole 30 seconds of audio, and every chunk spans 30 000 ms. |
| Splitter.ChunkNamesDistinct | mp3_splitter.py:37 | No two chunks of one file share a name, so no export overwrites another from the same file. |
| Splitter.ExportedCountIsFirstFailure | mp3_splitter.py:31-43 | The number of chunks a file exports is the position of its first chunk whose export raises: every chunk before it exported, and the chunk at that position (if any) failed. |
| Splitter.ExportedCountIsUnique | mp3_splitter.py:31-43 | Any position with that first-failure property is the number of exported chunks. |
| Splitter.ExportEventsStopAt | mp3_splitter.py:31-43 | The effects of the export loop are the exports of every chunk before such a position, then one error report for the file if the loop stopped before the end. |
| Splitter.ExportFailureReported | mp3_splitter.py:31-43 | An error is reported for the file exactly when the export of some chunk of its plan raises. |
| Splitter.OnlyMp3EntriesHandled | mp3_splitter.py:16-17 | Every effect of the run belongs to some ".mp3" entry of the listing, and every effect of such an entry is in the run. |
| Splitter.ExportChunks | mp3_splitter.py:31-40 | The export loop produces the exports and progress lines of the plan, stopping at the first export that raises. |
| Splitter.SplitFile | mp3_splitter.py:18-43 | The try block for one file: a decode failure, a short file, a zero duration, or the cut. |
| Splitter.HandleEntry | mp3_splitter.py:17-43 | A non-".mp3" entry has no effect; an ".mp3" entry is split. |
| Splitter.SplitListing | mp3_splitter.py:16-43 | The loop over the listing, entry by entry, in listing order. |
| Splitter.SplitMp3Files | mp3_splitter.py:5-43 | `split_mp3_files`: make `<folder>/split_audio`, then handle every entry in order. The chunk duration is an optional last argument that defaults to 30 seconds. |
| SpectroConverter.GenerateSpectrogram | Preprocessing/spectro_converter.py:9-38 | Never raises, and always ends with one report: saved at the output path, or failed naming the audio path. The image is written exactly when rendering succeeds, and only right after its directory is made. |
| SpectroConverter.ProcessFile | Preprocessing/spectro_converter.py:48-52 | One file of the walk: an ".mp3" file gets its input path and its mirrored output path and is rendered. Any other file is ignored. |
| SpectroConverter.ProcessDirectory | Preprocessing/spectro_converter.py:47-52 | The inner loop over one directory's files, in order. |
| SpectroConverter.ProcessAudioFiles | Preprocessing/spectro_converter.py:41-52 | `process_audio_files`: the outer loop over the directories of the walk, in the order `os.walk` yields them. |
| SpectroConverter.FileEffects | Preprocessing/spectro_converter.py:48-52 | One file writes p exactly when it is an ".mp3" file whose output path is p and which renders. Every ".mp3" file ends with the report of its own outcome: saved at its output path when it renders, failed with its input path otherwise. |
| SpectroConverter.WrittenExactlyTheRenderedMp3s | Preprocessing/spectro_converter.py:46-52 | A spectrogram is written at p exactly when some ".mp3" file of some directory of the walk maps to p and renders. |
| SpectroConverter.EveryMp3Reported | Preprocessing/spectro_converter.py:46-52 | Every ".mp3" file of the tree gets the report of its own outcome, whatever happened to the files before it: saved at its output path when it renders, failed with its input path otherwise. Another file's report at a shared output path cannot stand in for it. |
| SpectroConverter.Root | Preprocessing/spectro_converter.py:46 | The root `os.walk` yields for a directory is the input folder itself for the top, and otherwise ends with the directory's own name. |
| SpectroConverter.RelPath | Preprocessing/spectro_converter.py:50 | `os.path.relpath(root, input_folder)` is "." for the input folder itself, and otherwise ends with the directory's own name. |
| SpectroConverter.RootIsTopJoinedWithRelPath | Preprocessing/spectro_converter.py:46-50 | Below the top, the root `os.walk` yields is the input folder joined with the relative path, so `os.path.relpath` of that root against the input folder is exactly that relative path. |
| SpectroConverter.OutputPath | Preprocessing/spectro_converter.py:51 | The output path ends with the file's stem followed by ".png". |
| SpectroConverter.RelPathShape | Preprocessing/spectro_converter.py:50 | The relative path of a directory is never empty and has no '/' at either end. It is "." exactly for the input folder itself. |
| SpectroConverter.JoinAllSameJoin | Preprocessing/spectro_converter.py:50 | Two component lists below the input folder that join to the same relative path are equal, by induction on the last component. |
| SpectroConverter.JoinAllInjective | Preprocessing/spectro_converter.py:50 | Different component lists below the input folder join to different relative paths. |
| SpectroConverter.RelPathInjective | Preprocessing/spectro_converter.py:50 | Two directories of the walk have the same relative path exactly when they are the same directory. |
| SpectroConverter.OutputPathIsChild | Preprocessing/spectro_converter.py:51 | An output path is the mirrored directory, a '/', and a file name without '/'. |
| SpectroConverter.OutputDirectoryIsMirrored | Preprocessing/spectro_converter.py:50-51 | The directory made before saving (line 32) is the input directory's mirror under the output folder. |
| SpectroConverter.OutputPathInjective | Preprocessing/spectro_converter.py:50-51 | Two ".mp3" files have the same spectrogram path exactly when they are in the same directory and have the same stem. |
| TempConverter.GenerateSpectrogram | temp.py:11-33 | Never raises, and always ends with one report: saved at the output path, or failed naming the MP3 path. It writes exactly when rendering succeeds, and it never makes a directory. |
| TempConverter.ConvertEntry | temp.py:43-48 | One entry of the listing: an ".mp3" entry is rendered to `<spectrogram folder>/<stem>.png`. Any other entry is ignored. |
| TempConverter.ConvertListing | temp.py:42-48 | The loop over the listing, in listing order. |
| TempConverter.ConvertAllMp3sToSpectrograms | temp.py:35-48 | `convert_all_mp3s_to_spectrograms`: make the output folder only when it is missing, then handle the listing. |
| TempConverter.EntryEffects | temp.py:43-48 | One entry writes p exactly when it is a rendered ".mp3" entry whose output path is p. It makes no directory. Every ".mp3" entry ends with the report of its own outcome: saved at its output path when it renders, failed with its audio path otherwise. |
| TempConverter.FolderMadeOnlyWhenMissing | temp.py:39-40 | The only directory ever made is the spectrogram folder, and only when it did not exist. |
| TempConverter.WrittenExactlyTheRenderedMp3s | temp.py:42-48 | A PNG is written at p exactly when some ".mp3" entry of the listing maps to p and renders. |
| TempConverter.EveryMp3Reported | temp.py:42-48 | Every ".mp3" entry gets the report of its own outcome, saved when it renders and failed with its audio path otherwise; one failure stops nothing. |
| TempConverter.OutputPath | temp.py:45-46 | The output path ends with the file's stem followed by ".png". |
| TempConverter.OutputInSpectrogramFolder | temp.py:39-46 | For every spelling of the spectrogram folder, including one that ends in '/', the PNG path is that folder as `os.path.join` continues it, followed by a name with no '/'. When the folder does not end in '/', the directory of the PNG is that folder: the one checked, and made when missing, is the one written into. |
| DemoModel.PngPathOfName | Model/demo_model.py:23-24 | One entry is loaded exactly when its own name ends with ".png", at the folder joined with that name. |
| DemoModel.Load | Model/demo_model.py:16-29 | `load_images_from_folder` as a function: on success there are as many images and labels as ".png" paths; on failure the error names a ".png" path of the listing whose image cannot be loaded. |
| DemoModel.ImagePathsAreThePngEntries | Model/demo_model.py:22-24 | The loaded paths are exactly the folder joined with each listed name that ends with ".png". |
| DemoModel.AllLoadAppend | Model/demo_model.py:22-25 | Every path of a concatenation loads exactly when every path of each part does. |
| DemoModel.FirstUnloadableOfPrefix | Model/demo_model.py:33-36 | The first path of Dataset1 that cannot be loaded is also the first of Dataset1 followed by Dataset2. |
| DemoModel.FirstUnloadableOfSuffix | Model/demo_model.py:33-36 | When all of Dataset1 loads, the first path of Dataset2 that cannot be loaded is the first of the two together. |
| DemoModel.LoadSucceedsIff | Model/demo_model.py:22-25 | Loading a folder succeeds exactly when every ".png" path loads. |
| DemoModel.LoadedExamples | Model/demo_model.py:22-29 | A successful load returns one image per ".png" path, in listing order. Image i is the image of path i, and every label equals the call's label, so images and labels have equal length. |
| DemoModel.FirstUnloadableReported | Model/demo_model.py:22-25 | A failed load reports the first ".png" path that cannot be loaded. Every path before it loaded. |
| DemoModel.LoadStopsAtError | Model/demo_model.py:25 | Once an image fails to load, the rest of the listing makes no difference. |
| DemoModel.LoadImagesFromFolder | Model/demo_model.py:16-29 | `load_images_from_folder`: the loop that appends an image and the label per ".png" entry, ending at the first image that cannot be loaded. |
| DemoModel.AssembleDatasets | Model/demo_model.py:33-40 | Load Dataset1 with label 0, then Dataset2 with label 1, then concatenate the images and the labels. |
| DemoModel.Concatenate | Model/demo_model.py:39-40 | `np.concatenate` of the two corpora fails exactly when one has images and the other has none (a one-dimensional empty array against four-dimensional image arrays). Otherwise the first corpus's images and labels come first, then the second's. |
| DemoModel.AssembledDataset | Model/demo_model.py:33-40 | The combined data holds every Dataset1 image first, labelled 0, then every Dataset2 image, labelled 1, in listing order. Image i and label i come from the same file. |
| DemoModel.AssembledAt | Model/demo_model.py:33-40 | Position k of the combined data holds the image of path k of Dataset1 followed by Dataset2, labelled 0 or 1 by the corpus it comes from. |
| DemoModel.AssembledLabelCounts | Model/demo_model.py:33-40 | There are as many 0 labels as Dataset1 images and as many 1 labels as Dataset2 images. |
| DemoModel.AssembleSucceedsIff | Model/demo_model.py:33-40 | Assembly succeeds exactly when every image of both corpora loads and the two corpora are both empty or both non-empty. |
| DemoModel.AssembleFailsAtFirstUnloadable | Model/demo_model.py:33-36 | A load failure names the first unloadable image of Dataset1 followed by Dataset2. |

## Left out

- Audio decoding, chunk slicing and MP3 encoding (pydub) are left out. They are foreign code, so a file's length in milliseconds and which exports raise are inputs.
- Spectrogram computation and plotting (scipy, librosa, matplotlib) are left out. They are floating-point foreign code, so whether a render succeeds, and at which stage it fails, is an input.
- Splitter.Decide: `len(audio) / 1000` is compared with, and floor-divided by, the chunk duration in floating point. The model uses exact integer milliseconds, so its count can differ from the float one at lengths within rounding of a chunk boundary.
- Splitter.SplitMp3Files: `os.makedirs` and `os.listdir` can raise (an unreadable folder, or a file where the folder should be). Such errors are outside every `try` and would end the script. The model assumes both succeed.
- SpectroConverter.ProcessAudioFiles: `os.walk` is an input, given as each directory's components below the input folder. `os.path.relpath`'s normalisation of the input folder is taken as given: `.` for the top, and the joined components below it.
- TempConverter.ConvertAllMp3sToSpectrograms: the existence test is an input. A plain file at the output path counts as existing, so no folder is made, as in the script. `os.makedirs` raising (no permission, a dangling symbolic link, an empty folder name) is not modelled: the model assumes it succeeds.
- DemoModel.LoadImagesFromFolder: an image is left abstract. The resize to 128x128 (`IMG_HEIGHT`, `IMG_WIDTH`), `img_to_array` and the division by 255.0 are floating point, so every loaded image stands for its normalised array.
- DemoModel.AssembleDatasets: `np.concatenate` is modelled only for shape compatibility: an empty corpus against a non-empty one.
- DemoModel.AssembleDatasets: the two "Loading DatasetN..." lines are not modelled; the methods return the loaded data or the error, not an effect trace.
- Progress lines of the three batch scripts are modelled by their kind and subject, not their wording. The skip message of mp3_splitter.py always says "30-second" whatever the duration.
- The rest of Model/demo_model.py is left out: the train/test split, the network, training, evaluation and saving (lines 42-78). These are randomised or floating-point library calls.
- gui.py is not part of this model. It is a Tk desktop application: it lists the PNGs already in `App_Spectrograms`, plays the matching audio, and classifies one spectrogram with the trained network when its button is clicked. All of that is GUI, audio playback and neural-network library calls.
- Model/test_model.py is not part of this model. It only builds a dataset with `image_dataset_from_directory` and an empty `Sequential` network: library calls with no logic of its own.
- The `__main__` blocks are left out. They read folders from the console or use the fixed folders `App_Audio` and `App_Spectrograms`; the model takes the folders as parameters.
