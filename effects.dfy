/**
 * The scripts act on the world only through the file system and the console.
 * Each run is modelled by the sequence of those effects, in the order they happen.
 */
module Effects {

  /** What a script prints. */
  datatype Message =
    | Saved(path: string)        // a spectrogram was written to path
    | Exported(chunkName: string) // an audio chunk was exported under that name
    | Skipped(fileName: string)   // a file too short for one chunk
    | Failed(subject: string)     // an exception was caught while handling subject

  datatype Event =
    | MakeDirs(dir: string)                         // os.makedirs
    | Write(path: string)                           // a spectrogram PNG is saved
    | Export(path: string, startMs: nat, endMs: nat) // audio[startMs:endMs] is exported
    | Report(message: Message)                      // a line is printed
}
