/** The outside world the pipeline drives: external commands (ffmpeg),
    file-system actions, and the few files whose contents the code reads
    back. Commands are recorded, not executed; their exit status comes from
    an oracle fixed when the host is created. */
module HostModel {
  import opened Paths
  import Segments

  /** One row of a CSV file, as `csv.writer.writerow` receives it. */
  type Row = seq<string>

  datatype Content =
    | Csv(rows: seq<Row>)  // a CSV file written by the anonymiser
    | Media                // a video file written by ffmpeg

  /** What an external command did: its exit status, and whether it left an output file. */
  datatype RunStatus = RunStatus(exitOk: bool, wroteOutput: bool)

  datatype Op =
    | Run(argv: seq<string>)                          // `subprocess.run(argv)`
    | WriteText(path: FilePath, lines: seq<string>)   // `open(path, "w").writelines(lines)`
    | AppendText(path: FilePath, text: string)        // `open(path, "a").write(text)`
    | AppendRow(path: FilePath, row: Row)             // `csv.writer(open(path, "a")).writerow(row)`
    | AppendSegments(path: FilePath, segs: seq<Segments.Segment>)  // `str(segments)` appended to a log
    | Unlink(path: FilePath)                          // `path.unlink()`
    | MakeDir(dir: string)                            // `Path(dir).mkdir()`
    | RemoveTree(dir: string)                         // `shutil.rmtree(dir)`
    | ClearDir(dir: string)                           // unlink or rmtree every entry of `dir`
    | Emit(value: int, maximum: int, text: string)    // a progress event to the GUI

  class Host {
    /** The resolved ffmpeg executable (`FFMPEG_BIN`). */
    const ffmpegBin: string
    /** Exit status and output of each command line. */
    const status: seq<string> -> RunStatus
    /** Every action taken, in order. */
    var trace: seq<Op>
    /** The files whose existence or contents the code inspects. */
    var files: map<FilePath, Content>

    constructor (bin: string, status: seq<string> -> RunStatus, files: map<FilePath, Content>)
      ensures ffmpegBin == bin && this.status == status
      ensures trace == [] && this.files == files
    {
      ffmpegBin := bin;
      this.status := status;
      trace := [];
      this.files := files;
    }
  }
}
