/** The environment the extension runs in, seen from the core: the file system, child
    processes, the tar extractor and the web-tree-sitter loader. None of them is modelled;
    each is an oracle that says what it answers, and every operation of the core returns
    the log of the actions it asked the environment to perform. */
module Host {
  import opened Wrappers

  /** An opaque handle to a loaded grammar (web-tree-sitter's `Language`). */
  datatype Language = Language(handle: nat)

  /** The error a child process reports through `exec`'s callback. */
  datatype ExecError = ExecError(message: string)

  /** The three arguments `exec` hands its callback: `(err, stdout, stderr)`. */
  datatype ExecOutcome = ExecOutcome(error: Option<ExecError>, stdout: string, stderr: string)

  /** An action the core asks the environment to perform. Existence checks are
      queries, not actions, and do not appear here. */
  datatype Effect =
    | MakeDirectory(path: string)                        // mkdir(path, { recursive: true })
    | RunCommand(command: string, cwd: Option<string>)   // exec(command, { cwd })
    | ExtractArchive(archive: string, into: string, strip: nat)  // tar.extract({ file, cwd, strip })
    | LoadWasm(path: string)                             // Language.load(path)
    | RemoveDirectory(path: string)                      // rmSync(path, { recursive, force })
    | LegacyDownload(parsersDir: string, npmPackageName: string)  // the older downloadParser call

  /** What the environment answers.
      - `files`: the paths that exist when the operation starts;
      - `exec`: what the process reports for a command run in a working directory;
      - `packedFilename`: the `filename` of the first entry of `npm pack --json`'s output;
      - `extracts`: whether extracting the archive into the directory completes without throwing;
      - `installed`: the paths that exist after a download that reported success;
      - `load`: what `Language.load` yields for a path, `None` when it throws. */
  datatype Host = Host(
    files: set<string>,
    exec: (string, Option<string>) -> ExecOutcome,
    packedFilename: string -> string,
    extracts: (string, string) -> bool,
    installed: set<string>,
    load: string -> Option<Language>)

  /** A value computed by the core together with the actions performed to compute it, in order. */
  datatype Run<+T> = Run(value: T, effects: seq<Effect>)

  predicate Loads(effects: seq<Effect>)
  {
    exists i :: 0 <= i < |effects| && effects[i].LoadWasm?
  }

  predicate RunsCommands(effects: seq<Effect>)
  {
    exists i :: 0 <= i < |effects| && effects[i].RunCommand?
  }
}
