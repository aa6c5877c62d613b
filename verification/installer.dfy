/** `Installer`: where a grammar's files live under the parsers directory, how a grammar
    package is fetched, extracted and built into a `.wasm` artifact, and how that artifact
    is loaded. Paths are joined with `/`; `path.resolve` normalisation is not modelled. */
module Installer {
  import opened Wrappers
  import opened Host

  const Separator: char := '/'

  /** `path.join` of a directory and one more component. */
  function Join(dir: string, name: string): string
  {
    dir + [Separator] + name
  }

  /** The index of the last separator of a path, if it has one. */
  function LastSeparator(path: string): (r: Option<nat>)
    ensures r.Some? ==> r.value < |path| && path[r.value] == Separator
    ensures r.Some? ==> forall j :: r.value < j < |path| ==> path[j] != Separator
    ensures r.None? ==> Separator !in path
    decreases |path|
  {
    if |path| == 0 then None
    else if path[|path| - 1] == Separator then Some(|path| - 1)
    else LastSeparator(path[..|path| - 1])
  }

  /** The directory part of a path: everything before its last separator. */
  function DirName(path: string): string
  {
    match LastSeparator(path)
    case Some(i) => path[..i]
    case None => ""
  }

  /** The file part of a path: everything after its last separator. */
  function BaseName(path: string): string
  {
    match LastSeparator(path)
    case Some(i) => path[i + 1..]
    case None => path
  }

  /** Joining a name without separators can be undone: the directory and the name come back. */
  lemma SplitJoin(dir: string, name: string)
    ensures Separator !in name ==> DirName(Join(dir, name)) == dir && BaseName(Join(dir, name)) == name
  {
    if Separator !in name {
      var p := Join(dir, name);
      assert p[|dir|] == Separator;
      assert forall j :: |dir| < j < |p| ==> p[j] == name[j - |dir| - 1];
      assert LastSeparator(p) == Some(|dir|);
      assert p[..|dir|] == dir;
      assert p[|dir| + 1..] == name;
    }
  }

  /** `getParserDir`: the directory a package is unpacked into, named after the package,
      directly inside the parsers directory. */
  function ParserDir(parsersDir: string, npmPackageName: string): (dir: string)
    ensures Separator !in npmPackageName ==>
              DirName(dir) == parsersDir && BaseName(dir) == npmPackageName
  {
    SplitJoin(parsersDir, npmPackageName);
    Join(parsersDir, npmPackageName)
  }

  /** The file name of a built grammar: the parser name, or the package name when there is
      none, with the `.wasm` extension. */
  function WasmFileName(npmPackageName: string, parserName: Option<string>): string
  {
    parserName.GetOr(npmPackageName) + ".wasm"
  }

  /** `getWasmBindingsPath`: the artifact sits directly inside the package's parser
      directory, under its `.wasm` file name. */
  function WasmBindingsPath(parsersDir: string, npmPackageName: string, parserName: Option<string>): (path: string)
    ensures Separator !in WasmFileName(npmPackageName, parserName) ==>
              DirName(path) == ParserDir(parsersDir, npmPackageName)
              && BaseName(path) == WasmFileName(npmPackageName, parserName)
    ensures |path| > |parsersDir| + |npmPackageName| + 5
    ensures path[..|parsersDir|] == parsersDir
  {
    var dir := ParserDir(parsersDir, npmPackageName);
    SplitJoin(dir, WasmFileName(npmPackageName, parserName));
    Join(dir, WasmFileName(npmPackageName, parserName))
  }

  /** Within one parsers directory, distinct grammars (package names and file names free of
      separators) never share an artifact path. */
  lemma WasmBindingsPathInjective(parsersDir: string, pkg1: string, name1: Option<string>, pkg2: string, name2: Option<string>)
    requires Separator !in pkg1 && Separator !in pkg2
    requires Separator !in WasmFileName(pkg1, name1) && Separator !in WasmFileName(pkg2, name2)
    requires WasmBindingsPath(parsersDir, pkg1, name1) == WasmBindingsPath(parsersDir, pkg2, name2)
    ensures pkg1 == pkg2
    ensures name1.GetOr(pkg1) == name2.GetOr(pkg2)
  {
    var f1, f2 := WasmFileName(pkg1, name1), WasmFileName(pkg2, name2);
    assert f1 == f2;
    assert name1.GetOr(pkg1) == f1[..|f1| - 5];
    assert name2.GetOr(pkg2) == f2[..|f2| - 5];
    assert ParserDir(parsersDir, pkg1) == ParserDir(parsersDir, pkg2);
  }

  /** `loadParser`: nothing is loaded when the artifact is missing; otherwise the artifact
      is loaded, and a load that throws yields no language instead of an exception. */
  function LoadParser(files: set<string>, load: string -> Option<Language>,
                      parsersDir: string, npmPackageName: string, parserName: Option<string>): (r: Run<Option<Language>>)
    ensures WasmBindingsPath(parsersDir, npmPackageName, parserName) !in files ==>
              r.value.None? && r.effects == []
    ensures WasmBindingsPath(parsersDir, npmPackageName, parserName) in files ==>
              r.effects == [LoadWasm(WasmBindingsPath(parsersDir, npmPackageName, parserName))]
              && r.value == load(WasmBindingsPath(parsersDir, npmPackageName, parserName))
  {
    var wasmPath := WasmBindingsPath(parsersDir, npmPackageName, parserName);
    if wasmPath !in files then Run(None, [])
    else Run(load(wasmPath), [LoadWasm(wasmPath)])
  }

  /** The value `runCmd` resolves to. */
  datatype CmdResult = Ok(stdout: string) | Err(error: ExecError)

  /** `runCmd`'s mapping of `exec`'s callback: an error when the process reported one,
      otherwise its standard output. */
  function RunCmd(outcome: ExecOutcome): (r: CmdResult)
    ensures r.Err? <==> outcome.error.Some?
    ensures r.Err? ==> r.error == outcome.error.value
    ensures r.Ok? ==> r.stdout == outcome.stdout
  {
    match outcome.error
    case Some(err) => Err(err)
    case None => Ok(outcome.stdout)
  }

  /** `downloadParser`'s default commands. */
  const DefaultNpm: string := "npm"
  const DefaultTreeSitterCli: string := "tree-sitter"

  function PackCommand(npm: string, parserDir: string, npmPackageName: string): string
  {
    npm + " pack --verbose --json --pack-destination " + parserDir + " " + npmPackageName
  }

  function BuildCommand(treeSitterCli: string, subdirectory: Option<string>): string
  {
    treeSitterCli + " build-wasm " + subdirectory.GetOr("")
  }

  /** The outcome of packing the package into its parser directory. */
  function Pack(host: Host, parsersDir: string, npmPackageName: string, npm: string): CmdResult
  {
    RunCmd(host.exec(PackCommand(npm, ParserDir(parsersDir, npmPackageName), npmPackageName), None))
  }

  /** The archive npm packed, in the parser directory. */
  function Archive(host: Host, parsersDir: string, npmPackageName: string, npm: string): string
  {
    var dir := ParserDir(parsersDir, npmPackageName);
    Join(dir, host.packedFilename(host.exec(PackCommand(npm, dir, npmPackageName), None).stdout))
  }

  /** The outcome of building the grammar inside the parser directory. */
  function Build(host: Host, parsersDir: string, npmPackageName: string, subdirectory: Option<string>, treeSitterCli: string): CmdResult
  {
    RunCmd(host.exec(BuildCommand(treeSitterCli, subdirectory), Some(ParserDir(parsersDir, npmPackageName))))
  }

  /** Every action of a download that gets through all its stages, in order: make the
      parser directory, pack the package into it, extract the archive over it (dropping the
      archive's top directory), build the grammar in it. */
  function Pipeline(host: Host, parsersDir: string, npmPackageName: string, subdirectory: Option<string>,
                    npm: string, treeSitterCli: string): (steps: seq<Effect>)
  {
    var dir := ParserDir(parsersDir, npmPackageName);
    [ MakeDirectory(dir),
      RunCommand(PackCommand(npm, dir, npmPackageName), None),
      ExtractArchive(Archive(host, parsersDir, npmPackageName, npm), dir, 1),
      RunCommand(BuildCommand(treeSitterCli, subdirectory), Some(dir)) ]
  }

  /** `downloadParser`: pack, then extract, then build, each stage only after the previous
      one succeeded; true exactly when the build succeeded. */
  function DownloadParser(host: Host, parsersDir: string, npmPackageName: string, subdirectory: Option<string>,
                          npm: string, treeSitterCli: string): (r: Run<bool>)
    ensures 2 <= |r.effects| <= 4
    ensures r.effects == Pipeline(host, parsersDir, npmPackageName, subdirectory, npm, treeSitterCli)[..|r.effects|]
    ensures Pack(host, parsersDir, npmPackageName, npm).Err? ==> !r.value && |r.effects| == 2
    ensures (Pack(host, parsersDir, npmPackageName, npm).Ok?
             && !host.extracts(Archive(host, parsersDir, npmPackageName, npm), ParserDir(parsersDir, npmPackageName)))
            ==> !r.value && |r.effects| == 3
    ensures (Pack(host, parsersDir, npmPackageName, npm).Ok?
             && host.extracts(Archive(host, parsersDir, npmPackageName, npm), ParserDir(parsersDir, npmPackageName)))
            ==> |r.effects| == 4
    ensures r.value <==>
              && Pack(host, parsersDir, npmPackageName, npm).Ok?
              && host.extracts(Archive(host, parsersDir, npmPackageName, npm), ParserDir(parsersDir, npmPackageName))
              && Build(host, parsersDir, npmPackageName, subdirectory, treeSitterCli).Ok?
  {
    var dir := ParserDir(parsersDir, npmPackageName);
    var steps := Pipeline(host, parsersDir, npmPackageName, subdirectory, npm, treeSitterCli);
    match RunCmd(host.exec(PackCommand(npm, dir, npmPackageName), None))
    case Err(_) => Run(false, steps[..2])
    case Ok(stdout) =>
      var archive := Join(dir, host.packedFilename(stdout));
      if !host.extracts(archive, dir) then Run(false, steps[..3])
      else
        match RunCmd(host.exec(BuildCommand(treeSitterCli, subdirectory), Some(dir)))
        case Err(_) => Run(false, steps)
        case Ok(_) => Run(true, steps)
  }

  /** A download never builds unless it extracted, and never extracts unless it packed:
      the stages it reached are a prefix of the pipeline, and it reports success only after
      all four actions. */
  lemma DownloadStopsAtFirstFailure(host: Host, parsersDir: string, npmPackageName: string, subdirectory: Option<string>,
                                   npm: string, treeSitterCli: string)
    ensures var r := DownloadParser(host, parsersDir, npmPackageName, subdirectory, npm, treeSitterCli);
            && (r.value ==> |r.effects| == 4)
            && (forall i :: 0 <= i < |r.effects| && r.effects[i].ExtractArchive? ==>
                  r.effects[i - 1] == RunCommand(PackCommand(npm, ParserDir(parsersDir, npmPackageName), npmPackageName), None)
                  && Pack(host, parsersDir, npmPackageName, npm).Ok?)
            && (|r.effects| == 4 ==>
                  r.effects[3] == RunCommand(BuildCommand(treeSitterCli, subdirectory), Some(ParserDir(parsersDir, npmPackageName)))
                  && host.extracts(Archive(host, parsersDir, npmPackageName, npm), ParserDir(parsersDir, npmPackageName)))
  {
  }

  /** With no parser name the package's own name is used, so loading without a parser name
      and loading with the package name as parser name are the same call. */
  lemma LoadParserDefaultName(files: set<string>, load: string -> Option<Language>, parsersDir: string, npmPackageName: string)
    ensures LoadParser(files, load, parsersDir, npmPackageName, None)
         == LoadParser(files, load, parsersDir, npmPackageName, Some(npmPackageName))
  {
  }

  /** A download succeeds exactly when neither process reported an error through `exec`'s
      callback and the extraction did not throw. */
  lemma DownloadSucceedsIffNoExecErrors(host: Host, parsersDir: string, npmPackageName: string, subdirectory: Option<string>,
                                        npm: string, treeSitterCli: string)
    ensures var dir := ParserDir(parsersDir, npmPackageName);
            DownloadParser(host, parsersDir, npmPackageName, subdirectory, npm, treeSitterCli).value <==>
              && host.exec(PackCommand(npm, dir, npmPackageName), None).error.None?
              && host.extracts(Archive(host, parsersDir, npmPackageName, npm), dir)
              && host.exec(BuildCommand(treeSitterCli, subdirectory), Some(dir)).error.None?
  {
  }
}
