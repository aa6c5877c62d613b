# vscode-tree-sitter, modelled in Dafny

The extension keeps a tree-sitter syntax tree for the active document and shows it in a
side view. Two parts of it are decision logic that can be stated exactly:

- **Edit translation** (`FileTree`): every content change the editor reports becomes one
  tree-sitter edit record, recorded on the current tree in the order of the batch. Then the
  document's full text is parsed once, reusing the edited tree.
- **Grammar acquisition** (`Installer`, `extension`, `TreeViewer`): a language id resolves
  to an npm package, a parser name and an optional subdirectory, or to nothing when the id is
  ignored. The grammar's `.wasm` artifact lives at `<parsersDir>/<package>/<parser>.wasm`. When
  it is missing, the package is packed with npm, extracted and built with the tree-sitter CLI,
  stage by stage, stopping at the first failure. The artifact is then loaded.

The model is functional. Tree-sitter's `parse` and `tree.edit` stay abstract: a `Tree` is the
term that records the calls that made it (`Parse(language, text, oldTree)` and
`Edited(tree, edit)`). The file system, child processes, tar and `Language.load` are a `Host`
of oracles. Every acquisition operation returns `Run(value, effects)`, where `effects` is the
ordered log of the actions it asked the host to perform (make a directory, run a command,
extract an archive, load a wasm file, remove a directory). Statements such as "no load is
attempted" or "the build is not attempted" are therefore statements about that log.

Files: `wrappers.dfy` (Option), `host.dfy` (host oracles and effects), `positions.dfy`
(positions, points, the offset→position map), `file_tree.dfy`, `installer.dfy`,
`extension.dfy` and `tree_viewer.dfy`.

Behaviour of the code worth knowing before reading the contracts:

- A language without configuration gets its package name (`tree-sitter-<id>`) as its parser
  name (src/extension.ts:29), so its artifact is `tree-sitter-<id>.wasm`.
- The newer `getLanguage` judges readiness by the artifact file. The older `TreeViewer`
  variant judges it by the parser directory. Both are modelled as written, and
  `TreeViewer.DirectoryReadinessSkipsMissingArtifact` states where they part ways.
- Nothing in the code makes acquisition single-flight, so the model does not either.

The code has three inconsistencies. The second is modelled as written. For the first and the
third, the model takes the evident intent of the call and says so under "## Left out":

- `TreeViewer.getLanguage` calls `downloadParser` with an older argument order
  (src/TreeViewer.ts:31-37 against src/Installer.ts:38-45). Its outcome is an input bool.
  As written, that call passes the string `"npm"` as the `onData` listener, and `runCmd`
  registers it on the process streams (src/Installer.ts:108-111). Node refuses a listener
  that is not a function, so the call would reject rather than resolve `false`, and the
  directory removal at src/TreeViewer.ts:43 would not be reached. The model instead takes the
  download's outcome as an input and shows what the function does once the download reports it.
- It does not await `loadParser`, so its "failed to load" branch (src/TreeViewer.ts:49-52)
  never fires. Its result is what the load yields.
- `extension.ts` calls `getWasmBindingsPath` (src/extension.ts:56), which `Installer.ts` does not
  export (src/Installer.ts:12). As written this does not compile, and at run time the call
  would throw, so `getLanguage` would reject for every id that is not ignored. The model
  calls the function as if it were exported.

## Model

| member | source | states |
|---|---|---|
| Positions.PositionToPoint | src/FileTree.ts:6-11 | a point's row is the position's line and its column is the position's character |
| Positions.PositionPointRoundTrip | src/FileTree.ts:6-11 | position→point conversion is a bijection: converting back gives the original, both ways |
| Positions.AdvanceIsScanEnd | src/FileTree.ts:43 | reading text character by character ends where a newline scan puts it: same line and column + length when there is no line feed, otherwise line + number of line feeds and column = characters after the last one |
| Positions.PositionAfterInsertion | src/FileTree.ts:43 | the position of the end of inserted text is the insertion's start position advanced by a newline scan of the inserted text, whatever follows it |
| FileTrees.OpenFile | src/FileTree.ts:17-33 | the parser gets the given language, and the tree is one full parse of the whole initial text with that language and no old tree |
| FileTrees.EditFor | src/FileTree.ts:37-52 | an edit starts at the change offset; the old span has the replaced length and the new span has the new text's length, so both ends are at or after the start; start and old-end points are the change range's ends, and the new-end point is the document's position of the new end offset |
| FileTrees.NewEndPointOfSingleChange | src/FileTree.ts:39-43 | for a single change applied to the old text, the new-end point read from the new document equals a newline scan of the replacement text from the change's start |
| FileTrees.OpenThenUpdate | src/FileTree.ts:28-56 | opening a document and applying one change event gives two parses in all; the second parses the new text and reuses the opening parse with exactly the event's edits pending, in order |
| FileTrees.ApplyEditsRecords | src/FileTree.ts:45-52 | recording edits on a tree appends them, in order, to its pending edits, keeps the parse they apply to, and adds no parse |
| FileTrees.Update | src/FileTree.ts:35-56 | one edit per content change, in batch order, none skipped; then exactly one more parse, of the document's full text with the same language, whose old tree is the previous tree with exactly those edits pending |
| Installer.ParserDir | src/Installer.ts:8-10 | for a package name without `/`, the parser directory sits directly inside the parsers directory and is named after the package |
| Installer.WasmBindingsPath | src/Installer.ts:12-17 | for a file name without `/`, the artifact sits directly inside the package's parser directory; its file name is the parser name, or the package name when there is none, plus `.wasm` |
| Installer.WasmBindingsPathInjective | src/Installer.ts:12-17 | within one parsers directory, two grammars whose package and file names contain no `/` and that share an artifact path have the same package and the same parser file name |
| Installer.LoadParser | src/Installer.ts:19-36 | a missing artifact yields no language and no load attempt; a present artifact is loaded exactly once, and a load that throws yields no language |
| Installer.RunCmd | src/Installer.ts:100-106 | the command result is an error exactly when exec reported one, and otherwise carries stdout |
| Installer.DownloadParser | src/Installer.ts:38-91 | the actions are a prefix of mkdir, `npm pack --verbose --json --pack-destination <dir> <pkg>`, extract with strip 1, `<cli> build-wasm <subdirectory or empty>`; a failed pack stops after the pack and a failed extraction stops before the build; once pack and extraction succeed the build command always runs, whatever its outcome; the result is true iff pack, extraction and build all succeed |
| Installer.DownloadSucceedsIffNoExecErrors | src/Installer.ts:49-90 | a download reports success exactly when neither the pack nor the build process reported an exec error and the extraction did not throw |
| Installer.LoadParserDefaultName | src/Installer.ts:15 | loading with no parser name is the same action, with the same result, as loading with the package name as parser name |
| Installer.DownloadStopsAtFirstFailure | src/Installer.ts:56-90 | success needs all four actions; an extraction only follows a successful pack, and a build only follows a successful extraction |
| Extension.LanguageSetting | src/extension.ts:24-26 | a language-scoped setting is present exactly when the language's section has the `vscode-tree-sitter.`-prefixed key, and then it is that value |
| Extension.GetLanguageIdOverride | src/extension.ts:23-37 | each configured value wins; the package defaults to `tree-sitter-<languageId>`, the parser name to the chosen package, and the subdirectory to none |
| Extension.DefaultPackageNamesAreDistinct | src/extension.ts:28 | unconfigured languages with the same default package are the same language |
| Extension.ResolveExamples | src/extension.ts:28-30 | `rust` resolves to `tree-sitter-rust`; a `typescriptreact` configured with the typescript package, the `tsx` subdirectory and the `tree-sitter-tsx` parser resolves to exactly that; an ignored id is ignored despite its configuration |
| Extension.GetIgnoredLanguageIds | src/extension.ts:39-45 | the ignore list is the configured one, or empty when the setting is undefined or null |
| Extension.GetLanguage | src/extension.ts:47-94 | an ignored id yields nothing and performs no action; otherwise the log begins with every action of `downloadParser` for the grammar iff the artifact file is missing; with the artifact present no command runs; the actions of a download are exactly those of `downloadParser` for the configured package and subdirectory with the `npm` and `tree-sitter` commands; a failed download yields nothing and performs nothing after it (no cleanup); a successful one is followed by exactly `loadParser`'s actions; only the resolved artifact is loaded; with the artifact present the result is exactly that load's value, and after a successful download it is that load's value when the artifact was built and nothing otherwise |
| Extension.GetLanguageFollowsResolution | src/extension.ts:47-94 | the lookup agrees with the resolution order (ignore list, then configured or default grammar): ignored gives nothing, a resolved grammar gives only the load of its own artifact, and a failed download gives nothing and loads nothing |
| Extension.IgnoredIffListed | src/extension.ts:39-51 | a language id is ignored exactly when the ignore setting is set (not undefined or null) and lists it |
| Extension.GetLanguageLoadsPresentArtifact | src/extension.ts:61-93 | with the artifact already present and the id not ignored, the lookup is exactly `loadParser` of the configured package and parser name: same value, same single load |
| TreeViewer.OverrideFor | src/TreeViewer.ts:14 | an override-map miss (or no map) gives the language id itself and no parser name; a hit gives the mapped pair |
| TreeViewer.PackageFor | src/TreeViewer.ts:16 | the package is always `tree-sitter-` followed by the overridden id: an override replaces the id, never the prefix |
| TreeViewer.GetLanguage | src/TreeViewer.ts:9-55 | a download happens iff the parser directory is missing; with the directory present the lookup is exactly `loadParser` (same actions, same value); a failed download is followed only by removing that directory and yields nothing; a reported download is followed by exactly `loadParser`'s actions; only the artifact named by the override's parser name is loaded; no command runs directly |
| TreeViewer.GetLanguageOutcome | src/TreeViewer.ts:22-54 | with the directory present, or after a reported download, the result is the artifact's load when the artifact exists and nothing otherwise; after a failed download the result is nothing, nothing is loaded, and the directory removal is the last action |
| TreeViewer.DirectoryReadinessSkipsMissingArtifact | src/TreeViewer.ts:22 | with a parser directory present but its artifact missing, this lookup yields nothing and performs no action, while the extension's lookup of the same grammar begins with every action of its download |
| TreeViewer.ViewFileTree | src/TreeViewer.ts:71-79 | without a language the view's file tree is unchanged; with one it becomes a fresh single parse of the document's text with the loaded language |
| TreeViewer.ViewedContent | src/TreeViewer.ts:71-79 | after a view update with no language resolved the view shows what it showed before (the notice when it had no tree); when a language resolved it shows the rendering of a fresh parse of the document, with each space before `(` turned into a line feed |
| TreeViewer.BreakBeforeParensPointwise | src/TreeViewer.ts:122 | the global replacement keeps the length, turns exactly the spaces before `(` into line feeds, and leaves no space before `(` |
| TreeViewer.ProvideTextDocumentContent | src/TreeViewer.ts:121-123 | with no file tree the view shows "Syntax tree not available"; otherwise it shows the rendered tree with each space before `(` turned into a line feed and every other character kept |

## Left out

- Tree-sitter itself (parsing, tree editing, node structure, `rootNode.toString`) is foreign. Trees are terms that record the calls made, and the rendering of a tree is a parameter.
- Positions.PositionAt: treats only `\n` as a line break. The editor also breaks lines at `\r\n` and `\r`. Offsets and lengths count sequence elements (UTF-16 units in the source), not bytes.
- VS Code wiring is not modelled: event subscriptions, the active-editor guards, `withProgress`, error messages, command registration, `activate`, `deactivate` and disposal (src/TreeViewer.ts:81-119, src/extension.ts:96-130). Nor is the `eventEmitter.fire` after a view update.
- Waiting for `Parser.init` (src/extension.ts:12-16, 53) is a suspension point with no decision in it.
- Real I/O is replaced by `Host` oracles: `exec`, npm, tar, `mkdir`, `rmSync`, `existsSync` and `Language.load`. The files present after a successful download are an input (`Host.installed`).
- Installer.DownloadParser: the archive name from `JSON.parse` of npm's output is an oracle. The case where that parse or the `[0]` index throws, rejecting the download, is not modelled. Neither is a throwing `mkdir`.
- Installer.ParserDir, Installer.WasmBindingsPath, Installer.WasmBindingsPathInjective: the placement and injectivity properties are stated only for names without `/`. A scoped package (`@scope/name`) or a parser name with `/` nests the path deeper, and then two grammars can share an artifact path (package `a/b` with no parser name and package `a` with parser name `b/a/b` both give `<dir>/a/b/a/b.wasm`).
- Installer.ParserDir: `path.join` and `path.resolve` are modelled as concatenation with `/`. Normalisation (`..`, duplicate separators, making a path absolute) is not modelled.
- Progress streaming (`onData` on stdout/stderr and tar entries, the progress counter) and the debug `console.log` calls (src/Installer.ts:31-32, 58-59) are left out. They only drive the display and the console.
- TreeViewer.GetLanguage: the download's success is an input, because the call binds its arguments to an older `downloadParser` signature. As written the call would reject after creating the directory, since `"npm"` lands in the `onData` slot and is registered as a stream listener; the model does not show that rejection.
- Extension.GetLanguage: the unexported `getWasmBindingsPath` call (src/extension.ts:56) is modelled as if the function were exported. As written, every lookup of an id that is not ignored would reject there.
- Single-flight acquisition and the batch-ordering semantics of change events are not modelled. No code here implements the first, and the second belongs to the editor.
- The test files are not modelled. They need the network, npm and native parsers.
