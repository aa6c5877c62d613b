/** `TreeViewer`: the older language lookup driven by an override map, the view's current
    file tree, and the text the tree view shows. */
module TreeViewer {
  import opened Wrappers
  import opened Host
  import opened FileTrees
  import Installer
  import Extension

  /** `languageIdOverrides`: for a language id, the id whose grammar to use and, optionally,
      the name of the parser to load from its package. */
  type Overrides = Option<map<string, (string, Option<string>)>>

  /** The override for a language id; without one, the id itself and no parser name. */
  function OverrideFor(overrides: Overrides, languageId: string): (r: (string, Option<string>))
    ensures (overrides.None? || languageId !in overrides.value) ==> r == (languageId, None)
    ensures (overrides.Some? && languageId in overrides.value) ==> r == overrides.value[languageId]
  {
    if overrides.Some? && languageId in overrides.value then overrides.value[languageId]
    else (languageId, None)
  }

  /** The npm package of a language id: an override replaces the id, never the prefix. */
  function PackageFor(overrides: Overrides, languageId: string): (pkg: string)
    ensures |pkg| >= |Extension.PackagePrefix|
    ensures pkg[..|Extension.PackagePrefix|] == Extension.PackagePrefix
    ensures pkg[|Extension.PackagePrefix|..] == OverrideFor(overrides, languageId).0
  {
    Extension.PackagePrefix + OverrideFor(overrides, languageId).0
  }

  /** The artifact `getLanguage` loads for a language id. */
  function ArtifactFor(parsersDir: string, overrides: Overrides, languageId: string): string
  {
    Installer.WasmBindingsPath(parsersDir, PackageFor(overrides, languageId), OverrideFor(overrides, languageId).1)
  }

  /** The parser directory `getLanguage` checks for a language id. */
  function ParserDirFor(parsersDir: string, overrides: Overrides, languageId: string): string
  {
    Installer.ParserDir(parsersDir, PackageFor(overrides, languageId))
  }

  /** The `loadParser` call `getLanguage` makes for a language id, against the given files. */
  function LoadFor(files: set<string>, host: Host, parsersDir: string, overrides: Overrides, languageId: string): Run<Option<Language>>
  {
    Installer.LoadParser(files, host.load, parsersDir, PackageFor(overrides, languageId), OverrideFor(overrides, languageId).1)
  }

  /** The older `getLanguage`. The grammar is downloaded when, and only when, its parser
      directory is missing; the download's success is `downloaded`, since the call binds
      its arguments to an older signature of the installer. A failed download removes the
      parser directory and yields nothing. Then the override's parser name is loaded from
      the package, and the language is what that load yields: the load is not awaited, so
      its failure check never fires and a failed load yields nothing through the load itself. */
  function GetLanguage(host: Host, parsersDir: string, languageId: string, overrides: Overrides, downloaded: bool): (r: Run<Option<Language>>)
    ensures (|r.effects| > 0 && r.effects[0] == LegacyDownload(parsersDir, PackageFor(overrides, languageId))) <==>
            ParserDirFor(parsersDir, overrides, languageId) !in host.files
    ensures forall i :: 0 <= i < |r.effects| && r.effects[i].LoadWasm? ==>
              r.effects[i].path == ArtifactFor(parsersDir, overrides, languageId)
    ensures r.value.Some? ==> Loads(r.effects) && r.value == host.load(ArtifactFor(parsersDir, overrides, languageId))
    ensures !RunsCommands(r.effects)
    ensures ParserDirFor(parsersDir, overrides, languageId) in host.files ==>
              r == LoadFor(host.files, host, parsersDir, overrides, languageId)
    ensures ParserDirFor(parsersDir, overrides, languageId) !in host.files && downloaded ==>
              r.effects == [LegacyDownload(parsersDir, PackageFor(overrides, languageId))]
                           + LoadFor(host.installed, host, parsersDir, overrides, languageId).effects
    ensures ParserDirFor(parsersDir, overrides, languageId) !in host.files && !downloaded ==>
              r == Run(None, [LegacyDownload(parsersDir, PackageFor(overrides, languageId)),
                              RemoveDirectory(ParserDirFor(parsersDir, overrides, languageId))])
  {
    var parserName := PackageFor(overrides, languageId);
    var parserDir := ParserDirFor(parsersDir, overrides, languageId);
    if parserDir !in host.files then
      if !downloaded then
        Run(None, [LegacyDownload(parsersDir, parserName), RemoveDirectory(parserDir)])
      else
        var loaded := LoadFor(host.installed, host, parsersDir, overrides, languageId);
        var effects := [LegacyDownload(parsersDir, parserName)] + loaded.effects;
        assert loaded.effects != [] ==> effects[1] == loaded.effects[0];
        Run(loaded.value, effects)
    else
      LoadFor(host.files, host, parsersDir, overrides, languageId)
  }

  /** What the older `getLanguage` yields: with the parser directory present, or after a
      reported download, the artifact's load when the artifact exists and nothing otherwise;
      after a failed download, nothing, with no load and the directory removed last. */
  lemma GetLanguageOutcome(host: Host, parsersDir: string, languageId: string, overrides: Overrides, downloaded: bool)
    ensures var r := GetLanguage(host, parsersDir, languageId, overrides, downloaded);
            ParserDirFor(parsersDir, overrides, languageId) in host.files ==>
              r.value == (if ArtifactFor(parsersDir, overrides, languageId) in host.files
                          then host.load(ArtifactFor(parsersDir, overrides, languageId)) else None)
    ensures var r := GetLanguage(host, parsersDir, languageId, overrides, downloaded);
            ParserDirFor(parsersDir, overrides, languageId) !in host.files && downloaded ==>
              r.value == (if ArtifactFor(parsersDir, overrides, languageId) in host.installed
                          then host.load(ArtifactFor(parsersDir, overrides, languageId)) else None)
    ensures var r := GetLanguage(host, parsersDir, languageId, overrides, downloaded);
            ParserDirFor(parsersDir, overrides, languageId) !in host.files && !downloaded ==>
              r.value.None? && !Loads(r.effects)
              && r.effects[|r.effects| - 1] == RemoveDirectory(ParserDirFor(parsersDir, overrides, languageId))
  {
  }

  /** Readiness judged by the directory, not the artifact: when a parser directory exists
      without its artifact (left behind by an interrupted acquisition), this lookup neither
      downloads nor loads and yields nothing, where the extension's lookup of the same
      grammar downloads it again. */
  lemma DirectoryReadinessSkipsMissingArtifact(config: Extension.Configuration, host: Host, parsersDir: string,
                                              languageId: string, downloaded: bool)
    requires config.ignoredLanguageIds.None? && languageId !in config.languageScoped
    requires Installer.ParserDir(parsersDir, Extension.PackagePrefix + languageId) in host.files
    requires Installer.WasmBindingsPath(parsersDir, Extension.PackagePrefix + languageId, None) !in host.files
    ensures GetLanguage(host, parsersDir, languageId, None, downloaded) == Run(None, [])
    ensures Extension.Downloads(Extension.GetLanguage(config, host, parsersDir, languageId).effects,
                                Extension.DownloadFor(config, host, parsersDir, languageId))
  {
  }

  /** The language `getLanguage` yields for a document; a loaded one is its artifact's load. */
  function LanguageOf(host: Host, parsersDir: string, overrides: Overrides, document: Document, downloaded: bool): (l: Option<Language>)
    ensures l.Some? ==> l == host.load(ArtifactFor(parsersDir, overrides, document.languageId))
  {
    GetLanguage(host, parsersDir, document.languageId, overrides, downloaded).value
  }

  /** `viewFileTree`: without a language the view keeps its file tree; with one, the file
      tree becomes a fresh parse of the whole document with that language. */
  function ViewFileTree(current: Option<FileTree>, host: Host, parsersDir: string, overrides: Overrides,
                        document: Document, downloaded: bool): (r: Option<FileTree>)
    ensures LanguageOf(host, parsersDir, overrides, document, downloaded).None? ==> r == current
    ensures LanguageOf(host, parsersDir, overrides, document, downloaded).Some? ==>
              r.Some?
              && r.value.tree == Parse(r.value.parser.language, document.text, None)
              && Some(r.value.parser.language) == host.load(ArtifactFor(parsersDir, overrides, document.languageId))
  {
    match LanguageOf(host, parsersDir, overrides, document, downloaded)
    case None => current
    case Some(language) => Some(OpenFile(language, document.text))
  }

  /** Whether a space followed by an opening parenthesis starts at index `i`. */
  predicate SpaceParenAt(s: string, i: nat)
  {
    i + 1 < |s| && s[i] == ' ' && s[i + 1] == '('
  }

  /** `replace(/ \(/g, "\n(")`: every space before an opening parenthesis, scanning from the
      left, becomes a line feed. */
  function BreakBeforeParens(s: string): string
    decreases |s|
  {
    if |s| == 0 then s
    else if SpaceParenAt(s, 0) then "\n(" + BreakBeforeParens(s[2..])
    else [s[0]] + BreakBeforeParens(s[1..])
  }

  /** The replacement changes exactly the spaces that precede an opening parenthesis, into
      line feeds, and leaves no space before a parenthesis behind. */
  lemma {:induction false} BreakBeforeParensPointwise(s: string)
    ensures |BreakBeforeParens(s)| == |s|
    ensures forall i :: 0 <= i < |s| ==>
              BreakBeforeParens(s)[i] == (if SpaceParenAt(s, i) then '\n' else s[i])
    ensures forall i :: 0 <= i < |s| ==> !SpaceParenAt(BreakBeforeParens(s), i)
    decreases |s|
  {
    if |s| == 0 {
    } else if SpaceParenAt(s, 0) {
      var rest := s[2..];
      BreakBeforeParensPointwise(rest);
      var r := BreakBeforeParens(s);
      assert r == "\n(" + BreakBeforeParens(rest);
      forall i | 0 <= i < |s|
        ensures r[i] == (if SpaceParenAt(s, i) then '\n' else s[i])
        ensures !SpaceParenAt(r, i)
      {
        if i >= 2 {
          assert SpaceParenAt(s, i) == SpaceParenAt(rest, i - 2);
          assert SpaceParenAt(r, i) == SpaceParenAt(BreakBeforeParens(rest), i - 2);
        }
      }
    } else {
      var rest := s[1..];
      BreakBeforeParensPointwise(rest);
      var r := BreakBeforeParens(s);
      assert r == [s[0]] + BreakBeforeParens(rest);
      forall i | 0 <= i < |s|
        ensures r[i] == (if SpaceParenAt(s, i) then '\n' else s[i])
        ensures !SpaceParenAt(r, i)
      {
        if i >= 1 {
          assert SpaceParenAt(s, i) == SpaceParenAt(rest, i - 1);
          assert SpaceParenAt(r, i) == SpaceParenAt(BreakBeforeParens(rest), i - 1);
        } else if |s| > 1 {
          assert r[1] == (if SpaceParenAt(rest, 0) then '\n' else rest[0]);
        }
      }
    }
  }

  const Unavailable: string := "Syntax tree not available"

  /** `provideTextDocumentContent`: the tree's text with each space before `(` turned into a
      line feed, or a notice when the view has no file tree. `render` is the parser's `rootNode.toString()`. */
  function ProvideTextDocumentContent(fileTree: Option<FileTree>, render: Tree -> string): (content: string)
    ensures fileTree.None? ==> content == Unavailable
    ensures fileTree.Some? ==>
              |content| == |render(fileTree.value.tree)|
              && forall i :: 0 <= i < |content| ==>
                   content[i] == (if SpaceParenAt(render(fileTree.value.tree), i) then '\n' else render(fileTree.value.tree)[i])
    ensures forall i :: 0 <= i < |content| ==> !SpaceParenAt(content, i)
  {
    match fileTree
    case None => Unavailable
    case Some(ft) =>
      BreakBeforeParensPointwise(render(ft.tree));
      BreakBeforeParens(render(ft.tree))
  }

  /** What the view shows after `viewFileTree`: the notice when it had no file tree and no
      language resolved; the rendering of a fresh parse of the document, with each space
      before `(` turned into a line feed, when a language resolved; otherwise what it showed before. */
  lemma ViewedContent(current: Option<FileTree>, host: Host, parsersDir: string, overrides: Overrides,
                      document: Document, downloaded: bool, render: Tree -> string)
    ensures var language := GetLanguage(host, parsersDir, document.languageId, overrides, downloaded).value;
            var content := ProvideTextDocumentContent(ViewFileTree(current, host, parsersDir, overrides, document, downloaded), render);
            && (language.None? ==> content == ProvideTextDocumentContent(current, render))
            && (language.None? && current.None? ==> content == Unavailable)
            && (language.Some? ==>
                  content == BreakBeforeParens(render(Parse(language.value, document.text, None))))
  {
  }
}
