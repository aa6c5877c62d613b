/** The extension's entry points: how a document's language id is resolved to a grammar
    package from the user's configuration, and how that grammar is found, fetched if its
    artifact is missing, and loaded. */
module Extension {
  import opened Wrappers
  import opened Host
  import Installer

  /** The configuration the extension reads:
      - `ignoredLanguageIds`: the `vscode-tree-sitter.ignoredLanguageIds` setting, `None` when
        it is undefined or null;
      - `languageScoped`: for a language id, the settings of its `[languageId]` section, by
        key; a key set to null is absent. */
  datatype Configuration = Configuration(
    ignoredLanguageIds: Option<seq<string>>,
    languageScoped: map<string, map<string, string>>)

  /** Which grammar serves a language: the npm package, the name of the built parser
      (its `.wasm` file name), and the package subdirectory to build, if any. */
  datatype LanguageIdOverride = LanguageIdOverride(
    npmPackageName: string, parserName: string, subdirectory: Option<string>)

  const PackagePrefix: string := "tree-sitter-"
  const SettingPrefix: string := "vscode-tree-sitter."

  /** A language-scoped setting of the extension, if it is set. */
  function LanguageSetting(config: Configuration, languageId: string, key: string): (r: Option<string>)
    ensures r.Some? <==> languageId in config.languageScoped && SettingPrefix + key in config.languageScoped[languageId]
    ensures r.Some? ==> r.value == config.languageScoped[languageId][SettingPrefix + key]
  {
    if languageId in config.languageScoped && SettingPrefix + key in config.languageScoped[languageId]
    then Some(config.languageScoped[languageId][SettingPrefix + key])
    else None
  }

  /** `getLanguageIdOverride`: each configured value wins; without one, the package is
      `tree-sitter-<languageId>`, the parser is named after the package chosen, and no
      subdirectory is built. */
  function GetLanguageIdOverride(config: Configuration, languageId: string): (o: LanguageIdOverride)
    ensures LanguageSetting(config, languageId, "npmPackageName").Some? ==>
              o.npmPackageName == LanguageSetting(config, languageId, "npmPackageName").value
    ensures LanguageSetting(config, languageId, "npmPackageName").None? ==>
              o.npmPackageName == PackagePrefix + languageId
    ensures LanguageSetting(config, languageId, "parserName").Some? ==>
              o.parserName == LanguageSetting(config, languageId, "parserName").value
    ensures LanguageSetting(config, languageId, "parserName").None? ==>
              o.parserName == o.npmPackageName
    ensures o.subdirectory == LanguageSetting(config, languageId, "subdirectory")
  {
    var npmPackageName := LanguageSetting(config, languageId, "npmPackageName").GetOr(PackagePrefix + languageId);
    var parserName := LanguageSetting(config, languageId, "parserName").GetOr(npmPackageName);
    LanguageIdOverride(npmPackageName, parserName, LanguageSetting(config, languageId, "subdirectory"))
  }

  /** Without configuration for a language, its package name carries the language id after
      the `tree-sitter-` prefix, so distinct languages get distinct packages. */
  lemma DefaultPackageNamesAreDistinct(config: Configuration, id1: string, id2: string)
    requires id1 !in config.languageScoped && id2 !in config.languageScoped
    requires GetLanguageIdOverride(config, id1).npmPackageName == GetLanguageIdOverride(config, id2).npmPackageName
    ensures id1 == id2
  {
    var p := GetLanguageIdOverride(config, id1).npmPackageName;
    assert p[|PackagePrefix|..] == id1;
    assert p[|PackagePrefix|..] == id2;
  }

  /** `getIgnoredLanguageIds`: the configured list, or no language when it is unset. */
  function GetIgnoredLanguageIds(config: Configuration): (ids: seq<string>)
    ensures config.ignoredLanguageIds.None? ==> ids == []
    ensures config.ignoredLanguageIds.Some? ==> ids == config.ignoredLanguageIds.value
  {
    config.ignoredLanguageIds.GetOr([])
  }

  /** What a language id resolves to: nothing, when it is ignored, or a grammar. */
  datatype Resolution = Ignored | Resolved(grammar: LanguageIdOverride)

  /** The resolution order: the ignore list first, then the configured or default grammar. */
  function Resolve(config: Configuration, languageId: string): Resolution
  {
    if languageId in GetIgnoredLanguageIds(config) then Ignored
    else Resolved(GetLanguageIdOverride(config, languageId))
  }

  /** Resolution on concrete settings: the default package of `rust`; the TSX grammar of
      the typescript package configured for `typescriptreact`; and an ignored id that stays
      ignored whatever is configured for it. */
  lemma ResolveExamples()
    ensures Resolve(Configuration(None, map[]), "rust")
         == Resolved(LanguageIdOverride("tree-sitter-rust", "tree-sitter-rust", None))
    ensures var tsx := map["vscode-tree-sitter.npmPackageName" := "tree-sitter-typescript",
                           "vscode-tree-sitter.subdirectory" := "tsx",
                           "vscode-tree-sitter.parserName" := "tree-sitter-tsx"];
            && Resolve(Configuration(None, map["typescriptreact" := tsx]), "typescriptreact")
               == Resolved(LanguageIdOverride("tree-sitter-typescript", "tree-sitter-tsx", Some("tsx")))
            && Resolve(Configuration(Some(["typescriptreact"]), map["typescriptreact" := tsx]), "typescriptreact")
               == Ignored
  {
    assert SettingPrefix + "npmPackageName" == "vscode-tree-sitter.npmPackageName";
    assert SettingPrefix + "parserName" == "vscode-tree-sitter.parserName";
    assert SettingPrefix + "subdirectory" == "vscode-tree-sitter.subdirectory";
  }

  /** Where the built artifact of a grammar is. */
  function ArtifactPath(parsersDir: string, o: LanguageIdOverride): string
  {
    Installer.WasmBindingsPath(parsersDir, o.npmPackageName, Some(o.parserName))
  }

  /** Whether a run's log begins with every action of the given download. */
  predicate Downloads(effects: seq<Effect>, download: Run<bool>)
  {
    |download.effects| <= |effects| && effects[..|download.effects|] == download.effects
  }

  /** The artifact of the grammar a language id is configured for. */
  function ArtifactOf(config: Configuration, parsersDir: string, languageId: string): string
  {
    ArtifactPath(parsersDir, GetLanguageIdOverride(config, languageId))
  }

  /** Whether downloading the grammar a language id is configured for succeeds. */
  predicate DownloadSucceeds(config: Configuration, host: Host, parsersDir: string, languageId: string)
  {
    DownloadFor(config, host, parsersDir, languageId).value
  }

  /** The download `getLanguage` performs for a language id: the configured package and
      subdirectory, with the default npm and tree-sitter commands. */
  function DownloadFor(config: Configuration, host: Host, parsersDir: string, languageId: string): Run<bool>
  {
    var o := GetLanguageIdOverride(config, languageId);
    Installer.DownloadParser(host, parsersDir, o.npmPackageName, o.subdirectory,
                             Installer.DefaultNpm, Installer.DefaultTreeSitterCli)
  }

  /** `getLanguage`: an ignored language yields nothing and touches nothing. Otherwise the
      grammar is downloaded when, and only when, its built artifact is missing; a failed
      download yields nothing and loads nothing; only the grammar's artifact is ever
      loaded, and the language is what that load yields. */
  function GetLanguage(config: Configuration, host: Host, parsersDir: string, languageId: string): (r: Run<Option<Language>>)
    ensures languageId in GetIgnoredLanguageIds(config) ==> r == Run(None, [])
    ensures languageId !in GetIgnoredLanguageIds(config) ==>
              (Downloads(r.effects, DownloadFor(config, host, parsersDir, languageId)) <==>
               ArtifactOf(config, parsersDir, languageId) !in host.files)
    ensures ArtifactOf(config, parsersDir, languageId) in host.files ==> !RunsCommands(r.effects)
    ensures forall i :: 0 <= i < |r.effects| && r.effects[i].LoadWasm? ==>
              r.effects[i].path == ArtifactOf(config, parsersDir, languageId)
    ensures r.value.Some? ==> Loads(r.effects) && r.value == host.load(ArtifactOf(config, parsersDir, languageId))
    ensures languageId !in GetIgnoredLanguageIds(config) && ArtifactOf(config, parsersDir, languageId) in host.files ==>
              Loads(r.effects) && r.value == host.load(ArtifactOf(config, parsersDir, languageId))
    ensures languageId !in GetIgnoredLanguageIds(config) && ArtifactOf(config, parsersDir, languageId) !in host.files
            && DownloadSucceeds(config, host, parsersDir, languageId) ==>
              r.value == (if ArtifactOf(config, parsersDir, languageId) in host.installed
                          then host.load(ArtifactOf(config, parsersDir, languageId)) else None)
    ensures languageId !in GetIgnoredLanguageIds(config) && ArtifactOf(config, parsersDir, languageId) !in host.files
            && !DownloadSucceeds(config, host, parsersDir, languageId) ==>
              r == Run(None, DownloadFor(config, host, parsersDir, languageId).effects)
    ensures languageId !in GetIgnoredLanguageIds(config) && ArtifactOf(config, parsersDir, languageId) !in host.files
            && DownloadSucceeds(config, host, parsersDir, languageId) ==>
              r.effects == DownloadFor(config, host, parsersDir, languageId).effects
                           + Installer.LoadParser(host.installed, host.load, parsersDir,
                                                  GetLanguageIdOverride(config, languageId).npmPackageName,
                                                  Some(GetLanguageIdOverride(config, languageId).parserName)).effects
  {
    if languageId in GetIgnoredLanguageIds(config) then Run(None, [])
    else
      var o := GetLanguageIdOverride(config, languageId);
      var wasm := Installer.WasmBindingsPath(parsersDir, o.npmPackageName, Some(o.parserName));
      if wasm !in host.files then
        var download := Installer.DownloadParser(host, parsersDir, o.npmPackageName, o.subdirectory,
                                                 Installer.DefaultNpm, Installer.DefaultTreeSitterCli);
        assert download.effects[..|download.effects|] == download.effects;
        if !download.value then Run(None, download.effects)
        else
          var loaded := Installer.LoadParser(host.installed, host.load, parsersDir, o.npmPackageName, Some(o.parserName));
          var effects := download.effects + loaded.effects;
          assert effects[..|download.effects|] == download.effects;
          assert loaded.effects != [] ==> effects[|download.effects|] == loaded.effects[0];
          Run(loaded.value, effects)
      else
        var loaded := Installer.LoadParser(host.files, host.load, parsersDir, o.npmPackageName, Some(o.parserName));
        assert loaded.effects[0].LoadWasm?;
        assert |loaded.effects| < |DownloadFor(config, host, parsersDir, languageId).effects|;
        loaded
  }

  /** `getLanguage` follows the resolution of the language id: nothing for an ignored id;
      for a resolved grammar, a language only from loading that grammar's artifact; after a
      failed download, no language and no load. */
  lemma GetLanguageFollowsResolution(config: Configuration, host: Host, parsersDir: string, languageId: string)
    ensures Resolve(config, languageId) == Ignored ==> GetLanguage(config, host, parsersDir, languageId) == Run(None, [])
    ensures Resolve(config, languageId).Resolved? && GetLanguage(config, host, parsersDir, languageId).value.Some? ==>
              GetLanguage(config, host, parsersDir, languageId).value
                == host.load(ArtifactPath(parsersDir, Resolve(config, languageId).grammar))
    ensures ArtifactOf(config, parsersDir, languageId) !in host.files && !DownloadSucceeds(config, host, parsersDir, languageId) ==>
              GetLanguage(config, host, parsersDir, languageId).value.None?
              && !Loads(GetLanguage(config, host, parsersDir, languageId).effects)
  {
  }

  /** A language id is ignored exactly when the ignore setting is set and lists it. */
  lemma IgnoredIffListed(config: Configuration, languageId: string)
    ensures Resolve(config, languageId) == Ignored <==>
              config.ignoredLanguageIds.Some? && languageId in config.ignoredLanguageIds.value
  {
  }

  /** With the artifact already built, `getLanguage` is exactly `loadParser` of the
      configured package and parser name. */
  lemma GetLanguageLoadsPresentArtifact(config: Configuration, host: Host, parsersDir: string, languageId: string)
    requires languageId !in GetIgnoredLanguageIds(config)
    requires ArtifactOf(config, parsersDir, languageId) in host.files
    ensures var o := GetLanguageIdOverride(config, languageId);
            GetLanguage(config, host, parsersDir, languageId)
              == Installer.LoadParser(host.files, host.load, parsersDir, o.npmPackageName, Some(o.parserName))
  {
  }
}
