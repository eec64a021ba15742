/** Which processes' logs are forwarded: the `listenApps` and `ignoreApps`
    lists derived once from the `include` and `exclude` settings, and the
    per-event decision `shouldProcess`. Matching is exact list membership. */
module Filter {
  import opened Json
  import opened JsString

  /** The `include` and `exclude` module settings; `None` is an unset setting. */
  datatype Config = Config(includes: Option<string>, excludes: Option<string>)

  /** `setting?.split(',') || []`: an unset setting gives no names, a set one
      gives its comma-separated pieces, which join back to the setting. */
  function AppList(setting: Option<string>): (apps: seq<string>)
    ensures setting.None? ==> apps == []
    ensures setting.Some? ==> Join(apps, ',') == setting.value
    ensures setting.Some? ==> |apps| == Count(setting.value, ',') + 1
    ensures forall k :: 0 <= k < |apps| ==> ',' !in apps[k]
  {
    match setting
    case None => []
    case Some(s) =>
      JoinSplit(s, ',');
      SplitCount(s, ',');
      Split(s, ',')
  }

  /** `listenApps`: the comma-separated pieces of `include`, none when unset. */
  function ListenApps(cfg: Config): (apps: seq<string>)
    ensures cfg.includes.None? ==> apps == []
    ensures cfg.includes.Some? ==> Join(apps, ',') == cfg.includes.value
    ensures forall name :: name in apps <==> Names(cfg.includes, name)
  {
    Listed(cfg.includes);
    AppList(cfg.includes)
  }

  /** `ignoreApps`: the comma-separated pieces of `exclude`, none when unset. */
  function IgnoreApps(cfg: Config): (apps: seq<string>)
    ensures cfg.excludes.None? ==> apps == []
    ensures cfg.excludes.Some? ==> Join(apps, ',') == cfg.excludes.value
    ensures forall name :: name in apps <==> Names(cfg.excludes, name)
  {
    Listed(cfg.excludes);
    AppList(cfg.excludes)
  }

  /** `shouldProcess(msg)` for a process named `name`: `include` set to `*`
      forwards every name that is not a field of `exclude`; otherwise
      `exclude` set to `*` forwards the fields of `include`; otherwise a
      name must be a field of `include` and not of `exclude`. */
  predicate ShouldProcess(cfg: Config, name: string)
    ensures ShouldProcess(cfg, name) <==>
      if cfg.includes == Some("*") then !Names(cfg.excludes, name)
      else if cfg.excludes == Some("*") then Names(cfg.includes, name)
      else Names(cfg.includes, name) && !Names(cfg.excludes, name)
  {
    if cfg.includes == Some("*") then name !in IgnoreApps(cfg)
    else if cfg.excludes == Some("*") then name in ListenApps(cfg)
    else name in ListenApps(cfg) && name !in IgnoreApps(cfg)
  }

  /** Membership in a derived list is whole-field occurrence in the setting. */
  lemma Listed(setting: Option<string>)
    ensures forall name :: name in AppList(setting) <==> Names(setting, name)
  {
    forall name ensures name in AppList(setting) <==> Names(setting, name) {
      if setting.Some? {
        FieldMembership(setting.value, ',', name);
      }
    }
  }

  /** `name` is a whole comma-separated field of the setting. */
  ghost predicate Names(setting: Option<string>, name: string)
  {
    setting.Some? && IsField(setting.value, ',', name)
  }

  /** `include` set to `*` forwards every process whose name is not a field of
      `exclude`, whatever `exclude` says, including `*`. */
  lemma IncludeAll(cfg: Config, name: string)
    requires cfg.includes == Some("*")
    ensures ShouldProcess(cfg, name) <==> !Names(cfg.excludes, name)
  {
    if cfg.excludes.Some? {
      FieldMembership(cfg.excludes.value, ',', name);
    }
  }

  /** Otherwise `exclude` set to `*` forwards exactly the processes named as a
      field of `include`. */
  lemma ExcludeAll(cfg: Config, name: string)
    requires cfg.includes != Some("*") && cfg.excludes == Some("*")
    ensures ShouldProcess(cfg, name) <==> Names(cfg.includes, name)
  {
    if cfg.includes.Some? {
      FieldMembership(cfg.includes.value, ',', name);
    }
  }

  /** In every other case a process is forwarded exactly when it is named in
      `include` and not named in `exclude`. */
  lemma IncludeMinusExclude(cfg: Config, name: string)
    requires cfg.includes != Some("*") && cfg.excludes != Some("*")
    ensures ShouldProcess(cfg, name) <==> Names(cfg.includes, name) && !Names(cfg.excludes, name)
  {
    if cfg.includes.Some? {
      FieldMembership(cfg.includes.value, ',', name);
    }
    if cfg.excludes.Some? {
      FieldMembership(cfg.excludes.value, ',', name);
    }
  }

  /** With `include` unset no process is forwarded, whatever `exclude` says. */
  lemma NoIncludeNothingForwarded(cfg: Config, name: string)
    requires cfg.includes.None?
    ensures !ShouldProcess(cfg, name)
  {
  }

  /** With both settings `*` the include rule wins: only a process literally
      named `*` is held back. */
  lemma BothWildcards(cfg: Config, name: string)
    requires cfg.includes == Some("*") && cfg.excludes == Some("*")
    ensures ShouldProcess(cfg, name) <==> name != "*"
  {
    SplitNoSep("*", ',');
  }

  /** A `*` inside a list is an ordinary character: `app-*` names only a
      process called `app-*`, never `app-1`. */
  lemma NoPatternMatching()
    ensures ShouldProcess(Config(Some("*"), Some("app-*")), "app-1")
    ensures !ShouldProcess(Config(Some("*"), Some("app-*")), "app-*")
    ensures !ShouldProcess(Config(Some("app-*"), Some("*")), "app-1")
    ensures ShouldProcess(Config(Some("app-*"), Some("*")), "app-*")
    ensures !ShouldProcess(Config(Some("app-*"), Some("app-2")), "app-1")
  {
    SplitNoSep("app-*", ',');
    SplitNoSep("app-2", ',');
  }
}
