/**
  Preference resolution (bin/utils.js `getPrefs`): command-line values and an
  optional configuration object are merged into one preference record.
 */
module Preferences {
  import opened Wrappers
  import opened JsValues

  /**
    The option record the argument parser produces. `htmlEntityOnlyVisible`
    is the key the resolver reads; the declared `--html-entity-only-invisible`
    flag fills `htmlEntityOnlyInvisible` instead.
   */
  datatype Program = Program(
    lint: Option<bool>,
    stdin: Option<bool>,
    stdinFilename: Option<string>,
    config: Option<string>,
    locale: Prop<seq<string>>,
    enableRule: Prop<seq<string>>,
    disableRule: Prop<seq<string>>,
    htmlEntityType: Option<string>,
    htmlEntityOnlyVisible: Option<bool>,
    htmlEntityOnlyInvisible: Option<bool>,
    args: seq<string>)

  /**
    A parsed configuration object. `htmlEntity` is `None` when the key is
    missing or holds a falsy value.
   */
  datatype Config = Config(
    locale: Prop<seq<string>>,
    enableRule: Prop<seq<string>>,
    disableRule: Prop<seq<string>>,
    htmlEntity: Option<map<string, Json>>)

  /** The configuration object without any key of interest. */
  const EmptyConfig := Config(Undefined, Undefined, Undefined, None)

  /** The resolved preferences handed to the engine. */
  datatype Prefs = Prefs(
    lint: Option<bool>,
    locale: Prop<seq<string>>,
    enableRule: Prop<seq<string>>,
    disableRule: Prop<seq<string>>,
    htmlEntity: map<string, Json>,
    filename: Option<string>)

  /** The three keys merged by the precedence loop. */
  datatype ListKey = EnableRule | DisableRule | Locale

  function ProgramValue(program: Program, key: ListKey): Prop<seq<string>> {
    match key
    case EnableRule => program.enableRule
    case DisableRule => program.disableRule
    case Locale => program.locale
  }

  /** The configuration's value for a key, `Undefined` when there is no configuration. */
  function ConfigValue(config: Option<Config>, key: ListKey): Prop<seq<string>> {
    match config
    case None => Undefined
    case Some(c) =>
      match key
      case EnableRule => c.enableRule
      case DisableRule => c.disableRule
      case Locale => c.locale
  }

  function PrefsValue(prefs: Prefs, key: ListKey): Prop<seq<string>> {
    match key
    case EnableRule => prefs.enableRule
    case DisableRule => prefs.disableRule
    case Locale => prefs.locale
  }

  /** The value a key holds before the loop: `locale` starts as `[]`, the rule lists are absent. */
  function Seed(key: ListKey): Prop<seq<string>> {
    if key == Locale then Val([]) else Undefined
  }

  /** A later layer replaces the current value whenever it defines the key (bin/utils.js:50-56). */
  function Assign<T>(current: Prop<T>, layer: Prop<T>): Prop<T> {
    if layer.Defined() then layer else current
  }

  /** The `htmlEntity` object of the configuration, empty when there is none. */
  function ConfigEntity(config: Option<Config>): map<string, Json> {
    if config.Some? && config.value.htmlEntity.Some? then config.value.htmlEntity.value else map[]
  }

  /** The `htmlEntity` keys taken from the command line. */
  function CliEntity(program: Program): (m: map<string, Json>)
    ensures "type" in m <==> program.htmlEntityType.Some?
    ensures "onlyVisible" in m <==> program.htmlEntityOnlyVisible.Some?
    ensures "type" in m ==> m["type"] == JStr(program.htmlEntityType.value)
    ensures "onlyVisible" in m ==> m["onlyVisible"] == JBool(program.htmlEntityOnlyVisible.value)
    ensures forall k :: k in m ==> k == "type" || k == "onlyVisible"
  {
    var withType := if program.htmlEntityType.Some? then map["type" := JStr(program.htmlEntityType.value)] else map[];
    if program.htmlEntityOnlyVisible.Some? then withType["onlyVisible" := JBool(program.htmlEntityOnlyVisible.value)]
    else withType
  }

  function GetPrefs(program: Program, config: Option<Config>): (r: Prefs)
    ensures r.lint == program.lint
    ensures r.filename.None?
    // per-key precedence: the configuration wins, then the command line, then the seed
    ensures forall key: ListKey :: PrefsValue(r, key) == (
              if ConfigValue(config, key).Defined() then ConfigValue(config, key)
              else if ProgramValue(program, key).Defined() then ProgramValue(program, key)
              else Seed(key))
    ensures r.locale != Undefined
    // htmlEntity: config keys win, command-line keys not in the config survive, nothing else appears
    ensures forall k :: k in ConfigEntity(config) ==> k in r.htmlEntity && r.htmlEntity[k] == ConfigEntity(config)[k]
    ensures program.htmlEntityType.Some? && "type" !in ConfigEntity(config) ==>
      "type" in r.htmlEntity && r.htmlEntity["type"] == JStr(program.htmlEntityType.value)
    ensures program.htmlEntityOnlyVisible.Some? && "onlyVisible" !in ConfigEntity(config) ==>
      "onlyVisible" in r.htmlEntity && r.htmlEntity["onlyVisible"] == JBool(program.htmlEntityOnlyVisible.value)
    ensures forall k :: k in r.htmlEntity ==>
      || k in ConfigEntity(config)
      || (k == "type" && program.htmlEntityType.Some?)
      || (k == "onlyVisible" && program.htmlEntityOnlyVisible.Some?)
  {
    var entity := CliEntity(program);
    Prefs(
      lint := program.lint,
      locale := Assign(Assign(Seed(Locale), program.locale), ConfigValue(config, Locale)),
      enableRule := Assign(Assign(Seed(EnableRule), program.enableRule), ConfigValue(config, EnableRule)),
      disableRule := Assign(Assign(Seed(DisableRule), program.disableRule), ConfigValue(config, DisableRule)),
      htmlEntity := if config.Some? && config.value.htmlEntity.Some? then entity + config.value.htmlEntity.value else entity,
      filename := None)
  }

  /** A configuration that defines none of the keys behaves exactly like no configuration. */
  lemma EmptyConfigIsNoConfig(program: Program)
    ensures GetPrefs(program, Some(EmptyConfig)) == GetPrefs(program, None)
  {
  }

  /** Without a configuration the preferences are those given on the command line. */
  lemma NoConfigUsesProgram(program: Program)
    ensures var r := GetPrefs(program, None);
            && r.enableRule == program.enableRule
            && r.disableRule == program.disableRule
            && (program.locale.Defined() ==> r.locale == program.locale)
            && (program.locale.Undefined? ==> r.locale == Val([]))
            && r.htmlEntity == CliEntity(program)
  {
  }

  /** When the configuration sets all three list keys, the command-line lists have no effect. */
  lemma ConfigOverridesProgram(p1: Program, p2: Program, c: Config)
    requires c.locale.Defined() && c.enableRule.Defined() && c.disableRule.Defined()
    ensures GetPrefs(p1, Some(c)).locale == GetPrefs(p2, Some(c)).locale == c.locale
    ensures GetPrefs(p1, Some(c)).enableRule == GetPrefs(p2, Some(c)).enableRule == c.enableRule
    ensures GetPrefs(p1, Some(c)).disableRule == GetPrefs(p2, Some(c)).disableRule == c.disableRule
  {
  }

  /**
    The value of `--html-entity-only-invisible` never reaches the preferences:
    the resolver reads `htmlEntityOnlyVisible`, a key the flag does not set.
   */
  lemma OnlyInvisibleFlagIgnored(program: Program, config: Option<Config>, flag: Option<bool>)
    ensures GetPrefs(program.(htmlEntityOnlyInvisible := flag), config) == GetPrefs(program, config)
    ensures "onlyInvisible" in GetPrefs(program, config).htmlEntity ==> "onlyInvisible" in ConfigEntity(config)
  {
  }
}
