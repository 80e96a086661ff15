/**
 * The configuration object of the habit tracker and the three operations
 * that check or change it: `validateConfig`, `changeTheme` and
 * `setCustomMessages`.
 */
module Config {
  import opened Wrappers

  /** The five message themes. */
  datatype Theme = General | Growth | Sobriety | Minimal | Custom

  /** The name a theme has in the configuration. */
  function ThemeName(t: Theme): string {
    match t
    case General => "general"
    case Growth => "growth"
    case Sobriety => "sobriety"
    case Minimal => "minimal"
    case Custom => "custom"
  }

  /** The theme names the configuration accepts, in the order `validateConfig` lists them. */
  const ThemeNames: seq<string> := ["general", "growth", "sobriety", "minimal", "custom"]

  /** The theme a configured name denotes, if any. */
  function ParseTheme(name: string): (r: Option<Theme>)
    ensures r.Some? <==> name in ThemeNames
    ensures r.Some? ==> ThemeName(r.value) == name
  {
    if name == "general" then Some(General)
    else if name == "growth" then Some(Growth)
    else if name == "sobriety" then Some(Sobriety)
    else if name == "minimal" then Some(Minimal)
    else if name == "custom" then Some(Custom)
    else None
  }

  lemma ThemeNameRoundTrip(t: Theme)
    ensures ParseTheme(ThemeName(t)) == Some(t)
  {
  }

  /**
   * The configuration object as written by the user, before validation.
   * Fields keep their JavaScript value shapes: the theme is a plain string and
   * the counters are unconstrained integers.
   */
  datatype RawConfig = RawConfig(
    calendarName: string,
    habitName: string,
    manualCounter: Option<int>,
    enableResetByEvent: bool,
    enableLogging: bool,
    maxCounterDays: int,
    theme: string,
    customMessages: seq<string>)

  /** A configuration that passed validation, with the theme as a closed variant. */
  datatype Config = Config(
    calendarName: string,
    habitName: string,
    manualCounter: Option<nat>,
    enableResetByEvent: bool,
    enableLogging: bool,
    maxCounterDays: nat,
    theme: Theme,
    customMessages: seq<string>)

  /** The invariants the daily run relies on. */
  predicate Valid(c: Config) {
    && c.calendarName != ""
    && c.habitName != ""
    && c.maxCounterDays > 0
    && (c.theme == Custom ==> |c.customMessages| > 0)
  }

  /** The raw configuration a validated one was read from. */
  function ToRaw(c: Config): RawConfig {
    RawConfig(
      c.calendarName, c.habitName,
      match c.manualCounter case None => None case Some(n) => Some(n as int),
      c.enableResetByEvent, c.enableLogging, c.maxCounterDays as int,
      ThemeName(c.theme), c.customMessages)
  }

  /** Why a configuration, or a change to it, was refused. */
  datatype ConfigError =
    | InvalidCalendarName
    | InvalidHabitName
    | NegativeManualCounter
    | NonPositiveMaxCounterDays
    | UnknownTheme
    | EmptyCustomMessages
    | EmptyMessageList

  /** The rule of the configuration that a given refusal reports as broken. */
  predicate Breaks(raw: RawConfig, e: ConfigError) {
    match e
    case InvalidCalendarName => raw.calendarName == ""
    case InvalidHabitName => raw.habitName == ""
    case NegativeManualCounter => raw.manualCounter.Some? && raw.manualCounter.value < 0
    case NonPositiveMaxCounterDays => raw.maxCounterDays <= 0
    case UnknownTheme => raw.theme !in ThemeNames
    case EmptyCustomMessages => raw.theme == "custom" && |raw.customMessages| == 0
    case EmptyMessageList => false
  }

  /** The position of each rule among the checks of `validateConfig`. */
  function CheckOrder(e: ConfigError): nat {
    match e
    case InvalidCalendarName => 0
    case InvalidHabitName => 1
    case NegativeManualCounter => 2
    case NonPositiveMaxCounterDays => 3
    case UnknownTheme => 4
    case EmptyCustomMessages => 5
    case EmptyMessageList => 6
  }

  /**
   * `validateConfig`: the checks run in the order of `CheckOrder` and the
   * first broken rule is reported. An accepted configuration is valid and is exactly the raw one,
   * read with typed fields.
   */
  function ValidateConfig(raw: RawConfig): (r: Result<Config, ConfigError>)
    ensures r.Success? ==> Valid(r.value) && ToRaw(r.value) == raw
    ensures r.Failure? ==> Breaks(raw, r.error)
    ensures r.Failure? ==> forall e | CheckOrder(e) < CheckOrder(r.error) :: !Breaks(raw, e)
  {
    if raw.calendarName == "" then Failure(InvalidCalendarName)
    else if raw.habitName == "" then Failure(InvalidHabitName)
    else if raw.manualCounter.Some? && raw.manualCounter.value < 0 then Failure(NegativeManualCounter)
    else if raw.maxCounterDays <= 0 then Failure(NonPositiveMaxCounterDays)
    else
      match ParseTheme(raw.theme)
      case None => Failure(UnknownTheme)
      case Some(t) =>
        if t == Custom && |raw.customMessages| == 0 then Failure(EmptyCustomMessages)
        else
          var manual: Option<nat> :=
            match raw.manualCounter case None => None case Some(n) => Some(n);
          Success(Config(
            raw.calendarName, raw.habitName, manual,
            raw.enableResetByEvent, raw.enableLogging, raw.maxCounterDays,
            t, raw.customMessages))
  }

  /** Every valid configuration is accepted, unchanged, from its raw form. */
  lemma ValidateAcceptsValid(c: Config)
    requires Valid(c)
    ensures ValidateConfig(ToRaw(c)) == Success(c)
  {
    ThemeNameRoundTrip(c.theme);
  }

  /** A raw configuration is accepted exactly when it is the raw form of a valid one. */
  lemma ValidateAcceptsExactlyValid(raw: RawConfig)
    ensures ValidateConfig(raw).Success? <==> exists c :: Valid(c) && ToRaw(c) == raw
  {
    if c :| Valid(c) && ToRaw(c) == raw {
      ValidateAcceptsValid(c);
    }
  }

  /** `changeTheme`: an unknown name is refused; otherwise only the theme changes. */
  function ChangeTheme(raw: RawConfig, name: string): (r: Result<RawConfig, ConfigError>)
    ensures r.Failure? <==> name !in ThemeNames
    ensures r.Failure? ==> r.error == UnknownTheme
    ensures r.Success? ==> r.value == raw.(theme := name)
  {
    if name !in ThemeNames then Failure(UnknownTheme) else Success(raw.(theme := name))
  }

  /**
   * `changeTheme` keeps an accepted configuration accepted, with the new theme,
   * except in one case: switching to "custom" while the custom pool is empty.
   * The next validation then refuses it.
   */
  lemma ChangeThemeKeepsValidity(raw: RawConfig, name: string)
    requires ValidateConfig(raw).Success?
    requires name in ThemeNames
    ensures ChangeTheme(raw, name).Success?
    ensures ValidateConfig(ChangeTheme(raw, name).value).Success?
            <==> !(name == "custom" && |raw.customMessages| == 0)
    ensures ValidateConfig(ChangeTheme(raw, name).value).Success? ==>
              ValidateConfig(ChangeTheme(raw, name).value).value
                == ValidateConfig(raw).value.(theme := ParseTheme(name).value)
  {
  }

  /** `setCustomMessages`: an empty list is refused; otherwise the pool is replaced and the theme becomes custom. */
  function SetCustomMessages(raw: RawConfig, messages: seq<string>): (r: Result<RawConfig, ConfigError>)
    ensures r.Failure? <==> |messages| == 0
    ensures r.Failure? ==> r.error == EmptyMessageList
    ensures r.Success? ==> r.value == raw.(customMessages := messages, theme := "custom")
  {
    if |messages| == 0 then Failure(EmptyMessageList)
    else Success(raw.(customMessages := messages, theme := "custom"))
  }

  /**
   * `setCustomMessages` keeps an accepted configuration accepted, now with the
   * custom theme and the new pool; it also repairs a configuration whose only
   * fault is a theme that is unknown or custom with an empty pool.
   */
  lemma SetCustomMessagesKeepsValidity(raw: RawConfig, messages: seq<string>)
    requires |messages| > 0
    requires ValidateConfig(raw.(theme := "general")).Success?
    ensures SetCustomMessages(raw, messages).Success?
    ensures ValidateConfig(SetCustomMessages(raw, messages).value)
            == Success(ValidateConfig(raw.(theme := "general")).value.(theme := Custom, customMessages := messages))
  {
  }
}
