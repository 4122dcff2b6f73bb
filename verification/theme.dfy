/**
 * The theme store: its state is a colour mode and a compact flag, changed only through the
 * reducer. The colour scheme the system prefers is a parameter of the reducer, since it is
 * read from the browser at the moment a mode change is dispatched.
 */
module Theme {
  import opened Wrappers

  datatype Mode = Light | Dark | System

  /** What `getSystemMode` can answer: never `System` itself. */
  type SystemMode = m: Mode | m != System witness Light

  datatype ThemeOption = ThemeOption(mode: Mode, compact: bool)

  /** The dispatched actions; `Unknown` stands for any other `type`. */
  datatype Action =
    | ChangeMode(mode: Mode)
    | ToggleMode
    | ChangeCompact(compact: bool)
    | ToggleCompact
    | Unknown

  /** The default options: follow the system, not compact. */
  const DefaultOption := ThemeOption(System, false)

  /**
   * `themeReducer`. A mode change from `System` takes the system's scheme whatever the payload;
   * a toggle turns dark into light and anything else into dark; the compact actions set or
   * flip the flag; an unknown action leaves the state as it is.
   */
  function Reduce(state: ThemeOption, action: Action, system: SystemMode): (r: ThemeOption)
    ensures action.ChangeMode? || action.ToggleMode? ==> r.compact == state.compact
    ensures action.ChangeCompact? || action.ToggleCompact? ==> r.mode == state.mode
    ensures action.ToggleMode? ==> r.mode != System && r.mode != state.mode
    ensures action.ChangeMode? && state.mode != System ==> r.mode == action.mode
    ensures action.ChangeMode? && state.mode == System ==> r.mode == system
    ensures action.ChangeCompact? ==> r.compact == action.compact
    ensures action.ToggleCompact? ==> r.compact != state.compact
    ensures action.Unknown? ==> r == state
  {
    match action
    case ChangeMode(payload) =>
      if state.mode == System then state.(mode := system) else state.(mode := payload)
    case ToggleMode =>
      if state.mode == Dark then state.(mode := Light) else state.(mode := Dark)
    case ChangeCompact(payload) => state.(compact := payload)
    case ToggleCompact => state.(compact := !state.compact)
    case Unknown => state
  }

  /** The state after a sequence of actions, the system's scheme fixed throughout. */
  function ReduceAll(state: ThemeOption, actions: seq<Action>, system: SystemMode): ThemeOption
    decreases |actions|
  {
    if actions == [] then state else ReduceAll(Reduce(state, actions[0], system), actions[1..], system)
  }

  /** The options `createThemeStore` is given; a missing one keeps its default. */
  datatype ThemeOptions = ThemeOptions(mode: Option<Mode>, compact: Option<bool>)

  /** The initial state of `createThemeStore(options)`: the defaults, overridden by the options. */
  function CreateThemeState(options: ThemeOptions): (r: ThemeOption)
    ensures options.mode.None? ==> r.mode == System
    ensures options.mode.Some? ==> r.mode == options.mode.value
    ensures options.compact.None? ==> !r.compact
    ensures options.compact.Some? ==> r.compact == options.compact.value
  {
    ThemeOption(options.mode.GetOr(DefaultOption.mode), options.compact.GetOr(DefaultOption.compact))
  }

  /** Toggling compact twice restores the state. */
  lemma ToggleCompactTwice(state: ThemeOption, system: SystemMode)
    ensures Reduce(Reduce(state, ToggleCompact, system), ToggleCompact, system) == state
  {
  }

  /**
   * Toggling the mode twice restores a light or dark state; a state following the system
   * ends up light, having passed through dark.
   */
  lemma ToggleModeTwice(state: ThemeOption, system: SystemMode)
    ensures state.mode != System ==> Reduce(Reduce(state, ToggleMode, system), ToggleMode, system) == state
    ensures state.mode == System ==> Reduce(state, ToggleMode, system).mode == Dark
    ensures state.mode == System ==> Reduce(Reduce(state, ToggleMode, system), ToggleMode, system) == state.(mode := Light)
  {
  }

  /**
   * The system preference is consulted only once: after a mode change from `System`, a second
   * mode change takes its payload.
   */
  lemma SecondChangeTakesPayload(state: ThemeOption, first: Mode, second: Mode, system: SystemMode)
    requires state.mode == System || first != System
    ensures Reduce(Reduce(state, ChangeMode(first), system), ChangeMode(second), system).mode == second
  {
  }

  /** Mode actions never touch the compact flag, over any number of them. */
  lemma {:induction false} ModeActionsKeepCompact(state: ThemeOption, actions: seq<Action>, system: SystemMode)
    requires forall k :: 0 <= k < |actions| ==> actions[k].ChangeMode? || actions[k].ToggleMode? || actions[k].Unknown?
    ensures ReduceAll(state, actions, system).compact == state.compact
    decreases |actions|
  {
    if actions != [] {
      ModeActionsKeepCompact(Reduce(state, actions[0], system), actions[1..], system);
    }
  }

  /** Compact actions never touch the mode, over any number of them. */
  lemma {:induction false} CompactActionsKeepMode(state: ThemeOption, actions: seq<Action>, system: SystemMode)
    requires forall k :: 0 <= k < |actions| ==> actions[k].ChangeCompact? || actions[k].ToggleCompact? || actions[k].Unknown?
    ensures ReduceAll(state, actions, system).mode == state.mode
    decreases |actions|
  {
    if actions != [] {
      CompactActionsKeepMode(Reduce(state, actions[0], system), actions[1..], system);
    }
  }

  /**
   * Once the mode has left `System` it returns only by an explicit change to `System`: no
   * sequence of other actions reaches it.
   */
  lemma {:induction false} SystemOnlyByRequest(state: ThemeOption, actions: seq<Action>, system: SystemMode)
    requires state.mode != System
    requires forall k :: 0 <= k < |actions| ==> actions[k] != ChangeMode(System)
    ensures ReduceAll(state, actions, system).mode != System
    decreases |actions|
  {
    if actions != [] {
      SystemOnlyByRequest(Reduce(state, actions[0], system), actions[1..], system);
    }
  }
}
