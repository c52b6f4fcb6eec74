/**
 * The global application state shared by the instruction widget: the current
 * instruction text (`consigne`), whether it is shown, and the theme. Every
 * action is a record transformer `prev => ({...prev, ...})`.
 */
module AppContext {
  import opened Wrappers

  datatype Theme = Light | Dark

  datatype AppState = AppState(consigne: string, isConsigneVisible: bool, theme: Theme)

  /** No instruction, hidden, light theme. */
  const InitialState: AppState := AppState("", false, Light)

  /** Stores the instruction; it becomes visible exactly when it is non-empty. */
  function SetConsigne(s: AppState, consigne: string): (r: AppState)
    ensures r.consigne == consigne
    ensures r.isConsigneVisible <==> |consigne| > 0
    ensures r.theme == s.theme
  {
    s.(consigne := consigne, isConsigneVisible := |consigne| > 0)
  }

  /** Flips the visibility flag and nothing else. */
  function ToggleConsigneVisibility(s: AppState): (r: AppState)
    ensures r.isConsigneVisible == !s.isConsigneVisible
    ensures r.consigne == s.consigne && r.theme == s.theme
  {
    s.(isConsigneVisible := !s.isConsigneVisible)
  }

  /** Clears and hides the instruction, keeping the theme. */
  function ResetConsigne(s: AppState): (r: AppState)
    ensures r.consigne == "" && !r.isConsigneVisible
    ensures r.theme == s.theme
  {
    s.(consigne := "", isConsigneVisible := false)
  }

  /** Changes the theme and nothing else. */
  function SetTheme(s: AppState, theme: Theme): (r: AppState)
    ensures r.theme == theme
    ensures r.consigne == s.consigne && r.isConsigneVisible == s.isConsigneVisible
  {
    s.(theme := theme)
  }

  /** Result of `useApp()`: the provided state, or the error it throws outside a provider. */
  datatype UseAppResult = Provided(state: AppState) | Thrown(message: string)

  const OutsideProviderMessage := "useApp doit être utilisé dans un AppProvider"

  /** `useApp` reads the nearest provider's value; with none it throws. */
  function UseApp(context: Option<AppState>): (r: UseAppResult)
    ensures r.Thrown? <==> context.None?
    ensures r.Provided? ==> r.state == context.value
    ensures r.Thrown? ==> r.message == OutsideProviderMessage
  {
    match context
    case None => Thrown(OutsideProviderMessage)
    case Some(s) => Provided(s)
  }

  /** Toggling twice restores the state. */
  lemma ToggleTwiceIsIdentity(s: AppState)
    ensures ToggleConsigneVisibility(ToggleConsigneVisibility(s)) == s
  {
  }

  /** Reset is idempotent and forgets any earlier instruction or visibility change. */
  lemma ResetAbsorbs(s: AppState, c: string)
    ensures ResetConsigne(ResetConsigne(s)) == ResetConsigne(s)
    ensures ResetConsigne(SetConsigne(s, c)) == ResetConsigne(s)
    ensures ResetConsigne(ToggleConsigneVisibility(s)) == ResetConsigne(s)
  {
  }

  /** After a reset the initial state's text and visibility are back, whatever the history. */
  lemma ResetRestoresInitial(s: AppState)
    ensures ResetConsigne(s) == SetTheme(InitialState, s.theme)
  {
  }

  /** Theme changes commute with every instruction action. */
  lemma ThemeCommutes(s: AppState, c: string, t: Theme)
    ensures SetTheme(SetConsigne(s, c), t) == SetConsigne(SetTheme(s, t), c)
    ensures SetTheme(ToggleConsigneVisibility(s), t) == ToggleConsigneVisibility(SetTheme(s, t))
    ensures SetTheme(ResetConsigne(s), t) == ResetConsigne(SetTheme(s, t))
  {
  }
}
