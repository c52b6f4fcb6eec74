/**
 * The instruction widget: a text area whose submitted, trimmed text becomes the
 * global instruction, then a display mode with a width slider and hideable buttons.
 */
module Consigne {
  import opened JsString
  import opened AppContext

  const SliderMin := 10
  const SliderMax := 100
  const SliderDefault := 50

  /**
   * Box width in pixels for slider value `s`: the source computes `200 + (s / 100) * 1000`
   * on reals; the integer result is that value exactly.
   */
  function BoxWidth(s: int): (w: int)
    ensures w * 100 == 200 * 100 + s * 1000
  {
    200 + 10 * s
  }

  /** Over the slider's range the box is between 300 and 1200 pixels wide, growing with the slider. */
  lemma BoxWidthRange(s: int, s': int)
    requires SliderMin <= s <= s' <= SliderMax
    ensures 300 <= BoxWidth(s) <= BoxWidth(s') <= 1200
  {
  }

  /** The instruction is displayed (instead of the form) when it is visible and non-empty. */
  predicate IsDisplayMode(state: AppState) {
    state.isConsigneVisible && state.consigne != ""
  }

  /** Submitting non-blank text always leads to display mode, showing the trimmed text. */
  lemma {:induction false} SubmitShowsInstruction(state: AppState, input: string)
    requires !AllSpace(input)
    ensures IsDisplayMode(SetConsigne(state, Trim(input)))
    ensures SetConsigne(state, Trim(input)).consigne == Trim(input)
  {
    assert Trim(input) != [];
  }

  /** After a reset the form is shown again. */
  lemma ResetLeavesDisplayMode(state: AppState)
    ensures !IsDisplayMode(ResetConsigne(state))
  {
  }

  class ConsigneBox {
    var inputValue: string
    var showSlider: bool
    var showButtons: bool
    var sliderValue: int

    ghost predicate Valid()
      reads this
    {
      SliderMin <= sliderValue <= SliderMax
    }

    constructor ()
      ensures Valid()
      ensures inputValue == "" && !showSlider && showButtons && sliderValue == SliderDefault
    {
      inputValue := "";
      showSlider := false;
      showButtons := true;
      sliderValue := SliderDefault;
    }

    /** The text area's change event. */
    method SetInputValue(value: string)
      modifies this
      ensures inputValue == value
      ensures showSlider == old(showSlider) && showButtons == old(showButtons)
      ensures sliderValue == old(sliderValue)
    {
      inputValue := value;
    }

    /** Form submit: non-blank input becomes the trimmed instruction and the input is cleared. */
    method HandleSubmit(app: AppState) returns (app': AppState)
      modifies this
      ensures !AllSpace(old(inputValue)) ==> app' == SetConsigne(app, Trim(old(inputValue))) && inputValue == ""
      ensures AllSpace(old(inputValue)) ==> app' == app && inputValue == old(inputValue)
      ensures showSlider == old(showSlider) && showButtons == old(showButtons)
      ensures sliderValue == old(sliderValue)
    {
      app' := app;
      var trimmed := Trim(inputValue);
      if trimmed != [] {
        app' := SetConsigne(app, trimmed);
        inputValue := "";
      }
    }

    /** Resets the global instruction and clears the local input. */
    method HandleReset(app: AppState) returns (app': AppState)
      modifies this
      ensures app' == ResetConsigne(app) && inputValue == ""
      ensures showSlider == old(showSlider) && showButtons == old(showButtons)
      ensures sliderValue == old(sliderValue)
    {
      app' := ResetConsigne(app);
      inputValue := "";
    }

    method HandleToggleSlider()
      modifies this
      ensures showSlider == !old(showSlider)
      ensures inputValue == old(inputValue) && showButtons == old(showButtons)
      ensures sliderValue == old(sliderValue)
    {
      showSlider := !showSlider;
    }

    /** Flips the buttons; showing them again also closes the slider. */
    method HandleToggleButtons()
      modifies this
      ensures showButtons == !old(showButtons)
      ensures showSlider == (old(showSlider) && old(showButtons))
      ensures inputValue == old(inputValue) && sliderValue == old(sliderValue)
    {
      var wasShown := showButtons;
      showButtons := !showButtons;
      if !wasShown {
        showSlider := false;
      }
    }

    /** The slider's change event; the slider only produces values in its range. */
    method SetSliderValue(value: int)
      requires Valid()
      requires SliderMin <= value <= SliderMax
      modifies this
      ensures Valid() && sliderValue == value
      ensures inputValue == old(inputValue) && showSlider == old(showSlider)
      ensures showButtons == old(showButtons)
    {
      sliderValue := value;
    }

    /** Width of the displayed box, always within 300..1200 pixels. */
    function Width(): (w: int)
      requires Valid()
      reads this
      ensures 300 <= w <= 1200
    {
      BoxWidthRange(sliderValue, sliderValue);
      BoxWidth(sliderValue)
    }
  }
}
