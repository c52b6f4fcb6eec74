/**
 * The image widget: an image chosen by URL (validated by a preload probe) or by
 * file, a placeholder when there is none or it failed, and an editable caption.
 * The probe's and the file reader's callbacks are modelled as event methods.
 */
module Picture {
  import opened JsString
  import opened Wrappers
  import opened Media
  import opened Keyboard

  const DefaultCaption := "Image"

  /** The main area of the widget, in the order the render tests it. */
  datatype Body = Spinner | Image(url: string) | NotFound

  datatype PictureView = PictureView(body: Body, captionLine: CaptionLine)

  /** Render-state selection: loading first, then an image if one is set without error, else the placeholder. */
  function ViewOf(isLoading: bool, imageUrl: string, imageError: bool, caption: string,
                  isEditingCaption: bool, tempCaption: string): (v: PictureView)
    ensures v.body.Spinner? <==> isLoading
    ensures v.body.Image? <==> !isLoading && imageUrl != "" && !imageError
    ensures v.body.Image? ==> v.body.url == imageUrl
    ensures v.captionLine.EditingInput? <==> isEditingCaption
    ensures v.captionLine == Label(LoadErrorLabel) <== !isEditingCaption && !isLoading && imageError
    ensures !isEditingCaption && !(v.body.NotFound? && imageError) ==> v.captionLine == Label(caption)
  {
    var body :=
      if isLoading then Spinner
      else if imageUrl != "" && !imageError then Image(imageUrl)
      else NotFound;
    var line :=
      if isEditingCaption then EditingInput(tempCaption)
      else if body.NotFound? && imageError then Label(LoadErrorLabel)
      else Label(caption);
    PictureView(body, line)
  }

  class PictureWidget {
    var imageUrl: string
    var showUrlInput: bool
    var urlInput: string
    var isLoading: bool
    var imageError: bool
    var caption: string
    var isEditingCaption: bool
    var tempCaption: string

    ghost predicate Valid()
      reads this
    {
      IsCaption(caption)
    }

    constructor ()
      ensures Valid()
      ensures imageUrl == "" && !showUrlInput && urlInput == "" && !isLoading && !imageError
      ensures caption == DefaultCaption && !isEditingCaption && tempCaption == ""
    {
      imageUrl := "";
      showUrlInput := false;
      urlInput := "";
      isLoading := false;
      imageError := false;
      caption := DefaultCaption;
      isEditingCaption := false;
      tempCaption := "";
    }

    function View(): PictureView
      reads this
    {
      ViewOf(isLoading, imageUrl, imageError, caption, isEditingCaption, tempCaption)
    }

    /** The remove button is offered when an image is set and nothing is loading. */
    predicate CanRemove()
      reads this
    {
      imageUrl != "" && !isLoading
    }

    /** The URL field's change event. */
    method SetUrlInput(value: string)
      requires Valid()
      modifies this
      ensures Valid() && urlInput == value
      ensures imageUrl == old(imageUrl) && showUrlInput == old(showUrlInput)
      ensures isLoading == old(isLoading) && imageError == old(imageError)
      ensures caption == old(caption) && isEditingCaption == old(isEditingCaption)
      ensures tempCaption == old(tempCaption)
    {
      urlInput := value;
    }

    /**
     * A file chosen in the file input: only an `image/` file starts a reader;
     * anything else is refused with an alert. No state changes either way.
     */
    method HandleImageUpload(file: Option<FileInfo>) returns (readerStarted: bool)
      ensures readerStarted <==> file.Some? && StartsWith(file.value.mimeType, "image/")
    {
      readerStarted := file.Some? && StartsWith(file.value.mimeType, "image/");
    }

    /** The reader's load event: a non-empty result becomes the image; the error flag is left as it was. */
    method OnFileRead(result: string)
      requires Valid()
      modifies this
      ensures Valid()
      ensures result != "" ==> imageUrl == result && !isLoading
      ensures result == "" ==> imageUrl == old(imageUrl) && isLoading == old(isLoading)
      ensures imageError == old(imageError) && urlInput == old(urlInput)
      ensures showUrlInput == old(showUrlInput) && caption == old(caption)
      ensures isEditingCaption == old(isEditingCaption) && tempCaption == old(tempCaption)
    {
      if result != "" {
        imageUrl := result;
        isLoading := false;
      }
    }

    /** The reader's error event. */
    method OnFileReadError()
      requires Valid()
      modifies this
      ensures Valid() && imageError && !isLoading
      ensures imageUrl == old(imageUrl) && urlInput == old(urlInput)
      ensures showUrlInput == old(showUrlInput) && caption == old(caption)
      ensures isEditingCaption == old(isEditingCaption) && tempCaption == old(tempCaption)
    {
      imageError := true;
      isLoading := false;
    }

    /**
     * URL submit: a blank field does nothing; otherwise loading starts, the error is
     * cleared and a probe is started on the trimmed URL, which is returned.
     */
    method HandleUrlSubmit() returns (probe: Option<string>)
      requires Valid()
      modifies this
      ensures Valid()
      ensures AllSpace(old(urlInput)) ==> probe.None? && isLoading == old(isLoading) && imageError == old(imageError)
      ensures !AllSpace(old(urlInput)) ==> probe == Some(Trim(old(urlInput))) && isLoading && !imageError
      ensures imageUrl == old(imageUrl) && urlInput == old(urlInput)
      ensures showUrlInput == old(showUrlInput) && caption == old(caption)
      ensures isEditingCaption == old(isEditingCaption) && tempCaption == old(tempCaption)
    {
      probe := None;
      var trimmed := Trim(urlInput);
      if trimmed != [] {
        isLoading := true;
        imageError := false;
        probe := Some(trimmed);
      }
    }

    /** The probe loaded: its URL becomes the image, the URL box closes and empties. */
    method OnProbeLoad(probedUrl: string)
      requires Valid()
      modifies this
      ensures Valid()
      ensures imageUrl == probedUrl && urlInput == "" && !showUrlInput && !isLoading
      ensures CanRemove() <==> probedUrl != ""
      ensures imageError == old(imageError) && caption == old(caption)
      ensures isEditingCaption == old(isEditingCaption) && tempCaption == old(tempCaption)
    {
      imageUrl := probedUrl;
      urlInput := "";
      showUrlInput := false;
      isLoading := false;
    }

    /** The probe failed: the error is raised and the current image kept. */
    method OnProbeError()
      requires Valid()
      modifies this
      ensures Valid() && imageError && !isLoading
      ensures imageUrl == old(imageUrl) && urlInput == old(urlInput)
      ensures showUrlInput == old(showUrlInput) && caption == old(caption)
      ensures isEditingCaption == old(isEditingCaption) && tempCaption == old(tempCaption)
    {
      imageError := true;
      isLoading := false;
    }

    /** Keys in the URL field: Enter submits; Escape closes the box and clears the input and the error. */
    method HandleUrlKeyPress(key: Key) returns (probe: Option<string>)
      requires Valid()
      modifies this
      ensures Valid()
      ensures key == Escape ==> probe.None? && !showUrlInput && urlInput == "" && !imageError
      ensures key == Escape ==> isLoading == old(isLoading)
      ensures key == OtherKey ==> probe.None? && urlInput == old(urlInput) && showUrlInput == old(showUrlInput)
      ensures key == OtherKey ==> imageError == old(imageError) && isLoading == old(isLoading)
      ensures key == Enter && AllSpace(old(urlInput)) ==> probe.None? && isLoading == old(isLoading)
      ensures key == Enter && AllSpace(old(urlInput)) ==> imageError == old(imageError)
      ensures key == Enter && !AllSpace(old(urlInput)) ==> probe == Some(Trim(old(urlInput))) && isLoading && !imageError
      ensures key == Enter ==> urlInput == old(urlInput) && showUrlInput == old(showUrlInput)
      ensures imageUrl == old(imageUrl) && caption == old(caption)
      ensures isEditingCaption == old(isEditingCaption) && tempCaption == old(tempCaption)
    {
      probe := None;
      if key == Enter {
        probe := HandleUrlSubmit();
      }
      if key == Escape {
        showUrlInput := false;
        urlInput := "";
        imageError := false;
      }
    }

    /** Opening or closing the URL box always empties it and clears the error. */
    method ToggleUrlInput()
      requires Valid()
      modifies this
      ensures Valid()
      ensures showUrlInput == !old(showUrlInput) && urlInput == "" && !imageError
      ensures imageUrl == old(imageUrl) && isLoading == old(isLoading) && caption == old(caption)
      ensures isEditingCaption == old(isEditingCaption) && tempCaption == old(tempCaption)
    {
      showUrlInput := !showUrlInput;
      urlInput := "";
      imageError := false;
    }

    /** Removes the image and clears the error and loading flags. */
    method RemoveImage()
      requires Valid()
      modifies this
      ensures Valid()
      ensures imageUrl == "" && !imageError && !isLoading
      ensures View().body == NotFound && !CanRemove()
      ensures showUrlInput == old(showUrlInput) && urlInput == old(urlInput) && caption == old(caption)
      ensures isEditingCaption == old(isEditingCaption) && tempCaption == old(tempCaption)
    {
      imageUrl := "";
      imageError := false;
      isLoading := false;
    }

    /** Double-click on the caption: the draft starts as the current caption. */
    method StartEditingCaption()
      requires Valid()
      modifies this
      ensures Valid() && isEditingCaption && tempCaption == caption
      ensures caption == old(caption) && imageUrl == old(imageUrl) && showUrlInput == old(showUrlInput)
      ensures urlInput == old(urlInput) && isLoading == old(isLoading) && imageError == old(imageError)
    {
      tempCaption := caption;
      isEditingCaption := true;
    }

    /** The caption field's change event. */
    method SetTempCaption(value: string)
      requires Valid()
      modifies this
      ensures Valid() && tempCaption == value
      ensures caption == old(caption) && isEditingCaption == old(isEditingCaption)
      ensures imageUrl == old(imageUrl) && showUrlInput == old(showUrlInput)
      ensures urlInput == old(urlInput) && isLoading == old(isLoading) && imageError == old(imageError)
    {
      tempCaption := value;
    }

    /** Enter or blur: adopt the trimmed draft unless blank, then leave editing with an empty draft. */
    method SaveCaption()
      requires Valid()
      modifies this
      ensures Valid()
      ensures caption == SavedCaption(old(caption), old(tempCaption))
      ensures !isEditingCaption && tempCaption == ""
      ensures imageUrl == old(imageUrl) && showUrlInput == old(showUrlInput)
      ensures urlInput == old(urlInput) && isLoading == old(isLoading) && imageError == old(imageError)
    {
      var saved := SavedCaption(caption, tempCaption);
      SavedCaptionIsCaption(caption, tempCaption);
      assert IsCaption(saved);
      caption, isEditingCaption, tempCaption := saved, false, "";
    }

    /** Escape: leave editing with an empty draft, caption untouched. */
    method CancelEditingCaption()
      requires Valid()
      modifies this
      ensures Valid() && !isEditingCaption && tempCaption == ""
      ensures caption == old(caption) && imageUrl == old(imageUrl) && showUrlInput == old(showUrlInput)
      ensures urlInput == old(urlInput) && isLoading == old(isLoading) && imageError == old(imageError)
    {
      isEditingCaption := false;
      tempCaption := "";
    }

    /** Keys in the caption field: Enter saves, Escape cancels, anything else does nothing. */
    method HandleCaptionKeyPress(key: Key)
      requires Valid()
      modifies this
      ensures Valid()
      ensures key == Enter ==> caption == SavedCaption(old(caption), old(tempCaption)) && !isEditingCaption && tempCaption == ""
      ensures key == Escape ==> caption == old(caption) && !isEditingCaption && tempCaption == ""
      ensures key == OtherKey ==> caption == old(caption) && isEditingCaption == old(isEditingCaption) && tempCaption == old(tempCaption)
      ensures imageUrl == old(imageUrl) && showUrlInput == old(showUrlInput)
      ensures urlInput == old(urlInput) && isLoading == old(isLoading) && imageError == old(imageError)
    {
      if key == Enter {
        SaveCaption();
      }
      if key == Escape {
        CancelEditingCaption();
      }
    }
  }

  /**
   * A URL whose probe fails, followed by a successful file upload, leaves the error
   * flag set: the placeholder with the load-error label is shown instead of the file.
   */
  method UploadAfterFailedUrl(file: FileInfo, dataUrl: string) returns (v: PictureView)
    requires StartsWith(file.mimeType, "image/") && dataUrl != ""
    ensures v == PictureView(NotFound, Label(LoadErrorLabel))
  {
    var w := new PictureWidget();
    w.SetUrlInput("https://example.org/missing.png");
    var probe := w.HandleUrlSubmit();
    w.OnProbeError();
    var started := w.HandleImageUpload(Some(file));
    assert started;
    w.OnFileRead(dataUrl);
    v := w.View();
  }

  /** A successful URL submit shows the probed, trimmed URL as the image. */
  method SubmitThenLoadShowsImage(input: string) returns (v: PictureView)
    requires !AllSpace(input)
    ensures v.body == Image(Trim(input)) && v.captionLine == Label(DefaultCaption)
  {
    var w := new PictureWidget();
    w.SetUrlInput(input);
    var probe := w.HandleUrlSubmit();
    w.OnProbeLoad(probe.value);
    assert Trim(input) != [];
    v := w.View();
  }
}
