/**
 * The video widget: a video chosen by file (at most 100 MiB) or by URL, platform
 * links embedded at once, direct files validated by a metadata probe, the player's
 * play and mute buttons, a placeholder when there is no video or it failed, and an
 * editable caption. The file reader's and the probe's callbacks are event methods.
 */
module Video {
  import opened JsString
  import opened Wrappers
  import opened Media
  import opened Keyboard
  import opened VideoUrl

  const DefaultCaption := "Vidéo"

  /** The largest accepted upload: 100 MiB. */
  const MaxVideoBytes := 100 * 1024 * 1024

  /** Only the platform kinds carry an embed URL. */
  predicate WellFormed(d: VideoData) {
    d.embedUrl.Some? <==> IsPlatform(d.kind)
  }

  /** The upload guard: a `video/` MIME type and a size within the limit. */
  predicate AcceptsUpload(file: FileInfo) {
    StartsWith(file.mimeType, "video/") && file.size <= MaxVideoBytes
  }

  /** What a URL submit does: nothing, adopt the classified video at once, or probe it first. */
  datatype Submission = Ignored | Adopted(video: VideoData) | Probing(video: VideoData)

  /**
   * The decision of the URL submit handler: a blank input is ignored; otherwise the
   * trimmed input is classified, and only a direct file URL is probed before use.
   */
  function SubmitUrl(urlInput: string, hostname: string): (r: Submission)
    ensures r == Ignored <==> AllSpace(urlInput)
    ensures r != Ignored ==> r.video == DetectVideoType(urlInput, hostname) && WellFormed(r.video)
    ensures r.Probing? <==> !AllSpace(urlInput) && DetectVideoType(urlInput, hostname).kind == Direct
  {
    var trimmed := Trim(urlInput);
    if trimmed == [] then Ignored
    else
      // The handler classifies the trimmed input, which classification trims again:
      // trimming twice is trimming once (DetectIgnoresSurroundingSpace).
      var detected := Classify(trimmed, hostname);
      if detected.kind == Direct then Probing(detected) else Adopted(detected)
  }

  /** The main area, in the order the render tests it. */
  datatype Body =
    | Spinner
    | Embedded(embedUrl: string)
    | Player(url: string, showsOpenButton: bool)
    | NotFound

  /** The caption bar and, for a shown non-file video, the kind badge. */
  datatype VideoView = VideoView(body: Body, captionLine: CaptionLine, badge: Option<VideoKind>)

  /** Render-state selection: loading first, then the video if one is set without error, else the placeholder. */
  function ViewOf(isLoading: bool, videoData: Option<VideoData>, videoError: bool, caption: string,
                  isEditingCaption: bool, tempCaption: string): (v: VideoView)
    ensures v.body.Spinner? <==> isLoading
    ensures v.body.Embedded? <==> !isLoading && videoData.Some? && !videoError && videoData.value.embedUrl.Some?
    ensures v.body.Embedded? ==> v.body.embedUrl == videoData.value.embedUrl.value
    ensures v.body.Player? <==> !isLoading && videoData.Some? && !videoError && videoData.value.embedUrl.None?
    ensures v.body.Player? ==> v.body.url == videoData.value.url && (v.body.showsOpenButton <==> videoData.value.kind == Direct)
    ensures v.body.NotFound? <==> !isLoading && (videoData.None? || videoError)
    ensures v.captionLine.EditingInput? <==> isEditingCaption
    ensures !isEditingCaption && v.body.NotFound? && videoError ==> v.captionLine == Label(LoadErrorLabel)
    ensures !isEditingCaption && !(v.body.NotFound? && videoError) ==> v.captionLine == Label(caption)
    ensures v.badge.Some? <==> !isEditingCaption && (v.body.Embedded? || v.body.Player?) && videoData.value.kind != File
    ensures v.badge.Some? ==> v.badge.value == videoData.value.kind
  {
    var body :=
      if isLoading then Spinner
      else if videoData.Some? && !videoError then
        if videoData.value.embedUrl.Some? then Embedded(videoData.value.embedUrl.value)
        else Player(videoData.value.url, videoData.value.kind == Direct)
      else NotFound;
    var line :=
      if isEditingCaption then EditingInput(tempCaption)
      else if body.NotFound? && videoError then Label(LoadErrorLabel)
      else Label(caption);
    var badge :=
      if !isEditingCaption && (body.Embedded? || body.Player?) && videoData.value.kind != File
      then Some(videoData.value.kind) else None;
    VideoView(body, line, badge)
  }

  class VideoWidget {
    var videoData: Option<VideoData>
    var showUrlInput: bool
    var urlInput: string
    var isLoading: bool
    var videoError: bool
    var caption: string
    var isEditingCaption: bool
    var tempCaption: string
    var isPlaying: bool
    var isMuted: bool

    ghost predicate Valid()
      reads this
    {
      IsCaption(caption) && (videoData.Some? ==> WellFormed(videoData.value))
    }

    constructor ()
      ensures Valid()
      ensures videoData.None? && !showUrlInput && urlInput == "" && !isLoading && !videoError
      ensures caption == DefaultCaption && !isEditingCaption && tempCaption == ""
      ensures !isPlaying && !isMuted
    {
      videoData := None;
      showUrlInput := false;
      urlInput := "";
      isLoading := false;
      videoError := false;
      caption := DefaultCaption;
      isEditingCaption := false;
      tempCaption := "";
      isPlaying := false;
      isMuted := false;
    }

    function View(): VideoView
      reads this
    {
      ViewOf(isLoading, videoData, videoError, caption, isEditingCaption, tempCaption)
    }

    /** The `<video>` element (and so the media ref) exists exactly when a non-embedded video is shown. */
    predicate HasMediaElement()
      reads this
    {
      View().body.Player?
    }

    /** The remove button is offered when a video is set and nothing is loading. */
    predicate CanRemove()
      reads this
    {
      videoData.Some? && !isLoading
    }

    /** The URL field's change event. */
    method SetUrlInput(value: string)
      requires Valid()
      modifies this
      ensures Valid() && urlInput == value
      ensures videoData == old(videoData) && showUrlInput == old(showUrlInput)
      ensures isLoading == old(isLoading) && videoError == old(videoError)
      ensures caption == old(caption) && isEditingCaption == old(isEditingCaption) && tempCaption == old(tempCaption)
      ensures isPlaying == old(isPlaying) && isMuted == old(isMuted)
    {
      urlInput := value;
    }

    /**
     * A file chosen in the file input: an accepted file starts loading (clearing the
     * error) and a reader; a file of another type, a too large file or no file is
     * refused with an alert and changes nothing.
     */
    method HandleVideoUpload(file: Option<FileInfo>) returns (readerStarted: bool)
      requires Valid()
      modifies this
      ensures Valid()
      ensures readerStarted <==> file.Some? && AcceptsUpload(file.value)
      ensures readerStarted ==> isLoading && !videoError
      ensures !readerStarted ==> isLoading == old(isLoading) && videoError == old(videoError)
      ensures videoData == old(videoData) && showUrlInput == old(showUrlInput) && urlInput == old(urlInput)
      ensures caption == old(caption) && isEditingCaption == old(isEditingCaption) && tempCaption == old(tempCaption)
      ensures isPlaying == old(isPlaying) && isMuted == old(isMuted)
    {
      readerStarted := false;
      if file.Some? && StartsWith(file.value.mimeType, "video/") {
        if file.value.size > MaxVideoBytes {
          return;
        }
        isLoading := true;
        videoError := false;
        readerStarted := true;
      }
    }

    /** The reader's load event: a non-empty data URL becomes the video, as an uploaded file. */
    method OnReaderLoad(result: string)
      requires Valid()
      modifies this
      ensures Valid()
      ensures result != "" ==> videoData == Some(VideoData(result, File, None)) && !isLoading
      ensures result == "" ==> videoData == old(videoData) && isLoading == old(isLoading)
      ensures videoError == old(videoError) && showUrlInput == old(showUrlInput) && urlInput == old(urlInput)
      ensures caption == old(caption) && isEditingCaption == old(isEditingCaption) && tempCaption == old(tempCaption)
      ensures isPlaying == old(isPlaying) && isMuted == old(isMuted)
    {
      if result != "" {
        videoData := Some(VideoData(result, File, None));
        isLoading := false;
      }
    }

    /** The reader's error event. */
    method OnReaderError()
      requires Valid()
      modifies this
      ensures Valid() && videoError && !isLoading
      ensures videoData == old(videoData) && showUrlInput == old(showUrlInput) && urlInput == old(urlInput)
      ensures caption == old(caption) && isEditingCaption == old(isEditingCaption) && tempCaption == old(tempCaption)
      ensures isPlaying == old(isPlaying) && isMuted == old(isMuted)
    {
      videoError := true;
      isLoading := false;
    }

    /**
     * URL submit, as decided by `SubmitUrl`: a blank field does nothing; a platform
     * link or a plain file URL is adopted at once (the box closes and empties, loading
     * ends); a direct file URL starts loading and a metadata probe, whose
     * classification is returned. Either way a non-blank submit clears the error.
     */
    method HandleUrlSubmit(hostname: string) returns (probe: Option<VideoData>)
      requires Valid()
      modifies this
      ensures Valid()
      ensures SubmitUrl(old(urlInput), hostname) == Ignored ==>
        && probe.None? && videoData == old(videoData) && urlInput == old(urlInput)
        && showUrlInput == old(showUrlInput) && isLoading == old(isLoading) && videoError == old(videoError)
      ensures SubmitUrl(old(urlInput), hostname).Adopted? ==>
        && probe.None? && videoData == Some(SubmitUrl(old(urlInput), hostname).video)
        && urlInput == "" && !showUrlInput && !isLoading && !videoError
      ensures SubmitUrl(old(urlInput), hostname).Probing? ==>
        && probe == Some(SubmitUrl(old(urlInput), hostname).video)
        && videoData == old(videoData) && urlInput == old(urlInput) && showUrlInput == old(showUrlInput)
        && isLoading && !videoError
      ensures caption == old(caption) && isEditingCaption == old(isEditingCaption) && tempCaption == old(tempCaption)
      ensures isPlaying == old(isPlaying) && isMuted == old(isMuted)
    {
      probe := None;
      var outcome := SubmitUrl(urlInput, hostname);
      match outcome
      case Ignored =>
      case Adopted(d) =>
        videoError := false;
        OnProbeLoaded(d);
      case Probing(d) =>
        isLoading, videoError := true, false;
        probe := Some(d);
    }

    /** The probe read the file's metadata: the probed video is adopted and the box closes and empties. */
    method OnProbeLoaded(detected: VideoData)
      requires Valid() && WellFormed(detected)
      modifies this
      ensures Valid()
      ensures videoData == Some(detected) && urlInput == "" && !showUrlInput && !isLoading
      ensures CanRemove()
      ensures videoError == old(videoError)
      ensures caption == old(caption) && isEditingCaption == old(isEditingCaption) && tempCaption == old(tempCaption)
      ensures isPlaying == old(isPlaying) && isMuted == old(isMuted)
    {
      videoData := Some(detected);
      urlInput := "";
      showUrlInput := false;
      isLoading := false;
    }

    /** The probe failed: the error is raised, the current video kept. */
    method OnProbeError()
      requires Valid()
      modifies this
      ensures Valid() && videoError && !isLoading
      ensures videoData == old(videoData) && showUrlInput == old(showUrlInput) && urlInput == old(urlInput)
      ensures caption == old(caption) && isEditingCaption == old(isEditingCaption) && tempCaption == old(tempCaption)
      ensures isPlaying == old(isPlaying) && isMuted == old(isMuted)
    {
      videoError := true;
      isLoading := false;
    }

    /** Keys in the URL field: Enter submits; Escape closes the box and clears the input and the error. */
    method HandleUrlKeyPress(key: Key, hostname: string) returns (probe: Option<VideoData>)
      requires Valid()
      modifies this
      ensures Valid()
      ensures key == Escape ==>
        && probe.None? && !showUrlInput && urlInput == "" && !videoError
        && videoData == old(videoData) && isLoading == old(isLoading)
      ensures key == OtherKey ==>
        && probe.None? && urlInput == old(urlInput) && showUrlInput == old(showUrlInput)
        && videoData == old(videoData) && videoError == old(videoError) && isLoading == old(isLoading)
      ensures key == Enter && SubmitUrl(old(urlInput), hostname) == Ignored ==>
        && probe.None? && videoData == old(videoData) && urlInput == old(urlInput)
        && showUrlInput == old(showUrlInput) && isLoading == old(isLoading) && videoError == old(videoError)
      ensures key == Enter && SubmitUrl(old(urlInput), hostname).Adopted? ==>
        && probe.None? && videoData == Some(SubmitUrl(old(urlInput), hostname).video)
        && urlInput == "" && !showUrlInput && !isLoading && !videoError
      ensures key == Enter && SubmitUrl(old(urlInput), hostname).Probing? ==>
        && probe == Some(SubmitUrl(old(urlInput), hostname).video)
        && videoData == old(videoData) && urlInput == old(urlInput) && showUrlInput == old(showUrlInput)
        && isLoading && !videoError
      ensures caption == old(caption) && isEditingCaption == old(isEditingCaption) && tempCaption == old(tempCaption)
      ensures isPlaying == old(isPlaying) && isMuted == old(isMuted)
    {
      probe := None;
      if key == Enter {
        probe := HandleUrlSubmit(hostname);
      }
      if key == Escape {
        showUrlInput := false;
        urlInput := "";
        videoError := false;
      }
    }

    /** Opening or closing the URL box always empties it and clears the error. */
    method ToggleUrlInput()
      requires Valid()
      modifies this
      ensures Valid()
      ensures showUrlInput == !old(showUrlInput) && urlInput == "" && !videoError
      ensures videoData == old(videoData) && isLoading == old(isLoading)
      ensures caption == old(caption) && isEditingCaption == old(isEditingCaption) && tempCaption == old(tempCaption)
      ensures isPlaying == old(isPlaying) && isMuted == old(isMuted)
    {
      showUrlInput := !showUrlInput;
      urlInput := "";
      videoError := false;
    }

    /** Removes the video and clears the error, loading and playing flags. */
    method RemoveVideo()
      requires Valid()
      modifies this
      ensures Valid()
      ensures videoData.None? && !videoError && !isLoading && !isPlaying
      ensures View().body == NotFound && !CanRemove()
      ensures showUrlInput == old(showUrlInput) && urlInput == old(urlInput) && isMuted == old(isMuted)
      ensures caption == old(caption) && isEditingCaption == old(isEditingCaption) && tempCaption == old(tempCaption)
    {
      videoData := None;
      videoError := false;
      isLoading := false;
      isPlaying := false;
    }

    /** Play/pause button: with a media element it flips the playing flag (and the element's state); else nothing. */
    method TogglePlayPause()
      requires Valid()
      modifies this
      ensures Valid()
      ensures old(HasMediaElement()) ==> isPlaying == !old(isPlaying)
      ensures !old(HasMediaElement()) ==> isPlaying == old(isPlaying)
      ensures videoData == old(videoData) && showUrlInput == old(showUrlInput) && urlInput == old(urlInput)
      ensures isLoading == old(isLoading) && videoError == old(videoError) && isMuted == old(isMuted)
      ensures caption == old(caption) && isEditingCaption == old(isEditingCaption) && tempCaption == old(tempCaption)
    {
      if HasMediaElement() {
        isPlaying := !isPlaying;
      }
    }

    /** Mute button: with a media element it flips the muted flag; else nothing. */
    method ToggleMute()
      requires Valid()
      modifies this
      ensures Valid()
      ensures old(HasMediaElement()) ==> isMuted == !old(isMuted)
      ensures !old(HasMediaElement()) ==> isMuted == old(isMuted)
      ensures videoData == old(videoData) && showUrlInput == old(showUrlInput) && urlInput == old(urlInput)
      ensures isLoading == old(isLoading) && videoError == old(videoError) && isPlaying == old(isPlaying)
      ensures caption == old(caption) && isEditingCaption == old(isEditingCaption) && tempCaption == old(tempCaption)
    {
      if HasMediaElement() {
        isMuted := !isMuted;
      }
    }

    /** The media element's play and pause events. */
    method OnMediaPlaying(playing: bool)
      requires Valid()
      modifies this
      ensures Valid() && isPlaying == playing
      ensures videoData == old(videoData) && showUrlInput == old(showUrlInput) && urlInput == old(urlInput)
      ensures isLoading == old(isLoading) && videoError == old(videoError) && isMuted == old(isMuted)
      ensures caption == old(caption) && isEditingCaption == old(isEditingCaption) && tempCaption == old(tempCaption)
    {
      isPlaying := playing;
    }

    /** The media element's error event: the placeholder replaces the player, the video is kept. */
    method OnMediaError()
      requires Valid()
      modifies this
      ensures Valid() && videoError
      ensures !isLoading ==> View().body == NotFound
      ensures videoData == old(videoData) && showUrlInput == old(showUrlInput) && urlInput == old(urlInput)
      ensures isLoading == old(isLoading) && isPlaying == old(isPlaying) && isMuted == old(isMuted)
      ensures caption == old(caption) && isEditingCaption == old(isEditingCaption) && tempCaption == old(tempCaption)
    {
      videoError := true;
    }

    /** Double-click on the caption: the draft starts as the current caption. */
    method StartEditingCaption()
      requires Valid()
      modifies this
      ensures Valid() && isEditingCaption && tempCaption == caption
      ensures caption == old(caption) && videoData == old(videoData) && showUrlInput == old(showUrlInput)
      ensures urlInput == old(urlInput) && isLoading == old(isLoading) && videoError == old(videoError)
      ensures isPlaying == old(isPlaying) && isMuted == old(isMuted)
    {
      tempCaption := caption;
      isEditingCaption := true;
    }

    /** The caption field's change event. */
    method SetTempCaption(value: string)
      requires Valid()
      modifies this
      ensures Valid() && tempCaption == value
      ensures caption == old(caption) && isEditingCaption == old(isEditingCaption)
      ensures videoData == old(videoData) && showUrlInput == old(showUrlInput)
      ensures urlInput == old(urlInput) && isLoading == old(isLoading) && videoError == old(videoError)
      ensures isPlaying == old(isPlaying) && isMuted == old(isMuted)
    {
      tempCaption := value;
    }

    /** Enter or blur: adopt the trimmed draft unless blank, then leave editing with an empty draft. */
    method SaveCaption()
      requires Valid()
      modifies this
      ensures Valid()
      ensures caption == SavedCaption(old(caption), old(tempCaption))
      ensures !isEditingCaption && tempCaption == ""
      ensures videoData == old(videoData) && showUrlInput == old(showUrlInput)
      ensures urlInput == old(urlInput) && isLoading == old(isLoading) && videoError == old(videoError)
      ensures isPlaying == old(isPlaying) && isMuted == old(isMuted)
    {
      var saved := SavedCaption(caption, tempCaption);
      SavedCaptionIsCaption(caption, tempCaption);
      assert IsCaption(saved);
      caption, isEditingCaption, tempCaption := saved, false, "";
    }

    /** Escape: leave editing with an empty draft, caption untouched. */
    method CancelEditingCaption()
      requires Valid()
      modifies this
      ensures Valid() && !isEditingCaption && tempCaption == ""
      ensures caption == old(caption) && videoData == old(videoData) && showUrlInput == old(showUrlInput)
      ensures urlInput == old(urlInput) && isLoading == old(isLoading) && videoError == old(videoError)
      ensures isPlaying == old(isPlaying) && isMuted == old(isMuted)
    {
      isEditingCaption := false;
      tempCaption := "";
    }

    /** Keys in the caption field: Enter saves, Escape cancels, anything else does nothing. */
    method HandleCaptionKeyPress(key: Key)
      requires Valid()
      modifies this
      ensures Valid()
      ensures key == Enter ==> caption == SavedCaption(old(caption), old(tempCaption)) && !isEditingCaption && tempCaption == ""
      ensures key == Escape ==> caption == old(caption) && !isEditingCaption && tempCaption == ""
      ensures key == OtherKey ==> caption == old(caption) && isEditingCaption == old(isEditingCaption) && tempCaption == old(tempCaption)
      ensures videoData == old(videoData) && showUrlInput == old(showUrlInput)
      ensures urlInput == old(urlInput) && isLoading == old(isLoading) && videoError == old(videoError)
      ensures isPlaying == old(isPlaying) && isMuted == old(isMuted)
    {
      if key == Enter {
        SaveCaption();
      }
      if key == Escape {
        CancelEditingCaption();
      }
    }
  }

  /** A short YouTube link typed in the URL box is embedded at once, without a probe. */
  method SubmitShortLink(id: string, hostname: string) returns (v: VideoView)
    requires id != [] && forall k :: 0 <= k < |id| ==> InClass(IdChars, id[k])
    requires !IsSpace(id[|id| - 1])
    ensures v.body == Embedded(YouTubeEmbed(id)) && v.badge == Some(YouTube)
  {
    var w := new VideoWidget();
    var url := "youtu.be/" + id;
    w.SetUrlInput(url);
    assert url[0] == 'y' && !IsSpace(url[0]) && url[|url| - 1] == id[|id| - 1];
    TrimOfTrimmed(url);
    ShortLinkClassified(id, hostname);
    assert DetectVideoType(url, hostname) == VideoData(url, YouTube, Some(YouTubeEmbed(id)));
    var probe := w.HandleUrlSubmit(hostname);
    v := w.View();
  }
}
