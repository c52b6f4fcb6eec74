/**
 * What the image and video widgets share: the file a file input hands over, the
 * caption bar, and the caption-editing rule.
 */
module Media {
  import opened JsString

  /** The first selected file: its MIME type and its size in bytes. */
  datatype FileInfo = FileInfo(mimeType: string, size: nat)

  /** What the caption bar of a widget shows. */
  datatype CaptionLine = EditingInput(draft: string) | Label(text: string)

  const LoadErrorLabel := "Erreur de chargement"

  /** A caption as the widgets keep it: non-empty, with no white space at either end. */
  predicate IsCaption(c: string) {
    c != [] && !IsSpace(c[0]) && !IsSpace(c[|c| - 1])
  }

  /** `saveCaption`: the trimmed draft replaces the caption unless the draft is blank. */
  function SavedCaption(caption: string, draft: string): (r: string)
    ensures AllSpace(draft) ==> r == caption
    ensures !AllSpace(draft) ==> r == Trim(draft) && r != []
  {
    var t := Trim(draft);
    if t != [] then t else caption
  }

  /** Saving keeps a caption well formed, whatever the draft. */
  lemma {:induction false} SavedCaptionIsCaption(caption: string, draft: string)
    requires IsCaption(caption)
    ensures IsCaption(SavedCaption(caption, draft))
  {
  }

  /** Opening the editor (which copies the caption into the draft) and saving at once changes nothing. */
  lemma {:induction false} EditUnchangedKeepsCaption(caption: string)
    requires IsCaption(caption)
    ensures SavedCaption(caption, caption) == caption
  {
    TrimOfTrimmed(caption);
  }
}
