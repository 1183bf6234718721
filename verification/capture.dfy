/**
 * `ClipboardDataChanged`: what happens when the clipboard viewer is told
 * the clipboard changed. The clipboard, the clock and the store are
 * outside the model: the data object, `DateTime.Now` and the point at
 * which a call into them throws are parameters, and the histories the
 * store is asked to save are the result.
 */
module Capture {

  import opened Base
  import opened Text

  /**
   * What `Clipboard.GetDataObject()` returns when it is not null: whether
   * it offers `DataFormats.Text`, and the string `GetData` then returns
   * (`None` for a null string).
   */
  datatype DataObject = DataObject(hasText: bool, text: Option<string>)

  /** A new `History` row: its content and its creation time. */
  datatype History = History(content: string, createdAt: int)

  /**
   * Where a call outside the model throws, if anywhere: reading the
   * clipboard, `SaveHistory`, or the menu rebuild that follows it.
   */
  datatype Fault = NoFault | ReadFault | SaveFault | RefreshFault

  /** The text the handler keeps from a clipboard data object, if any. */
  function CapturedText(clip: Option<DataObject>): Option<string>
  {
    match clip
    case None => None
    case Some(data) =>
      if !data.hasText then None
      else match data.text
        case None => None
        case Some(t) => if t == "" then None else Some(t)
  }

  /** The histories a change of the clipboard adds when nothing throws. */
  function Captured(clip: Option<DataObject>, now: int): seq<History>
  {
    match CapturedText(clip)
    case None => []
    case Some(t) => [History(t, now)]
  }

  /**
   * `ClipboardDataChanged` as the source runs it: early returns on a null
   * data object, on data without text and on a null or empty string;
   * otherwise one history is saved and the tray menu rebuilt. An exception
   * anywhere ends the handler and is swallowed: `saved` is what reached
   * the store, `refreshed` whether the menu was rebuilt.
   */
  method ClipboardDataChanged(clip: Option<DataObject>, now: int, fault: Fault)
    returns (saved: seq<History>, refreshed: bool)
    ensures saved == (if fault == ReadFault || fault == SaveFault then [] else Captured(clip, now))
    ensures refreshed <==> saved != [] && fault != RefreshFault
  {
    saved := [];
    refreshed := false;
    if fault == ReadFault {
      return;
    }
    if clip.None? {
      return;
    }
    var data := clip.value;
    if data.hasText {
      var content := data.text;
      if content.None? || content.value == "" {
        return;
      }
      var history := History(content.value, now);
      if fault == SaveFault {
        return;
      }
      saved := saved + [history];
      if fault == RefreshFault {
        return;
      }
      refreshed := true;
    }
  }

  /**
   * A change saves at most one history, and saves one exactly when the data
   * object offers a non-empty text; its content is that text as it was on
   * the clipboard, and its time the time of the change.
   */
  lemma CapturedSpec(clip: Option<DataObject>, now: int)
    ensures |Captured(clip, now)| <= 1
    ensures Captured(clip, now) != [] <==>
      clip.Some? && clip.value.hasText && clip.value.text.Some? && clip.value.text.value != []
    ensures Captured(clip, now) != [] ==>
      Captured(clip, now) == [History(clip.value.text.value, now)]
  {
  }

  /** Nothing is saved for a null data object, data without text, a null string or `""`. */
  lemma NothingCaptured(data: DataObject, now: int)
    ensures Captured(None, now) == []
    ensures !data.hasText ==> Captured(Some(data), now) == []
    ensures Captured(Some(DataObject(true, None)), now) == []
    ensures Captured(Some(DataObject(true, Some(""))), now) == []
  {
  }

  /**
   * Text made only of white space is still saved, untrimmed, although the
   * menu shows it with an empty title.
   */
  lemma {:induction false} WhiteSpaceCaptured(t: string, now: int, maxTitle: int)
    requires t != [] && maxTitle >= 0
    requires forall i :: 0 <= i < |t| ==> IsWhiteSpace(t[i])
    ensures Captured(Some(DataObject(true, Some(t))), now) == [History(t, now)]
    ensures MenuTitle(t, maxTitle) == []
  {
    TrimSpec(t);
    assert Trim(t) == [];
  }
}
