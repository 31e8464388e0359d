/** The upload control of components/FileUpload.tsx: the `disabled` guard and
    media-type allow-list of `handleFile`, the first-file selection of the
    drop and change handlers, and the `dragActive` flag driven by drag
    events. Calling `onFileSelect` is modelled as the `Forwarded` result and
    the `alert` as the `Rejected` result. */
module FileUpload {
  import opened Types

  /** The parts of a browser file handle the control looks at. */
  datatype File = File(name: string, mimeType: string)

  /** The media types `handleFile` accepts. */
  const ValidTypes: seq<string> := ["application/pdf", "image/jpeg", "image/png", "image/webp", "image/heic"]

  /** The text of the alert shown for any other type. */
  const RejectMessage: string := "Please upload a PDF or an image file (JPG, PNG)."

  /** What one handled event does: pass one file to `onFileSelect`, alert
      the user, or nothing at all. */
  datatype Handling = Forwarded(file: File) | Rejected(message: string) | Ignored

  /** `handleFile`: nothing while disabled; otherwise the file is forwarded,
      unchanged, when its type is on the allow-list, and the alert is shown
      when it is not. */
  function HandleFile(disabled: bool, file: File): (r: Handling)
    ensures disabled ==> r == Ignored
    ensures r.Forwarded? <==> !disabled && file.mimeType in ValidTypes
    ensures r.Forwarded? ==> r.file == file
    ensures r.Rejected? <==> !disabled && file.mimeType !in ValidTypes
    ensures r.Rejected? ==> r.message == RejectMessage
  {
    if disabled then Ignored
    else if file.mimeType !in ValidTypes then Rejected(RejectMessage)
    else Forwarded(file)
  }

  /** The allow-list is exactly these five types: a file reaches
      `onFileSelect` if and only if the control is enabled and its type is
      one of them. */
  lemma AllowListExactly(disabled: bool, file: File)
    ensures HandleFile(disabled, file).Forwarded? <==>
      !disabled && (file.mimeType == "application/pdf" || file.mimeType == "image/jpeg"
        || file.mimeType == "image/png" || file.mimeType == "image/webp" || file.mimeType == "image/heic")
  {
  }

  /** `files && files[0]`: the first file of the list, if there is a list
      and it is not empty. */
  function FirstFile(files: Option<seq<File>>): (r: Option<File>)
    ensures r.Some? <==> files.Some? && |files.value| > 0
    ensures r.Some? ==> r.value == files.value[0]
  {
    match files
    case None => None
    case Some(fs) => if |fs| == 0 then None else Some(fs[0])
  }

  /** What a drop or change event hands to `handleFile`. */
  function Forward(disabled: bool, files: Option<seq<File>>): Handling
  {
    match FirstFile(files)
    case None => Ignored
    case Some(f) => HandleFile(disabled, f)
  }

  /** Only element 0 of the list matters: the files after it are never
      looked at, and a missing or empty list forwards nothing. */
  lemma ForwardFirstOnly(disabled: bool, fs: seq<File>, more: seq<File>)
    ensures Forward(disabled, Some(fs + more)) == if |fs| > 0 then Forward(disabled, Some(fs[..1])) else Forward(disabled, Some(more))
    ensures Forward(disabled, None) == Forward(disabled, Some([])) == Ignored
  {
    if |fs| > 0 {
      assert (fs + more)[0] == fs[..1][0];
    } else {
      assert fs + more == more;
    }
  }

  /** At most the first file is forwarded, unchanged, and only when the
      control is enabled and its type is allowed. */
  lemma ForwardedIsFirstAllowed(disabled: bool, files: Option<seq<File>>)
    ensures Forward(disabled, files).Forwarded? <==>
      !disabled && files.Some? && |files.value| > 0 && files.value[0].mimeType in ValidTypes
    ensures Forward(disabled, files).Forwarded? ==> Forward(disabled, files).file == files.value[0]
  {
  }

  /** The flag after one drag event: raised by `dragenter` and `dragover`,
      lowered by `dragleave`, kept by any other type. */
  function DragAfter(active: bool, eventType: string): bool
  {
    if eventType == "dragenter" || eventType == "dragover" then true
    else if eventType == "dragleave" then false
    else active
  }

  /** Whether an event type moves the flag. */
  predicate Moves(eventType: string)
  {
    eventType == "dragenter" || eventType == "dragover" || eventType == "dragleave"
  }

  /** The flag after a sequence of drag events. */
  function DragAfterAll(active: bool, events: seq<string>): bool
    decreases |events|
  {
    if |events| == 0 then active else DragAfterAll(DragAfter(active, events[0]), events[1..])
  }

  /** Events that do not move the flag leave it as it was. */
  lemma {:induction false} DragAfterAllStill(active: bool, events: seq<string>)
    requires forall j :: 0 <= j < |events| ==> !Moves(events[j])
    ensures DragAfterAll(active, events) == active
    decreases |events|
  {
    if |events| > 0 {
      DragAfterAllStill(DragAfter(active, events[0]), events[1..]);
    }
  }

  /** After a sequence of drag events the flag is decided by the last event
      that moves it: raised if that was `dragenter` or `dragover`, lowered if
      it was `dragleave`, whatever the flag and the events before it. */
  lemma {:induction false} DragAfterAllLastDecides(active: bool, events: seq<string>, k: nat)
    requires k < |events| && Moves(events[k])
    requires forall j :: k < j < |events| ==> !Moves(events[j])
    ensures DragAfterAll(active, events) == (events[k] != "dragleave")
    decreases k
  {
    if k == 0 {
      DragAfterAllStill(DragAfter(active, events[0]), events[1..]);
    } else {
      DragAfterAllLastDecides(DragAfter(active, events[0]), events[1..], k - 1);
    }
  }

  /** The upload control: its `disabled` property and its `dragActive`
      state variable. */
  class UploadControl {
    const disabled: bool
    var dragActive: bool

    constructor (disabled: bool)
      ensures this.disabled == disabled && !dragActive
    {
      this.disabled := disabled;
      dragActive := false;
    }

    /** `handleDrag`: the flag follows the event type. */
    method HandleDrag(eventType: string)
      modifies this
      ensures dragActive == DragAfter(old(dragActive), eventType)
    {
      if eventType == "dragenter" || eventType == "dragover" {
        dragActive := true;
      } else if eventType == "dragleave" {
        dragActive := false;
      }
    }

    /** `handleDrop`: the flag is lowered and the first dropped file, if
        any, goes through `handleFile`. */
    method HandleDrop(files: Option<seq<File>>) returns (r: Handling)
      modifies this
      ensures !dragActive
      ensures r == Forward(disabled, files)
    {
      dragActive := false;
      match files
      case None =>
        r := Ignored;
      case Some(fs) =>
        if |fs| == 0 {
          r := Ignored;
        } else {
          r := HandleFile(disabled, fs[0]);
        }
    }

    /** `handleChange`: the first chosen file, if any, goes through
        `handleFile`; the flag is not touched. */
    method HandleChange(files: Option<seq<File>>) returns (r: Handling)
      ensures r.Forwarded? ==> !disabled && files.Some? && |files.value| > 0 && r.file == files.value[0]
      ensures r == Forward(disabled, files)
    {
      if files.Some? && |files.value| > 0 {
        r := HandleFile(disabled, files.value[0]);
      } else {
        r := Ignored;
      }
    }
  }
}
