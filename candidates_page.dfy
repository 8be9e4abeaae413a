/** The candidates view's resume upload: picking a file and submitting it.
    The view's state is a class updated by the two handlers; the upload
    call is a parameter (its outcome), every call made is appended to
    `calls`, and every toast shown to `toasts`. */
module CandidatesPage {
  import opened Values

  /** A file chosen in the browser's file picker. */
  datatype PickedFile = PickedFile(name: string, size: nat)

  datatype ToastKind = Info | Success | Warning | Error
  datatype Toast = Toast(kind: ToastKind, text: string)

  const NoFileToast: Toast := Toast(Warning, "Please select a resume to upload.")
  const UploadingToast: Toast := Toast(Info, "Uploading and analyzing resume...")
  const DoneToast: Toast := Toast(Success, "Resume processed successfully!")
  const FailedToast: Toast := Toast(Error, "Upload failed. Check console for details.")

  class Page {
    var resumeFile: Option<PickedFile>
    var uploading: bool
    var result: Option<Value>
    var toasts: seq<Toast>
    var calls: seq<PickedFile>

    /** The state a fresh view starts in. */
    constructor ()
      ensures resumeFile.None? && !uploading && result.None? && toasts == [] && calls == []
    {
      resumeFile := None;
      uploading := false;
      result := None;
      toasts := [];
      calls := [];
    }

    /** The Submit button is disabled while an upload runs. */
    predicate SubmitEnabled()
      reads this
    {
      !uploading
    }

    /** `handleFileChange`: keep the first picked file (none when the
        picker was cancelled) and hide the previous result. */
    method HandleFileChange(files: seq<PickedFile>)
      modifies this
      ensures resumeFile == (if files == [] then None else Some(files[0]))
      ensures result.None?
      ensures uploading == old(uploading) && toasts == old(toasts) && calls == old(calls)
    {
      resumeFile := if files == [] then None else Some(files[0]);
      result := None;
    }

    /** `handleSubmit`. `outcome` is what `candidateResume` resolves to or
        throws. Without a file nothing is sent. Otherwise the file is sent
        once, with the view marked as uploading (so Submit is disabled)
        while the call runs (`busyDuringCall`), and the flag is cleared
        afterwards whatever the call did; a failed call keeps the previous
        result. */
    method HandleSubmit(outcome: Result<Value, string>) returns (ghost busyDuringCall: bool)
      modifies this
      ensures resumeFile == old(resumeFile)
      ensures old(resumeFile).None? ==>
        && toasts == old(toasts) + [NoFileToast] && calls == old(calls) && result == old(result)
        && uploading == old(uploading)
      ensures old(resumeFile).Some? ==>
        && calls == old(calls) + [old(resumeFile).value]
        && busyDuringCall && !uploading
        && (outcome.Ok? ==> result == Some(outcome.value) && toasts == old(toasts) + [UploadingToast, DoneToast])
        && (outcome.Err? ==> result == old(result) && toasts == old(toasts) + [UploadingToast, FailedToast])
    {
      busyDuringCall := false;
      if resumeFile.None? {
        toasts := toasts + [NoFileToast];
        return;
      }
      uploading := true;
      toasts := toasts + [UploadingToast];
      calls := calls + [resumeFile.value];
      busyDuringCall := !SubmitEnabled();
      if outcome.Ok? {
        result := Some(outcome.value);
        toasts := toasts + [DoneToast];
      } else {
        toasts := toasts + [FailedToast];
      }
      uploading := false;
    }
  }
}
