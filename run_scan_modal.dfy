/** The "Run Scan" dialog of the inbound page: confirm, wait while the
    server processes the inbound files, then show the result or the error.
    The scan call itself is external; its settled outcome is passed in. */
module ScanDialog {
  import opened Common
  import opened Records
  import opened ApiConfig

  const NoFilesMessage := "No files found to process"
  const ScanFailedMessage := "Failed to run scan"

  /** How the scan call settled: the server's answer, or what it threw. */
  type ScanOutcome = Result<ProcessScanResponse, Thrown>

  /** What the dialog makes of the outcome: a completed scan with the
      message to show, or an error text. */
  datatype Settlement = Completed(message: string) | Failed(error: string)

  /** The catch logic of `handleRunScan`: an answer completes the scan with
      its message; a 422 response ("nothing to process") completes it too,
      with the server's message or a default; any other response fails with
      the server's message or a default; an error with no response fails
      with its own message, or a default when it is not an Error. */
  function Classify(outcome: ScanOutcome): (s: Settlement)
    ensures outcome.Success? ==> s == Completed(outcome.value.message)
    ensures outcome.Failure? && outcome.error.response.Some? && outcome.error.response.value.status == 422 ==>
      s == Completed(OrElse(outcome.error.response.value.message, NoFilesMessage))
    ensures outcome.Failure? && outcome.error.response.Some? && outcome.error.response.value.status != 422 ==>
      s == Failed(OrElse(outcome.error.response.value.message, ScanFailedMessage))
    ensures outcome.Failure? && outcome.error.response.None? ==>
      s == Failed(ErrorText(outcome.error, ScanFailedMessage))
  {
    match outcome
    case Success(r) => Completed(r.message)
    case Failure(err) =>
      match err.response
      case Some(resp) =>
        if resp.status == 422 then Completed(OrElse(resp.message, NoFilesMessage))
        else Failed(OrElse(resp.message, ScanFailedMessage))
      case None => Failed(ErrorText(err, ScanFailedMessage))
  }

  /** A scan completes exactly when the call answered or was refused with 422. */
  lemma CompletesIff(outcome: ScanOutcome)
    ensures Classify(outcome).Completed? <==>
      outcome.Success? || (outcome.error.response.Some? && outcome.error.response.value.status == 422)
  {
  }

  /** Every message a refused call produces is non-empty: the server's own
      when it sent one, else the default. */
  lemma ResponseTextsNonEmpty(outcome: ScanOutcome)
    requires outcome.Failure? && outcome.error.response.Some?
    ensures match Classify(outcome)
      case Completed(m) => m != ""
      case Failed(e) => e != ""
  {
  }

  /** The view the dialog shows. */
  datatype DialogView = ErrorView(error: string) | ResultView(message: string) | ProgressView | ConfirmView

  class RunScanModal {
    var isScanning: bool
    var scanComplete: bool
    var scanMessage: string
    var error: Option<string>
    /** How many times `onScanComplete` has been called. */
    var completions: nat
    /** How many times the dialog asked its owner to close it. */
    var closeRequests: nat

    /** The dialog in its confirmation state. */
    predicate Initial()
      reads this
    {
      !isScanning && !scanComplete && scanMessage == "" && error.None?
    }

    constructor ()
      ensures Initial() && completions == 0 && closeRequests == 0
    {
      isScanning, scanComplete, scanMessage, error := false, false, "", None;
      completions, closeRequests := 0, 0;
    }

    /** `renderContent`: an error (a non-empty one) wins, then a completed
        scan, then the progress view, and the confirmation otherwise. */
    function RenderContent(): (v: DialogView)
      reads this
      ensures v.ErrorView? <==> Truthy(error)
      ensures v.ErrorView? ==> v.error == error.value
      ensures v.ResultView? <==> !Truthy(error) && scanComplete
      ensures v.ResultView? ==> v.message == scanMessage
      ensures v == ProgressView <==> !Truthy(error) && !scanComplete && isScanning
      ensures v == ConfirmView <==> !Truthy(error) && !scanComplete && !isScanning
    {
      if Truthy(error) then ErrorView(error.value)
      else if scanComplete then ResultView(scanMessage)
      else if isScanning then ProgressView
      else ConfirmView
    }

    /** The part of `handleRunScan` before the call is awaited. */
    method BeginScan()
      modifies this
      ensures isScanning && error.None?
      ensures scanComplete == old(scanComplete) && scanMessage == old(scanMessage)
      ensures completions == old(completions) && closeRequests == old(closeRequests)
    {
      isScanning := true;
      error := None;
    }

    /** The part of `handleRunScan` after the call settled: a completed scan
        records its message and notifies the owner once; a failure records
        the error and leaves the completion flag alone; scanning ends either
        way. */
    method SettleScan(outcome: ScanOutcome)
      modifies this
      ensures !isScanning && closeRequests == old(closeRequests)
      ensures Classify(outcome).Completed? ==>
        scanComplete && scanMessage == Classify(outcome).message &&
        error == old(error) && completions == old(completions) + 1
      ensures Classify(outcome).Failed? ==>
        error == Some(Classify(outcome).error) && scanComplete == old(scanComplete) &&
        scanMessage == old(scanMessage) && completions == old(completions)
    {
      var s := Classify(outcome);
      match s {
        case Completed(m) =>
          scanMessage := m;
          scanComplete := true;
          completions := completions + 1;
        case Failed(e) =>
          error := Some(e);
      }
      isScanning := false;
    }

    /** `handleRunScan` as a whole. A failure whose text is empty leaves no
        visible error, so a dialog that was confirming shows the
        confirmation again. */
    method RunScan(outcome: ScanOutcome)
      modifies this
      ensures !isScanning && closeRequests == old(closeRequests)
      ensures Classify(outcome).Completed? ==>
        scanComplete && scanMessage == Classify(outcome).message && error.None? &&
        completions == old(completions) + 1 && RenderContent() == ResultView(scanMessage)
      ensures Classify(outcome).Failed? ==>
        error == Some(Classify(outcome).error) && scanComplete == old(scanComplete) &&
        scanMessage == old(scanMessage) && completions == old(completions)
      ensures Classify(outcome).Failed? && Classify(outcome).error != "" ==>
        RenderContent() == ErrorView(Classify(outcome).error)
      ensures Classify(outcome) == Failed("") && !old(scanComplete) ==> RenderContent() == ConfirmView
    {
      BeginScan();
      SettleScan(outcome);
    }

    /** `handleClose`: ask the owner to close, and return every field to its
        initial value (the source waits 300 ms before the reset). */
    method HandleClose()
      modifies this
      ensures Initial() && RenderContent() == ConfirmView
      ensures completions == old(completions) && closeRequests == old(closeRequests) + 1
    {
      closeRequests := closeRequests + 1;
      isScanning := false;
      scanComplete := false;
      scanMessage := "";
      error := None;
    }
  }
}
