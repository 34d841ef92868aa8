/** The consumer of the analysis progress stream (`analyze_with_streaming_progress`
    in app.py): it folds the text updates produced by the analysis generator
    into the frames shown by the three output panes (report, status, logs). */
module Progress {
  import opened Wrappers
  import opened Text

  /** The uploaded picture, as the bytes handed to the analysis. */
  type Picture = seq<bv8>

  /** The status pane. The source shows the elapsed seconds; the model keeps
      only which of the three messages is shown. */
  datatype Status = Processing | Completed | NoImage

  /** One output of the consumer: what the report, status and logs panes show. */
  datatype Frame = Frame(report: string, status: Status, logs: string)

  const UploadError: string := "❌ **Error:** Please upload an image first."
  const LogsPlaceholder: string := "Logs will appear here during processing..."
  const ProcessingMessage: string :=
    "🔄 **Processing in progress...**\n\nAnalyzing prescription image and fetching medicine information.\n\n*Check the Processing Logs section below for detailed step-by-step progress.*"
  const NoLogsAfterReport: string := "Processing completed successfully!"
  const NoLogsAtEnd: string := "Processing completed."
  const FallbackReport: string := "Analysis completed. Please check the processing logs for details."
  const LogSeparator: string := "\n\n"

  /** The content-sniffing test for "this update is the final report".
      Python's `and` binds tighter than `or`, so the length bound applies to
      the "Medicine" test alone. */
  function IsReport(u: string): (r: bool)
    ensures r <==>
      || StartsWith(u, "# ")
      || StartsWith(u, "## ")
      || ((exists i :: OccursAt(u, "Medicine", i)) && |u| > 100)
      || (exists i :: OccursAt(u, "Description", i))
      || (exists i :: OccursAt(u, "Price", i))
      || (exists i :: OccursAt(u, "Duration", i))
  {
    StartsWith(u, "# ")
    || StartsWith(u, "## ")
    || (Contains(u, "Medicine") && |u| > 100)
    || Contains(u, "Description")
    || Contains(u, "Price")
    || Contains(u, "Duration")
  }

  /** The position of the first update that reads as a report, if any. */
  function FirstReport(updates: seq<string>): (r: Option<nat>)
    ensures r.Some? ==> r.value < |updates| && IsReport(updates[r.value])
    ensures r.Some? ==> forall i :: 0 <= i < r.value ==> !IsReport(updates[i])
    ensures r.None? ==> forall i :: 0 <= i < |updates| ==> !IsReport(updates[i])
    decreases |updates|
  {
    if updates == [] then None
    else if IsReport(updates[0]) then Some(0)
    else match FirstReport(updates[1..])
      case None => None
      case Some(j) => Some(j + 1)
  }

  /** The frame shown while the update at position `i` is a log line: the fixed
      processing message and every log so far, oldest first. */
  function ProcessingFrame(updates: seq<string>, i: nat): Frame
    requires i < |updates|
  {
    Frame(ProcessingMessage, Processing, Join(LogSeparator, updates[..i + 1]))
  }

  /** The length bound belongs to the "Medicine" test alone: an update that
      passes none of the other tests is a report exactly when it mentions
      "Medicine" and is longer than 100 characters, while a mention of
      "Description", "Price" or "Duration" makes an update of any length a report. */
  lemma ReportPrecedence(u: string)
    ensures !StartsWith(u, "# ") && !StartsWith(u, "## ")
            && !Contains(u, "Description") && !Contains(u, "Price") && !Contains(u, "Duration")
            ==> (IsReport(u) <==> Contains(u, "Medicine") && |u| > 100)
    ensures Contains(u, "Description") || Contains(u, "Price") || Contains(u, "Duration") ==> IsReport(u)
  {
  }

  /** Consecutive log frames: the logs pane of the next one is the previous
      pane, the separator and the new update, so every log stays in arrival order. */
  lemma LogsAccumulate(updates: seq<string>, i: nat)
    requires i + 1 < |updates|
    ensures ProcessingFrame(updates, i + 1).logs
         == ProcessingFrame(updates, i).logs + LogSeparator + updates[i + 1]
  {
    assert updates[..i + 2] == updates[..i + 1] + [updates[i + 1]];
    JoinSnoc(LogSeparator, updates[..i + 1], updates[i + 1]);
  }

  /** Every update logged so far is visible in the logs pane of a log frame,
      and the pane of a later log frame starts with the pane of an earlier one. */
  lemma LogsPaneKeepsHistory(updates: seq<string>, i: nat, j: nat)
    requires i <= j < |updates|
    ensures Contains(ProcessingFrame(updates, j).logs, updates[i])
    ensures StartsWith(ProcessingFrame(updates, j).logs, ProcessingFrame(updates, i).logs)
  {
    var prefix := updates[..j + 1];
    assert prefix[i] == updates[i];
    JoinShowsEach(LogSeparator, prefix, i);
    JoinPrefix(LogSeparator, prefix, i + 1);
    assert prefix[..i + 1] == updates[..i + 1];
  }

  /** Runs the consumer on the uploaded image (None when nothing was uploaded)
      and on the updates the analysis generator would yield. `frames` are the
      outputs in order; `consumed` is how many updates the loop pulled from the
      generator. */
  method Consume(image: Option<Picture>, updates: seq<string>) returns (frames: seq<Frame>, consumed: nat)
    ensures image.None? ==>
      frames == [Frame(UploadError, NoImage, LogsPlaceholder)] && consumed == 0
    ensures image.Some? && FirstReport(updates).Some? ==>
      var j := FirstReport(updates).value;
      && consumed == j + 1
      && |frames| == j + 1
      && (forall i :: 0 <= i < j ==> frames[i] == ProcessingFrame(updates, i))
      && frames[j] == Frame(updates[j], Completed, if j == 0 then NoLogsAfterReport else Join(LogSeparator, updates[..j]))
    ensures image.Some? && FirstReport(updates).None? ==>
      var n := |updates|;
      && consumed == n
      && |frames| == n + 1
      && (forall i :: 0 <= i < n ==> frames[i] == ProcessingFrame(updates, i))
      && frames[n] == Frame(
           if n > 0 && |updates[n - 1]| > 50 then updates[n - 1] else FallbackReport,
           Completed,
           if n == 0 then NoLogsAtEnd else Join(LogSeparator, updates))
  {
    frames, consumed := [], 0;
    if image.None? {
      frames := [Frame(UploadError, NoImage, LogsPlaceholder)];
      return;
    }
    var logs: seq<string> := [];
    var report := "";
    while consumed < |updates|
      invariant consumed <= |updates|
      invariant logs == updates[..consumed]
      invariant forall i :: 0 <= i < consumed ==> !IsReport(updates[i])
      invariant |frames| == consumed
      invariant forall i :: 0 <= i < consumed ==> frames[i] == ProcessingFrame(updates, i)
      invariant report == ""
    {
      var u := updates[consumed];
      consumed := consumed + 1;
      if IsReport(u) {
        report := u;
        var finalLogs := if logs != [] then Join(LogSeparator, logs) else NoLogsAfterReport;
        frames := frames + [Frame(report, Completed, finalLogs)];
        return;
      }
      logs := logs + [u];
      frames := frames + [Frame(ProcessingMessage, Processing, Join(LogSeparator, logs))];
    }
    assert logs == updates;
    if report == "" {
      var finalLogs := if logs != [] then Join(LogSeparator, logs) else NoLogsAtEnd;
      if logs != [] && |logs[|logs| - 1]| > 50 {
        frames := frames + [Frame(logs[|logs| - 1], Completed, finalLogs)];
      } else {
        frames := frames + [Frame(FallbackReport, Completed, finalLogs)];
      }
    }
  }
}
