# MedGuide AI prescription analyser: verified model of its sequential logic

The application reads a prescription photo with a multimodal chat model,
looks medicines up with a web-search service, and streams progress to a
three-pane web page. Almost all of `app.py` is glue around those services.
This project models the parts of `app.py` whose behaviour can be stated, and
proves properties of them:

- **Progress-stream consumer** (`Progress`, from `analyze_with_streaming_progress`).
  It folds the text updates of the analysis generator into frames for the
  report, status and logs panes. An update counts as "the final report" by
  sniffing its content. Other updates are logged and echoed, joined by a
  blank line. The first report ends the stream. When no report arrives, a
  fallback frame follows. The generator's output is an arbitrary `seq<string>`.
  The heuristic is kept exactly as written. It would also take a progress log
  for the report, for instance a tool-result preview whose scraped text
  contains "Price".
  The status pane is a tag (`Processing`, `Completed`, `NoImage`), not the
  elapsed-time text. The uploaded image is an `Option`.
- **Medicine lookup and batch collection** (`Lookup`, from `get_medicine_info_fast`
  and `get_multiple_medicines_concurrent`). The search call is represented
  by its outcome: a first hit's fields, no hits, or an exception. Each
  future's completion is `Done(outcome)` or `Raised(message)`. The order in
  which `as_completed` yields the futures is any reordering of the submitted
  positions. The collection loop is a sequential loop over that order.
- **Tool-result preview** (`Preview`, from the `result_preview` expression).
  The compact and the indented JSON serialisations are inputs.
- **Image MIME mapping** (`Mime`, from `get_image_mime_type`). The input is
  the format name the image library reports.
- `Text` holds the Python string operations used above (`startswith`, `in`,
  slicing, `join`), counted in code points as Python's `len` is.

## Model

| member | source | states |
|---|---|---|
| Text.Contains | app.py:291-294 | `sub in s` holds exactly when `sub` occurs at some position of `s` |
| Text.Take | app.py:207 | `s[:n]` has length `min(n, len(s))` and is a prefix of `s` |
| Text.JoinSnoc | app.py:302-305 | appending one log extends the joined text by `"\n\n"` and that log, or is the log itself when it is the first |
| Text.JoinPrefix | app.py:302-305 | the join of a prefix of the log list is a prefix of the join of the whole list |
| Text.JoinShowsEach | app.py:297-305 | every element of a list occurs in its join |
| Progress.IsReport | app.py:289-294 | an update is the final report exactly when it starts with "# " or "## ", or contains "Medicine" and is longer than 100 characters, or contains "Description", "Price" or "Duration"; the length bound applies only to the "Medicine" test |
| Progress.FirstReport | app.py:284-299 | the position of the first update classified as a report: it is a report and no earlier update is; None exactly when no update is a report |
| Progress.ReportPrecedence | app.py:289-294 | `and` binds tighter than `or`: the 100-character bound applies only to the "Medicine" test, and "Description", "Price" or "Duration" make an update a report at any length |
| Progress.Consume | app.py:263-315 | no image: one frame (upload error, NoImage, logs placeholder) and no update consumed; first report at position j: j log frames then the report with Completed and the earlier logs joined (or "Processing completed successfully!"), j + 1 updates consumed; no report among n updates: n log frames then one Completed frame whose report is the last log if it is longer than 50 characters and the fixed fallback text otherwise, with logs joined (or "Processing completed.") |
| Progress.LogsAccumulate | app.py:300-305 | each log frame's logs pane is the previous pane, `"\n\n"` and the new update |
| Progress.LogsPaneKeepsHistory | app.py:302-305 | a log frame's pane shows every update logged so far and starts with every earlier pane |
| Lookup.MedicineInfo | app.py:24-47 | the record keeps the input name; status is "success" or "error", and "error" exactly when the search raised; on error the fields are "Error fetching data", "N/A" and "Error: " + message; on success each field is the hit's value or "N/A" when the key or the whole hit is missing |
| Lookup.FutureRecord | app.py:60-74 | a future that returned contributes its lookup record unchanged; one whose `result()` raised yields a record with the submitted name, "Timeout or error", "N/A", "Error: " + message and status "error"; the status is "success" only for a future that returned a successful lookup |
| Lookup.PermutationBounds | app.py:56-60 | a completion order that yields every submitted future once has one entry per name, each a valid position |
| Lookup.SelectPermuted | app.py:56-75 | reordering positions does not change the multiset of names they select |
| Lookup.CollectAll | app.py:50-75 | a worker count below 1 raises "max_workers must be greater than 0" and collects nothing; otherwise exactly one record per submitted name, the k-th being the record of the k-th completed future; the multiset of returned names equals the multiset of submitted names, duplicates included, whatever the completion order |
| Preview.ResultPreview | app.py:207 | compact form of at most 500 characters: the whole indented form; longer: the first min(500, length) characters of the indented form followed by "..." |
| Preview.TruncatedLength | app.py:207 | when the indented form is at least as long as a compact form over 500 characters, the preview is the indented form's first 500 characters and "...", 503 characters in all |
| Mime.MimeType | app.py:124-134 | "image/jpeg" exactly for format JPEG, "image/png" exactly for PNG, and None for every other format or an unreadable image |

## Left out

- The web UI (`main`, `show_initial_processing`, event wiring): widget framework code with no logic of its own.
- The chat session and its tool-call loop in `analyze_prescription_streaming`, including `json.loads` of tool arguments and dispatch through `tools_map`: these are driven by an external service. The generator's output enters the consumer as an arbitrary sequence of updates.
- The search service call itself: only its outcome (hit, no hit, exception) is modelled.
- The thread pool's scheduling under the `max_workers` ceiling and the 30-second `result()` timeout: these concern concurrency and wall-clock time. What remains is an arbitrary completion order and a possible per-future exception. The `max_workers` argument itself is modelled: it defaults to 5 or is supplied by the caller, and a value below 1 makes the function raise instead of returning one record per name.
- A `max_workers` of `None`, which the pool would replace with its own default: the tool schema only allows an integer, and the model takes an `int`.
- Elapsed-time measurement and its float formatting in the status pane: replaced by the status tag.
- Image decoding and re-encoding and base64 encoding: library calls. `Mime.MimeType` receives the format name the library would report.
- JSON serialisation: the preview receives both serialisations as strings.
- Prompt text and the medical disclaimer: content, not behaviour.
