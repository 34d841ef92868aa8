/** The preview of a tool result shown in the progress log (`result_preview`
    in app.py). The two JSON serialisations of the result, compact and
    indented by two spaces, are inputs: the serialiser is not modelled. */
module Preview {
  import opened Text

  const PreviewLimit: nat := 500
  const Ellipsis: string := "..."

  /** The indented serialisation, cut to its first 500 characters and marked
      with "..." when the compact serialisation is longer than 500 characters. */
  function ResultPreview(compact: string, indented: string): (r: string)
    ensures |compact| <= PreviewLimit ==> r == indented
    ensures |compact| > PreviewLimit ==>
      && |r| == (if |indented| < PreviewLimit then |indented| else PreviewLimit) + |Ellipsis|
      && StartsWith(indented, r[..|r| - |Ellipsis|])
      && r[|r| - |Ellipsis|..] == Ellipsis
  {
    if |compact| > PreviewLimit then Take(indented, PreviewLimit) + Ellipsis else indented
  }

  /** Indenting only adds characters, so whenever the compact form is cut the
      preview is exactly 503 characters: 500 of the indented form and "...". */
  lemma TruncatedLength(compact: string, indented: string)
    requires |indented| >= |compact| > PreviewLimit
    ensures |ResultPreview(compact, indented)| == PreviewLimit + |Ellipsis|
    ensures ResultPreview(compact, indented) == indented[..PreviewLimit] + Ellipsis
  {
  }
}
