/** The image-type check `get_image_mime_type` of app.py. Decoding the bytes
    is not modelled: the input is the format name the image library reports,
    or None when it reports none or cannot open the bytes. */
module Mime {
  import opened Wrappers

  /** The MIME type for a JPEG or PNG image; None for any other format. */
  function MimeType(format: Option<string>): (r: Option<string>)
    ensures r == Some("image/jpeg") <==> format == Some("JPEG")
    ensures r == Some("image/png") <==> format == Some("PNG")
    ensures r.Some? ==> r == Some("image/jpeg") || r == Some("image/png")
  {
    match format
    case Some("JPEG") => Some("image/jpeg")
    case Some("PNG") => Some("image/png")
    case _ => None
  }
}
