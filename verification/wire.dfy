/** The request format of the completion endpoint (`MessagesToSend`): role-tagged
    turns whose content is a plain string or a list of typed parts. */
module Wire {
  import opened Wrappers
  import opened Types

  /** One element of a turn's content list. `TextPart` is `{type: 'text', text}`
      and `ImageUrlPart` is `{type: 'image_url', image_url: {url}}`. `NullPart`
      and `EmptyStringPart` are the falsy values `null` and `''` that an
      expression `attachment && part` leaves in the list when there is no
      attachment. */
  datatype ContentPart =
    | TextPart(text: string)
    | ImageUrlPart(url: string)
    | NullPart
    | EmptyStringPart

  datatype Content = Plain(s: string) | Parts(parts: seq<ContentPart>)

  datatype Turn = Turn(role: Role, content: Content)

  /** Every image travels as an inline JPEG data URI. */
  const DataUriPrefix: string := "data:image/jpeg;base64,"

  /** `data:image/jpeg;base64,${image}`. */
  function DataUri(image: string): (url: string)
    ensures |url| == |DataUriPrefix| + |image|
    ensures url[..|DataUriPrefix|] == DataUriPrefix
    ensures url[|DataUriPrefix|..] == image
  {
    DataUriPrefix + image
  }

  /** The base64 payload of a JPEG data URI, or None for any other url. */
  function PayloadOf(url: string): (r: Option<string>)
    ensures r.Some? <==> |DataUriPrefix| <= |url| && url[..|DataUriPrefix|] == DataUriPrefix
  {
    if |DataUriPrefix| <= |url| && url[..|DataUriPrefix|] == DataUriPrefix
    then Some(url[|DataUriPrefix|..])
    else None
  }

  /** Decoding a data URI gives back the image it was built from. */
  lemma DataUriRoundTrip(image: string)
    ensures PayloadOf(DataUri(image)) == Some(image)
  {
  }

  /** One `image_url` part per image, in image order. */
  function ImageParts(images: seq<string>): (ps: seq<ContentPart>)
    ensures |ps| == |images|
    ensures forall i :: 0 <= i < |ps| ==> ps[i] == ImageUrlPart(DataUri(images[i]))
  {
    seq(|images|, i requires 0 <= i < |images| => ImageUrlPart(DataUri(images[i])))
  }

  /** The text a turn carries: a plain string, or the text of its leading text part. */
  function TextOf(c: Content): Option<string> {
    match c
    case Plain(s) => Some(s)
    case Parts(ps) => if |ps| > 0 && ps[0].TextPart? then Some(ps[0].text) else None
  }

  /** The image payloads of the data-URI parts of a part list, in order. */
  function ImagesIn(ps: seq<ContentPart>): seq<string> {
    if |ps| == 0 then []
    else
      (if ps[0].ImageUrlPart? && PayloadOf(ps[0].url).Some?
       then [PayloadOf(ps[0].url).value] else [])
      + ImagesIn(ps[1..])
  }

  /** The images a turn carries. */
  function ImagesOfContent(c: Content): seq<string> {
    match c
    case Plain(_) => []
    case Parts(ps) => ImagesIn(ps)
  }

  /** Image parts decode back to exactly the images they were built from, in order. */
  lemma {:induction false} ImagePartsRoundTrip(images: seq<string>)
    ensures ImagesIn(ImageParts(images)) == images
  {
    if |images| > 0 {
      DataUriRoundTrip(images[0]);
      assert ImageParts(images)[1..] == ImageParts(images[1..]);
      ImagePartsRoundTrip(images[1..]);
    }
  }

  /** A leading text part contributes no image. */
  lemma TextThenImages(text: string, images: seq<string>)
    ensures ImagesIn([TextPart(text)] + ImageParts(images)) == images
  {
    assert ([TextPart(text)] + ImageParts(images))[1..] == ImageParts(images);
    ImagePartsRoundTrip(images);
  }
}
