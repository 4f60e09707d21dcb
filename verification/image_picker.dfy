/** The image picker's result handling (src/components/ImagePickerModal.tsx):
    how a camera or gallery response changes the list of pending images. */
module ImagePicker {
  import opened Wrappers
  import opened Types
  import Seqs

  /** The gallery request asks for at most this many images; nothing else limits the list. */
  const GallerySelectionLimit: nat := 3

  /** A picked asset: its base64 content, when the picker provided one. */
  datatype Asset = Asset(base64: Option<string>)

  /** A picker response: cancelled, failed with an error code, or carrying assets. */
  datatype PickerResponse = PickerResponse(didCancel: bool, errorCode: Option<string>, assets: Option<seq<Asset>>)

  /** `assets.map(a => a.base64!)`, with an absent string written as `''`:
      both are falsy, so the filter that follows drops them alike. */
  function Base64Strings(assets: seq<Asset>): (r: seq<string>)
    ensures |r| == |assets|
    ensures forall i :: 0 <= i < |assets| ==> r[i] == assets[i].base64.GetOr("")
  {
    seq(|assets|, i requires 0 <= i < |assets| => assets[i].base64.GetOr(""))
  }

  predicate NonEmpty(u: string) {
    u != ""
  }

  /** `assets.map(a => a.base64!).filter(u => !!u)`: the present, non-empty
      base64 strings, in asset order. Every string comes from an asset, and
      every usable asset contributes its string. */
  function EncodedImages(assets: seq<Asset>): (r: seq<string>)
    ensures |r| <= |assets|
    ensures forall k :: 0 <= k < |r| ==> r[k] != ""
    ensures forall k :: 0 <= k < |r| ==> exists j :: 0 <= j < |assets| && assets[j].base64 == Some(r[k])
    ensures forall j :: 0 <= j < |assets| && Truthy(assets[j].base64) ==> assets[j].base64.value in r
    ensures |assets| == 0 ==> r == []
    ensures |assets| == 1 ==> r == (if Truthy(assets[0].base64) then [assets[0].base64.value] else [])
  {
    var strings := Base64Strings(assets);
    var r := Seqs.Filter(NonEmpty, strings);
    assert forall k :: 0 <= k < |r| ==> exists j :: 0 <= j < |assets| && assets[j].base64 == Some(r[k]) by {
      forall k | 0 <= k < |r|
        ensures exists j :: 0 <= j < |assets| && assets[j].base64 == Some(r[k])
      {
        var j :| 0 <= j < |strings| && strings[j] == r[k];
        assert assets[j].base64 == Some(r[k]);
      }
    }
    r
  }

  /** Picking in two batches yields the images of both, in order: with the
      one-asset case this fixes order and multiplicity. */
  lemma {:induction false} EncodedImagesAppend(a: seq<Asset>, b: seq<Asset>)
    ensures EncodedImages(a + b) == EncodedImages(a) + EncodedImages(b)
  {
    assert Base64Strings(a + b) == Base64Strings(a) + Base64Strings(b);
    Seqs.FilterAppend(NonEmpty, Base64Strings(a), Base64Strings(b));
  }

  /** `handleImagePickerResponse`: a cancel (checked first) or an error leaves
      the list alone; otherwise the usable images of the assets are appended
      after the existing ones. */
  function HandlePickerResponse(images: seq<string>, response: PickerResponse): (r: seq<string>)
    ensures response.didCancel ==> r == images
    ensures Truthy(response.errorCode) ==> r == images
    ensures response.assets.None? ==> r == images
    ensures |r| >= |images| && r[..|images|] == images
    ensures !response.didCancel && !Truthy(response.errorCode) && response.assets.Some? ==>
      r[|images|..] == EncodedImages(response.assets.value)
  {
    if response.didCancel then images
    else if Truthy(response.errorCode) then images
    else if response.assets.Some? && |response.assets.value| > 0 then
      images + EncodedImages(response.assets.value)
    else images
  }

  /** A successful response grows the list by the images of its assets, at
      most one per asset, and a gallery response that respects its selection
      limit by at most 3. */
  lemma PickerGrowth(images: seq<string>, response: PickerResponse)
    requires !response.didCancel && !Truthy(response.errorCode) && response.assets.Some?
    ensures HandlePickerResponse(images, response) == images + EncodedImages(response.assets.value)
    ensures |HandlePickerResponse(images, response)| <= |images| + |response.assets.value|
    ensures |response.assets.value| <= GallerySelectionLimit ==>
      |HandlePickerResponse(images, response)| <= |images| + GallerySelectionLimit
  {
    var r := HandlePickerResponse(images, response);
    assert r == r[..|images|] + r[|images|..];
  }

  /** No cap per message: three pending images and one more picked make four. */
  lemma NoAttachmentCap(a: string, b: string, c: string, d: string)
    requires d != ""
    ensures |HandlePickerResponse([a, b, c], PickerResponse(false, None, Some([Asset(Some(d))])))| == 4
  {
  }
}
