/** The pending-image strip (src/components/ImageList.tsx): removing one image by position. */
module ImageList {

  /** `images.filter((_, index) => index !== i)`: the list without the element
      at position `i`; an index outside the list removes nothing. */
  function RemoveImage(images: seq<string>, i: int): (r: seq<string>)
    decreases |images|
    ensures 0 <= i < |images| ==> |r| == |images| - 1 && r[..i] == images[..i] && r[i..] == images[i + 1..]
    ensures !(0 <= i < |images|) ==> r == images
  {
    if |images| == 0 then []
    else (if i == 0 then [] else [images[0]]) + RemoveImage(images[1..], i - 1)
  }

  /** Removal is by position: every other element stays, equal strings included. */
  lemma RemoveImageKeepsOthers(images: seq<string>, i: int, j: int)
    requires 0 <= i < |images| && 0 <= j < |images| && j != i
    ensures images[j] in RemoveImage(images, i)
  {
    var r := RemoveImage(images, i);
    if j < i {
      assert r[j] == images[j];
    } else {
      assert r[j - 1] == images[j];
    }
  }

  /** The list loses exactly one occurrence of the removed image; every other
      string keeps its number of occurrences. */
  lemma RemoveImageMultiset(images: seq<string>, i: int, x: string)
    requires 0 <= i < |images|
    ensures multiset(RemoveImage(images, i))[x] == multiset(images)[x] - (if x == images[i] then 1 else 0)
  {
    var r := RemoveImage(images, i);
    SplitAt(images, i);
    assert r == images[..i] + images[i + 1..];
    assert multiset(r) == multiset(images[..i]) + multiset(images[i + 1..]);
  }

  lemma SplitAt<T>(s: seq<T>, i: int)
    requires 0 <= i < |s|
    ensures s == s[..i] + [s[i]] + s[i + 1..]
    ensures multiset(s) == multiset(s[..i]) + multiset{s[i]} + multiset(s[i + 1..])
  {
  }
}
