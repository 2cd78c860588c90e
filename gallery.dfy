/**
 * The list of full-size image sources the lightbox navigates, built once from
 * the gallery items when the page has loaded.
 */
module Gallery {
  import opened Wrappers

  /** One `.gallery-item` element: its `data-image` attribute and the `src` of
      the first `img` inside it, each `None` when the attribute or the element
      is absent. */
  datatype GalleryItem = GalleryItem(dataImage: Option<string>, imgSrc: Option<string>)

  /** `item.dataset.image || item.querySelector("img")?.src`: the data attribute
      when it is a non-empty string, otherwise whatever the nested image gives. */
  function ItemSource(item: GalleryItem): (v: Option<string>)
    ensures item.dataImage.Some? && item.dataImage.value != "" ==> v == item.dataImage
    ensures !(item.dataImage.Some? && item.dataImage.value != "") ==> v == item.imgSrc
  {
    if item.dataImage.Some? && item.dataImage.value != "" then item.dataImage else item.imgSrc
  }

  /** JavaScript's `Boolean(v)` on a string or `undefined`. */
  predicate Truthy(v: Option<string>)
  {
    v.Some? && v.value != ""
  }

  /** Whether a gallery item contributes an image to the lightbox. */
  predicate HasSource(item: GalleryItem)
  {
    Truthy(ItemSource(item))
  }

  /** `[...galleryItems].map(ItemSource).filter(Boolean)`. */
  function BuildImages(items: seq<GalleryItem>): (images: seq<string>)
    ensures |images| <= |items|
    ensures forall j :: 0 <= j < |images| ==> images[j] != ""
  {
    if items == [] then []
    else
      var head := if HasSource(items[0]) then [ItemSource(items[0]).value] else [];
      head + BuildImages(items[1..])
  }

  /** The list keeps gallery order: building from two runs of items is building
      from each and concatenating. */
  lemma {:induction false} BuildImagesAppend(a: seq<GalleryItem>, b: seq<GalleryItem>)
    ensures BuildImages(a + b) == BuildImages(a) + BuildImages(b)
  {
    if a == [] {
      assert a + b == b;
    } else {
      assert (a + b)[1..] == a[1..] + b;
      BuildImagesAppend(a[1..], b);
    }
  }

  /** A source is in the list exactly when some gallery item provides it. */
  lemma {:induction false} BuildImagesMembers(items: seq<GalleryItem>, s: string)
    ensures s in BuildImages(items) <==>
      exists i :: 0 <= i < |items| && HasSource(items[i]) && ItemSource(items[i]).value == s
  {
    if items != [] {
      BuildImagesMembers(items[1..], s);
      if s in BuildImages(items[1..]) {
        var i :| 0 <= i < |items[1..]| && HasSource(items[1..][i]) && ItemSource(items[1..][i]).value == s;
        assert items[i + 1] == items[1..][i];
      }
      if exists i :: 0 <= i < |items| && HasSource(items[i]) && ItemSource(items[i]).value == s {
        var i :| 0 <= i < |items| && HasSource(items[i]) && ItemSource(items[i]).value == s;
        if i > 0 {
          assert items[1..][i - 1] == items[i];
        }
      }
    }
  }

  /** The list is as long as the gallery exactly when no item lacks a source;
      otherwise some click index has no image of the same index. */
  lemma {:induction false} BuildImagesComplete(items: seq<GalleryItem>)
    ensures |BuildImages(items)| == |items| <==> forall i :: 0 <= i < |items| ==> HasSource(items[i])
  {
    if items != [] {
      BuildImagesComplete(items[1..]);
      if forall i :: 0 <= i < |items| ==> HasSource(items[i]) {
        forall i | 0 <= i < |items[1..]| ensures HasSource(items[1..][i]) {
          assert items[1..][i] == items[i + 1];
        }
      }
      if forall i :: 0 <= i < |items[1..]| ==> HasSource(items[1..][i]) {
        if HasSource(items[0]) {
          forall i | 0 <= i < |items| ensures HasSource(items[i]) {
            if i > 0 {
              assert items[i] == items[1..][i - 1];
            }
          }
        }
      }
    }
  }

  /** The gallery item at click index i opens its own image when it and every
      item before it have a source. */
  lemma PrefixAligned(items: seq<GalleryItem>, i: int)
    requires 0 <= i < |items|
    requires forall j :: 0 <= j <= i ==> HasSource(items[j])
    ensures i < |BuildImages(items)|
    ensures Some(BuildImages(items)[i]) == ItemSource(items[i])
  {
    var front, back := items[..i], items[i..];
    assert items == front + back;
    BuildImagesAppend(front, back);
    BuildImagesComplete(front);
    assert |BuildImages(front)| == i;
    assert back[0] == items[i];
  }
}
