/** The gallery store of the photobooth page: the list `galleryImages` of
    captured-image references (most recent first), the copy of it kept in
    local storage, the preview strip that shows the newest three, and the
    photo counter that shows how many there are in all. */
module Gallery {

  datatype Option<+T> = None | Some(value: T)

  /** How many thumbnails the preview strip shows (`slice(0,3)`). */
  const PreviewSize: nat := 3

  function Min(a: nat, b: nat): nat
  {
    if a <= b then a else b
  }

  // ---------------------------------------------------------------------
  // Removing one entry: `Array.prototype.splice(start, 1)`
  // ---------------------------------------------------------------------

  /** The position `splice(start, …)` begins at on a list of length `len`:
      a negative start counts back from the end (and stops at 0), a start
      past the end is clamped to the end. */
  function SpliceStart(len: nat, start: int): (k: nat)
    ensures k <= len
    ensures 0 <= start <= len ==> k == start
    ensures start < 0 && 0 <= len + start ==> k == len + start
    ensures start < 0 && len + start < 0 ==> k == 0
    ensures start > len ==> k == len
  {
    if start < 0 then (if len + start < 0 then 0 else len + start)
    else if start <= len then start
    else len
  }

  /** The list `s.splice(start, 1)` leaves behind: the entry at the start
      position is removed, if there is one. */
  function SpliceOne<T>(s: seq<T>, start: int): seq<T>
  {
    var k := SpliceStart(|s|, start);
    if k < |s| then s[..k] + s[k + 1..] else s
  }

  /** Deleting at an index inside the list removes exactly that entry and
      keeps the others in their order. */
  lemma SpliceInRange<T>(s: seq<T>, i: int)
    requires 0 <= i < |s|
    ensures SpliceOne(s, i) == s[..i] + s[i + 1..]
    ensures |SpliceOne(s, i)| == |s| - 1
    ensures forall k :: 0 <= k < |s| - 1 ==> SpliceOne(s, i)[k] == if k < i then s[k] else s[k + 1]
    ensures multiset(SpliceOne(s, i)) + multiset{s[i]} == multiset(s)
  {
    assert s == s[..i] + [s[i]] + s[i + 1..];
  }

  /** An index at or past the end removes nothing. */
  lemma SplicePastEnd<T>(s: seq<T>, i: int)
    requires i >= |s|
    ensures SpliceOne(s, i) == s
  {
  }

  /** A negative index within the list counts back from its end. */
  lemma SpliceFromEnd<T>(s: seq<T>, i: int)
    requires i < 0 && 0 <= |s| + i
    ensures SpliceOne(s, i) == s[..|s| + i] + s[|s| + i + 1..]
  {
  }

  // ---------------------------------------------------------------------
  // The preview strip and the counter
  // ---------------------------------------------------------------------

  /** One thumbnail of the strip: the image it shows and the index its
      delete button passes to `deleteFromGallery`. */
  datatype Thumbnail = Thumbnail(url: string, deleteIndex: nat)

  /** What `renderGalleryPreview` leaves in the gallery element: the
      "No photos yet" placeholder, or a strip of thumbnails. */
  datatype Preview = Placeholder | Strip(thumbs: seq<Thumbnail>)

  /** The preview of a gallery list. */
  ghost function PreviewOf(images: seq<string>): Preview
  {
    if |images| == 0 then Placeholder
    else Strip(seq(Min(PreviewSize, |images|), k requires 0 <= k < Min(PreviewSize, |images|) => Thumbnail(images[k], k)))
  }

  /** `renderGalleryPreview`: the placeholder for an empty list, otherwise
      one thumbnail for each of the first three entries, in order, each
      wired to delete its own index. */
  method BuildPreview(images: seq<string>) returns (p: Preview)
    ensures p.Placeholder? <==> |images| == 0
    ensures p.Strip? ==> |p.thumbs| == Min(PreviewSize, |images|)
    ensures p.Strip? ==> forall k :: 0 <= k < |p.thumbs| ==> p.thumbs[k] == Thumbnail(images[k], k)
    ensures p == PreviewOf(images)
  {
    if |images| == 0 {
      return Placeholder;
    }
    var shown := images[..Min(PreviewSize, |images|)];
    var thumbs: seq<Thumbnail> := [];
    var index := 0;
    while index < |shown|
      invariant 0 <= index <= |shown|
      invariant |thumbs| == index
      invariant forall k :: 0 <= k < index ==> thumbs[k] == Thumbnail(shown[k], k)
    {
      thumbs := thumbs + [Thumbnail(shown[index], index)];
      index := index + 1;
    }
    p := Strip(thumbs);
    assert thumbs == PreviewOf(images).thumbs;
  }

  /** The strip shows the newest `min(3, n)` entries in order, the
      placeholder appears exactly when the list is empty, and the counter
      (the full length) exceeds what the strip shows once there are more
      than three entries. */
  lemma PreviewShowsNewest(images: seq<string>)
    ensures PreviewOf(images).Placeholder? <==> images == []
    ensures PreviewOf(images).Strip? ==> |PreviewOf(images).thumbs| == Min(PreviewSize, |images|)
    ensures PreviewOf(images).Strip? ==>
      forall k :: 0 <= k < |PreviewOf(images).thumbs| ==> PreviewOf(images).thumbs[k].url == images[k]
    ensures |images| > PreviewSize ==> |PreviewOf(images).thumbs| < |images|
  {
  }

  /** Adding an image puts it first in the strip and shifts the entries that
      were shown one place to the right, the oldest of three dropping off. */
  lemma PreviewAfterAdd(images: seq<string>, url: string)
    ensures PreviewOf([url] + images).Strip?
    ensures PreviewOf([url] + images).thumbs[0] == Thumbnail(url, 0)
    ensures |PreviewOf([url] + images).thumbs| == Min(PreviewSize, |images| + 1)
    ensures forall k :: 1 <= k < |PreviewOf([url] + images).thumbs| ==>
      PreviewOf([url] + images).thumbs[k] == Thumbnail(images[k - 1], k)
  {
  }

  /** The delete button of the k-th thumbnail removes exactly the image that
      thumbnail shows, and nothing else. */
  lemma DeleteButtonRemovesItsImage(images: seq<string>, k: nat)
    requires PreviewOf(images).Strip? && k < |PreviewOf(images).thumbs|
    ensures k < |images| && PreviewOf(images).thumbs[k].url == images[k]
    ensures SpliceOne(images, PreviewOf(images).thumbs[k].deleteIndex) == images[..k] + images[k + 1..]
  {
    SpliceInRange(images, k);
  }

  // ---------------------------------------------------------------------
  // Sequences of gallery operations
  // ---------------------------------------------------------------------

  datatype Op = Add(url: string) | Delete(index: int)

  /** The list after one `addToGallery` or `deleteFromGallery`. */
  function Apply(s: seq<string>, op: Op): seq<string>
  {
    match op
    case Add(u) => [u] + s
    case Delete(i) => SpliceOne(s, i)
  }

  function ApplyAll(s: seq<string>, ops: seq<Op>): seq<string>
    decreases |ops|
  {
    if ops == [] then s else ApplyAll(Apply(s, ops[0]), ops[1..])
  }

  /** Whether the operation is a delete that actually removes an entry. */
  predicate Removes(s: seq<string>, op: Op)
  {
    op.Delete? && SpliceStart(|s|, op.index) < |s|
  }

  function AddCount(ops: seq<Op>): nat
  {
    if ops == [] then 0 else (if ops[0].Add? then 1 else 0) + AddCount(ops[1..])
  }

  function RemovedCount(s: seq<string>, ops: seq<Op>): nat
    decreases |ops|
  {
    if ops == [] then 0
    else (if Removes(s, ops[0]) then 1 else 0) + RemovedCount(Apply(s, ops[0]), ops[1..])
  }

  /** The stored length is the starting length plus the adds minus the
      deletes that removed something. */
  lemma {:induction false} LengthAccount(s: seq<string>, ops: seq<Op>)
    ensures |ApplyAll(s, ops)| + RemovedCount(s, ops) == |s| + AddCount(ops)
    decreases |ops|
  {
    if ops != [] {
      LengthAccount(Apply(s, ops[0]), ops[1..]);
    }
  }

  /** The urls of a run of adds, newest (last added) first. */
  function NewestFirst(ops: seq<Op>): seq<string>
    requires forall k :: 0 <= k < |ops| ==> ops[k].Add?
  {
    if ops == [] then [] else NewestFirst(ops[1..]) + [ops[0].url]
  }

  /** A run of adds leaves the list most recent first, with the earlier
      entries behind the new ones in their old order. */
  lemma {:induction false} AddsAreNewestFirst(s: seq<string>, ops: seq<Op>)
    requires forall k :: 0 <= k < |ops| ==> ops[k].Add?
    ensures ApplyAll(s, ops) == NewestFirst(ops) + s
    decreases |ops|
  {
    if ops != [] {
      AddsAreNewestFirst([ops[0].url] + s, ops[1..]);
      assert NewestFirst(ops) + s == NewestFirst(ops[1..]) + ([ops[0].url] + s);
    }
  }

  /** Deleting the first thumbnail right after an add undoes the add. */
  lemma AddThenDeleteFirst(s: seq<string>, url: string)
    ensures ApplyAll(s, [Add(url), Delete(0)]) == s
  {
    var ops := [Add(url), Delete(0)];
    assert ops[1..] == [Delete(0)] && ops[1..][1..] == [];
    assert ([url] + s)[1..] == s;
    calc {
      ApplyAll(s, ops);
      ApplyAll([url] + s, [Delete(0)]);
      ApplyAll(SpliceOne([url] + s, 0), []);
    }
  }

  // ---------------------------------------------------------------------
  // The store itself
  // ---------------------------------------------------------------------

  class GalleryStore {
    /** `galleryImages`, most recent first. */
    var images: seq<string>
    /** What local storage holds under "galleryImages", as a reload would read it. */
    ghost var persisted: seq<string>
    /** The contents of the gallery element. */
    var view: Preview
    /** The text of the photo counter. */
    var photoCount: nat

    /** Storage, preview and counter all agree with the list. */
    ghost predicate Valid()
      reads this
    {
      persisted == images && view == PreviewOf(images) && photoCount == |images|
    }

    /** Page load: the stored list, or an empty one when nothing is stored,
        then the first render and count. */
    constructor Load(stored: Option<seq<string>>)
      ensures Valid()
      ensures images == if stored.Some? then stored.value else []
    {
      var list := if stored.Some? then stored.value else [];
      var p := BuildPreview(list);
      images := list;
      persisted := list;
      view := p;
      photoCount := |list|;
    }

    method RenderGalleryPreview()
      modifies this`view
      ensures view == PreviewOf(images)
    {
      view := BuildPreview(images);
    }

    method UpdatePhotoCount()
      modifies this`photoCount
      ensures photoCount == |images|
    {
      photoCount := |images|;
    }

    /** `addToGallery`: prepend, persist the whole list, re-render. */
    method Add(url: string)
      requires Valid()
      modifies this
      ensures Valid()
      ensures images == Apply(old(images), Op.Add(url))
      ensures images == [url] + old(images) && persisted == images
    {
      images := [url] + images;
      persisted := images;
      RenderGalleryPreview();
      UpdatePhotoCount();
    }

    /** `deleteFromGallery`: splice one entry out, persist, re-render. */
    method Delete(index: int)
      requires Valid()
      modifies this
      ensures Valid()
      ensures images == Apply(old(images), Op.Delete(index))
      ensures 0 <= index < |old(images)| ==> images == old(images)[..index] + old(images)[index + 1..]
      ensures persisted == images
    {
      images := SpliceOne(images, index);
      persisted := images;
      RenderGalleryPreview();
      UpdatePhotoCount();
    }
  }
}
