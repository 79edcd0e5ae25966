/**
 * The home-page slideshow: one index over the fetched photos, moved by the
 * arrows, the dots and a periodic tick, always modulo the photo count.
 */
module ExhibitionSlideshow {
  import opened Wrappers

  datatype Photo = Photo(id: string, url: string, caption: string)

  /** `(prev + 1) % photos.length`. */
  function NextIndex(i: nat, n: nat): (r: nat)
    requires n > 0
    ensures r < n
    ensures i < n ==> r == if i == n - 1 then 0 else i + 1
  {
    (i + 1) % n
  }

  /** `(prev - 1 + photos.length) % photos.length`. */
  function PrevIndex(i: nat, n: nat): (r: nat)
    requires n > 0
    ensures r < n
    ensures i < n ==> r == if i == 0 then n - 1 else i - 1
  {
    (i - 1 + n) % n
  }

  lemma PrevUndoesNext(i: nat, n: nat)
    requires i < n
    ensures PrevIndex(NextIndex(i, n), n) == i
    ensures NextIndex(PrevIndex(i, n), n) == i
  {
  }

  /** `k` steps forward. */
  function Advance(i: nat, n: nat, k: nat): (r: nat)
    requires n > 0
    decreases k
  {
    if k == 0 then i else NextIndex(Advance(i, n, k - 1), n)
  }

  /** Short of the last photo, `k` steps forward simply add `k`. */
  lemma {:induction false} AdvanceWithoutWrap(i: nat, n: nat, k: nat)
    requires i + k < n
    ensures Advance(i, n, k) == i + k
    decreases k
  {
    if k > 0 {
      AdvanceWithoutWrap(i, n, k - 1);
    }
  }

  lemma {:induction false} AdvanceCompose(i: nat, n: nat, a: nat, b: nat)
    requires n > 0
    ensures Advance(i, n, a + b) == Advance(Advance(i, n, a), n, b)
    decreases b
  {
    if b > 0 {
      AdvanceCompose(i, n, a, b - 1);
    }
  }

  /** A full round of `n` steps returns to the starting photo. */
  lemma FullRound(i: nat, n: nat)
    requires i < n
    ensures Advance(i, n, n) == i
  {
    AdvanceWithoutWrap(i, n, n - i - 1);
    assert Advance(i, n, n - i) == 0;
    AdvanceCompose(i, n, n - i, i);
    AdvanceWithoutWrap(0, n, i);
  }

  /** Nothing is drawn while loading, after an error, or with no photos. */
  predicate Renders(loading: bool, error: Option<string>, photoCount: nat) {
    !loading && error.None? && photoCount > 0
  }

  /** Arrows, dots and the periodic tick exist only with more than one photo. */
  predicate HasControls(photoCount: nat) {
    photoCount > 1
  }

  class Slideshow {
    var photos: seq<Photo>
    var currentIndex: nat
    var loading: bool
    var error: Option<string>

    /**
     * The index names a photo (or is 0 before there are any), there are no
     * photos and no error while loading, and a failed load leaves no photos.
     */
    ghost predicate Valid()
      reads this
    {
      (currentIndex < |photos| || (currentIndex == 0 && photos == []))
      && (loading ==> photos == [] && currentIndex == 0 && error == None)
      && (error.Some? ==> photos == [])
    }

    /** Whenever there is more than one photo, the slideshow is drawn, so its arrows and dots are on screen. */
    lemma ControlsAreDrawn()
      requires Valid() && HasControls(|photos|)
      ensures Renders(loading, error, |photos|)
    {
    }

    constructor ()
      ensures Valid()
      ensures photos == [] && currentIndex == 0 && loading && error == None
    {
      photos, currentIndex, loading, error := [], 0, true, None;
    }

    method PhotosLoaded(fetched: seq<Photo>)
      requires Valid() && loading
      modifies this
      ensures Valid()
      ensures Renders(loading, error, |photos|) <==> fetched != []
      ensures photos == fetched && currentIndex == 0 && !loading && error == old(error)
    {
      photos, loading := fetched, false;
    }

    method LoadFailed()
      requires Valid() && loading
      modifies this
      ensures Valid()
      ensures !Renders(loading, error, |photos|)
      ensures photos == [] && currentIndex == 0 && !loading && error == Some("Failed to load exhibition photos")
    {
      error, loading := Some("Failed to load exhibition photos"), false;
    }

    /** The right arrow. */
    method Next()
      requires Valid() && Renders(loading, error, |photos|) && HasControls(|photos|)
      modifies this`currentIndex
      ensures Valid()
      ensures currentIndex == NextIndex(old(currentIndex), |photos|)
    {
      currentIndex := NextIndex(currentIndex, |photos|);
    }

    /** The left arrow. */
    method Prev()
      requires Valid() && Renders(loading, error, |photos|) && HasControls(|photos|)
      modifies this`currentIndex
      ensures Valid()
      ensures currentIndex == PrevIndex(old(currentIndex), |photos|)
    {
      currentIndex := PrevIndex(currentIndex, |photos|);
    }

    /** Dot `index`: that photo becomes the current one. */
    method SelectDot(index: nat)
      requires Valid() && Renders(loading, error, |photos|) && HasControls(|photos|) && index < |photos|
      modifies this`currentIndex
      ensures Valid() && currentIndex == index
    {
      currentIndex := index;
    }

    /** One period of the interval, which is only installed with more than one photo. */
    method Tick()
      requires Valid()
      modifies this`currentIndex
      ensures Valid()
      ensures currentIndex == if HasControls(|photos|) then NextIndex(old(currentIndex), |photos|) else old(currentIndex)
    {
      if HasControls(|photos|) {
        currentIndex := NextIndex(currentIndex, |photos|);
      }
    }
  }
}
