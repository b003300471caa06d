/**
 * A target's photos and the lightbox that pages through them.  The lightbox
 * holds the very array the target owns (`currentLightboxImages` and
 * `currentLightboxTarget.images` are one object), so deleting or replacing
 * a photo through the lightbox changes the target's list.
 */
module Lightbox {
  import opened JsNumber

  /** One target's `images` array of data URLs. */
  class ImageList {
    var images: seq<string>

    /** `if (!target.images) target.images = []`. */
    constructor ()
      ensures images == []
    {
      images := [];
    }

    /** `addImageToTarget`: `target.images.push(url)`. */
    method Push(url: string)
      modifies this
      ensures images == old(images) + [url]
    {
      images := images + [url];
    }

    /** `images[i] = url` at an index that is in the array or just past its end. */
    method SetAt(i: nat, url: string)
      requires i <= |images|
      modifies this
      ensures i < |old(images)| ==> images == old(images)[i := url]
      ensures i == |old(images)| ==> images == old(images) + [url]
    {
      if i < |images| {
        images := images[i := url];
      } else {
        images := images + [url];
      }
    }

    /** `images.splice(i, 1)`: removes the photo at i; past the end it removes nothing. */
    method RemoveAt(i: nat)
      modifies this
      ensures i < |old(images)| ==> images == old(images)[..i] + old(images)[i + 1..]
      ensures i >= |old(images)| ==> images == old(images)
    {
      if i < |images| {
        images := images[..i] + images[i + 1..];
      }
    }
  }

  /** The Next arrow: `(i + 1) % n`. */
  function StepForward(i: nat, n: nat): (r: nat)
    requires n > 0
    ensures r < n
    ensures i < n - 1 ==> r == i + 1
    ensures i == n - 1 ==> r == 0
  {
    RemInt(i + 1, n)
  }

  /** The Prev arrow: `(i - 1 + n) % n`. */
  function StepBack(i: nat, n: nat): (r: nat)
    requires n > 0
    ensures r < n
    ensures 0 < i <= n ==> r == i - 1
    ensures i == 0 ==> r == n - 1
  {
    RemInt(i - 1 + n, n)
  }

  /** On a valid index the two arrows undo each other. */
  lemma StepsAreInverse(i: nat, n: nat)
    requires i < n
    ensures StepBack(StepForward(i, n), n) == i
    ensures StepForward(StepBack(i, n), n) == i
  {
  }

  /** k presses of Next starting from i. */
  function Forward(i: nat, n: nat, k: nat): (r: nat)
    requires n > 0
  {
    if k == 0 then i else StepForward(Forward(i, n, k - 1), n)
  }

  /** k presses of Next land on (i + k) mod n; in particular n presses come back to i. */
  lemma {:induction false} ForwardIsModular(i: nat, n: nat, k: nat)
    requires i < n
    ensures Forward(i, n, k) == (i + k) % n
  {
    if k > 0 {
      ForwardIsModular(i, n, k - 1);
      var p := Forward(i, n, k - 1);
      assert p == (i + k - 1) % n;
      ModStep(i + k - 1, n);
    }
  }

  lemma ModStep(x: nat, n: nat)
    requires n > 0
    ensures (x % n + 1) % n == (x + 1) % n
  {
    var q, r := x / n, x % n;
    assert x == q * n + r;
    if r + 1 < n {
      ModUnique(x + 1, n, q, r + 1);
      ModUnique(r + 1, n, 0, r + 1);
    } else {
      assert x + 1 == (q + 1) * n;
      ModUnique(x + 1, n, q + 1, 0);
      ModUnique(r + 1, n, 1, 0);
    }
  }

  lemma ModUnique(a: int, n: int, q: int, r: int)
    requires n > 0 && 0 <= r < n && a == q * n + r
    ensures a % n == r
  {
    var d := q - a / n;
    assert a == (a / n) * n + a % n;
    assert d * n == a % n - r;
  }

  /** The lightbox state: the photo list it shows (none yet: null) and `currentLightboxIndex`. */
  class Lightbox {
    var images: ImageList?
    var index: nat

    constructor ()
      ensures images == null && index == 0
    {
      images := null;
      index := 0;
    }

    /** `openLightbox(target.images, idx, target)`, from a click on the photo at idx. */
    method OpenAt(list: ImageList, start: nat)
      requires start < |list.images|
      modifies this
      ensures images == list && index == start
    {
      images := list;
      index := start;
    }

    /** The Next arrow, shown while the lightbox holds photos. */
    method Next()
      requires images != null && |images.images| > 0
      modifies this
      ensures images == old(images) && index == StepForward(old(index), |images.images|)
    {
      index := RemInt(index + 1, |images.images|);
    }

    /** The Prev arrow, shown while the lightbox holds photos. */
    method Prev()
      requires images != null && |images.images| > 0
      modifies this
      ensures images == old(images) && index == StepBack(old(index), |images.images|)
    {
      index := RemInt(index - 1 + |images.images|, |images.images|);
    }

    /** The Delete button: with a confirmed dialog the shown photo leaves the target's list. */
    method DeleteCurrent(confirmed: bool)
      modifies images
      ensures images == null || !confirmed ==> images == null || images.images == old(images.images)
      ensures images != null && confirmed ==>
        images.images == if index < |old(images.images)| then old(images.images)[..index] + old(images.images)[index + 1..]
                         else old(images.images)
    {
      if images == null || !confirmed {
        return;
      }
      images.RemoveAt(index);
    }

    /** The Change button, once the file is read: the shown photo is replaced in the target's list. */
    method ReplaceCurrent(url: string)
      requires images != null ==> index <= |images.images|
      modifies images
      ensures images != null && index < |old(images.images)| ==> images.images == old(images.images)[index := url]
      ensures images != null && index == |old(images.images)| ==> images.images == old(images.images) + [url]
    {
      if images == null {
        return;
      }
      images.SetAt(index, url);
    }
  }
}
