/**
 * The screenshot gallery: which image the overlay shows (`activeIndex`), how next/prev wrap
 * around, and which keys the open overlay answers to.
 */
module Gallery {

  import opened Wrappers
  import JsText

  /** The `images` prop as far as the guard `Array.isArray(images)` can tell. */
  datatype ImagesProp<T> = Images(items: seq<T>) | NotAnArray

  /** `safeImages`: the images, or no images when the prop is not an array. */
  function SafeImages<T>(images: ImagesProp<T>): seq<T> {
    match images
    case Images(items) => items
    case NotAnArray => []
  }

  /** `(i + 1) % len`: the image after `i`, wrapping from the last to the first.  Both operands are
      non-negative, so JavaScript's truncating `%` agrees with Dafny's. */
  function NextIndex(i: nat, len: nat): (r: nat)
    requires i < len
    ensures r < len
    ensures i < len - 1 ==> r == i + 1
    ensures i == len - 1 ==> r == 0
  {
    (i + 1) % len
  }

  /** `(i - 1 + len) % len`: the image before `i`, wrapping from the first to the last. */
  function PrevIndex(i: nat, len: nat): (r: nat)
    requires i < len
    ensures r < len
    ensures i > 0 ==> r == i - 1
    ensures i == 0 ==> r == len - 1
  {
    (i - 1 + len) % len
  }

  /** Next and prev undo each other. */
  lemma NextPrevInverse(i: nat, len: nat)
    requires i < len
    ensures PrevIndex(NextIndex(i, len), len) == i
    ensures NextIndex(PrevIndex(i, len), len) == i
  {
  }

  /** `k` presses of next from image `i`. */
  function NextTimes(i: nat, len: nat, k: nat): (r: nat)
    requires i < len
    ensures r < len
    decreases k
  {
    if k == 0 then i else NextTimes(NextIndex(i, len), len, k - 1)
  }

  /** Pressing next `a + b` times is pressing it `a` times and then `b` times. */
  lemma {:induction false} NextTimesAdd(i: nat, len: nat, a: nat, b: nat)
    requires i < len
    ensures NextTimes(i, len, a + b) == NextTimes(NextTimes(i, len, a), len, b)
    decreases a
  {
    if a > 0 {
      NextTimesAdd(NextIndex(i, len), len, a - 1, b);
    }
  }

  /** Before the last image is reached, `k` presses of next move exactly `k` images on. */
  lemma {:induction false} NextTimesClimb(i: nat, len: nat, k: nat)
    requires i + k < len
    ensures NextTimes(i, len, k) == i + k
    decreases k
  {
    if k > 0 {
      NextTimesClimb(i + 1, len, k - 1);
    }
  }

  /** Pressing next once per image comes back to the starting image. */
  lemma NextFullCircle(i: nat, len: nat)
    requires i < len
    ensures NextTimes(i, len, len) == i
  {
    var up := len - 1 - i;
    NextTimesClimb(i, len, up);
    NextTimesAdd(i, len, up, 1 + i);
    NextTimesAdd(len - 1, len, 1, i);
    assert NextTimes(len - 1, len, 1) == 0;
    NextTimesClimb(0, len, i);
  }

  /** The navigation counter `activeIndex + 1 / images.length`. */
  function Counter(i: nat, len: nat): (r: (nat, nat))
    requires i < len
    ensures 1 <= r.0 <= r.1 && r.1 == len
  {
    (i + 1, len)
  }

  /** The caption's noun: "image" for exactly one image, "images" otherwise. */
  function CaptionNoun(len: nat): (s: string)
    ensures len == 1 <==> s == "image"
    ensures len != 1 <==> s == "images"
  {
    "image" + (if len != 1 then "s" else "")
  }

  /** The caption above the grid: "<len> image(s) — click any to expand".  It opens with the
      decimal count, then a space, then the noun, then a space. */
  function Caption(len: nat): (s: string)
    ensures var d := JsText.NatToString(len); var w := CaptionNoun(len);
      |d| + 1 + |w| < |s| && s[..|d|] == d && s[|d|] == ' ' && s[|d| + 1..|d| + 1 + |w|] == w && s[|d| + 1 + |w|] == ' '
  {
    JsText.NatToString(len) + " " + CaptionNoun(len) + " \U{2014} click any to expand"
  }

  /** The count in the caption is the number of images: the text before the first space reads
      back as `len`, and the word after it is "image" exactly for one image. */
  lemma CaptionShowsCount(len: nat)
    ensures var s := Caption(len); var n := JsText.IndexOf(s, ' ');
      1 <= n && JsText.DecimalValue(s[..n]) == len && (s[n + 1..n + 6] == "image") &&
      (len == 1 <==> s[n + 6] == ' ')
  {
    var d := JsText.NatToString(len);
    var s := Caption(len);
    assert ' ' !in d by {
      forall k | 0 <= k < |d| ensures d[k] != ' ' {
        assert JsText.IsDigit(d[k]);
      }
    }
    assert s == d + [' '] + s[|d| + 1..];
    JsText.IndexOfAfter(d, ' ', s[|d| + 1..]);
    assert s[..|d|] == d;
    JsText.NatToStringValue(len);
  }

  /** What a key press on the open overlay does. */
  datatype Command = CloseOverlay | ShowNext | ShowPrev | Ignore

  /** The overlay's `keydown` switch. */
  function KeyCommand(key: string): (c: Command)
    ensures c == CloseOverlay <==> key == "Escape"
    ensures c == ShowNext <==> key == "ArrowRight"
    ensures c == ShowPrev <==> key == "ArrowLeft"
  {
    if key == "Escape" then CloseOverlay
    else if key == "ArrowRight" then ShowNext
    else if key == "ArrowLeft" then ShowPrev
    else Ignore
  }

  /** The gallery over `count` images: `activeIndex`, null while the overlay is closed. */
  class Viewer {
    const count: nat
    var active: Option<nat>

    /** An open overlay always shows one of the images. */
    predicate Valid()
      reads this
    {
      active.Some? ==> active.value < count
    }

    /** `isOpen`: the overlay is rendered exactly when an image is active. */
    predicate IsOpen()
      reads this
    {
      active.Some?
    }

    constructor (images: nat)
      ensures Valid() && count == images && active == None && !IsOpen()
    {
      count := images;
      active := None;
    }

    /** `handleSelect(i)`: a grid cell opens the overlay on its own image. */
    method Select(i: nat)
      requires Valid() && i < count
      modifies this
      ensures Valid() && active == Some(i) && IsOpen()
    {
      active := Some(i);
    }

    /** `handleClose`. */
    method Close()
      modifies this
      ensures Valid() && active == None && !IsOpen()
    {
      active := None;
    }

    /** `handleNext`: nothing while closed, otherwise the next image, wrapping round. */
    method Next()
      requires Valid()
      modifies this
      ensures Valid()
      ensures old(active).None? ==> active == None
      ensures old(active).Some? ==> active == Some(NextIndex(old(active).value, count))
    {
      if active.Some? {
        active := Some(NextIndex(active.value, count));
      }
    }

    /** `handlePrev`: nothing while closed, otherwise the previous image, wrapping round. */
    method Prev()
      requires Valid()
      modifies this
      ensures Valid()
      ensures old(active).None? ==> active == None
      ensures old(active).Some? ==> active == Some(PrevIndex(old(active).value, count))
    {
      if active.Some? {
        active := Some(PrevIndex(active.value, count));
      }
    }

    /** A key press.  The listener exists only while the overlay is open; Escape closes,
        ArrowRight and ArrowLeft step, and every other key changes nothing. */
    method Key(key: string)
      requires Valid()
      modifies this
      ensures Valid()
      ensures !old(IsOpen()) ==> active == old(active)
      ensures old(IsOpen()) && KeyCommand(key) == CloseOverlay ==> active == None
      ensures old(IsOpen()) && KeyCommand(key) == ShowNext ==> active == Some(NextIndex(old(active).value, count))
      ensures old(IsOpen()) && KeyCommand(key) == ShowPrev ==> active == Some(PrevIndex(old(active).value, count))
      ensures KeyCommand(key) == Ignore ==> active == old(active)
    {
      if IsOpen() {
        match KeyCommand(key)
        case CloseOverlay => Close();
        case ShowNext => Next();
        case ShowPrev => Prev();
        case Ignore =>
      }
    }

    /** The counter the open overlay shows. */
    function ShownCounter(): (r: (nat, nat))
      reads this
      requires Valid() && IsOpen()
      ensures 1 <= r.0 <= count && r.1 == count
    {
      Counter(active.value, count)
    }
  }
}
