/** The project image gallery, src/components/ImageGallery.tsx: a main image
    with cyclic previous/next navigation, a compact strip of at most eight
    thumbnails, an expanded view, and a lightbox with its own cyclic index.
    The keyboard drives whichever of the lightbox or the expanded view is
    open. Rendering, the smooth scroll after expanding and the listener
    registration are not modelled. */
module Gallery {
  import opened Wrappers

  /** `prev < len - 1 ? prev + 1 : 0` */
  function Next(i: int, len: int): (j: int)
    ensures 0 <= i < len ==> 0 <= j < len
    ensures 0 <= i < len ==> j == (i + 1) % len
  {
    if i < len - 1 then i + 1 else 0
  }

  /** `prev > 0 ? prev - 1 : len - 1` */
  function Prev(i: int, len: int): (j: int)
    ensures 0 <= i < len ==> 0 <= j < len
    ensures 0 <= i < len ==> j == (i + len - 1) % len
  {
    if i > 0 then i - 1 else len - 1
  }

  /** Next and previous undo each other on every index in range. */
  lemma NextPrevInverse(i: int, len: int)
    requires 0 <= i < len
    ensures Prev(Next(i, len), len) == i
    ensures Next(Prev(i, len), len) == i
  {
  }

  /** n presses of "next". */
  function Advance(i: int, len: int, n: nat): int {
    if n == 0 then i else Next(Advance(i, len, n - 1), len)
  }

  lemma {:induction false} AdvanceCompose(i: int, len: int, a: nat, b: nat)
    ensures Advance(i, len, a + b) == Advance(Advance(i, len, a), len, b)
  {
    if b > 0 {
      AdvanceCompose(i, len, a, b - 1);
    }
  }

  /** Short of the last image, n presses of "next" move n places. */
  lemma {:induction false} AdvanceStraight(i: int, len: int, n: nat)
    requires 0 <= i && i + n < len
    ensures Advance(i, len, n) == i + n
  {
    if n > 0 {
      AdvanceStraight(i, len, n - 1);
    }
  }

  /** Pressing "next" once per image comes back to the start. */
  lemma FullCircle(i: int, len: int)
    requires 0 <= i < len
    ensures Advance(i, len, len) == i
  {
    AdvanceStraight(i, len, len - 1 - i);
    AdvanceCompose(i, len, len - 1 - i, 1);
    AdvanceStraight(0, len, i);
    AdvanceCompose(i, len, len - i, i);
  }

  /** `images.slice(0, 8)`: the compact view's thumbnails. */
  function Thumbnails(images: seq<string>): (r: seq<string>)
    ensures |r| <= 8
    ensures |r| == if |images| < 8 then |images| else 8
    ensures r == images[..|r|]
  {
    if |images| <= 8 then images else images[..8]
  }

  /** The "show all" button is there only when some image has no thumbnail. */
  function ShowAllVisible(images: seq<string>): (b: bool)
    ensures b <==> |Thumbnails(images)| < |images|
  {
    |images| > 8
  }

  datatype Direction = Previous | Following

  datatype Key = Escape | ArrowLeft | ArrowRight | OtherKey

  function Step(i: int, len: int, dir: Direction): int {
    match dir
    case Previous => Prev(i, len)
    case Following => Next(i, len)
  }

  class ImageGallery {
    const images: seq<string>
    var currentImageIndex: int
    var selectedImage: Option<string>
    var lightboxIndex: int
    var expandedView: bool
    /** `document.body.style.overflow` */
    var bodyOverflow: string

    /** The lightbox shows when `selectedImage` is truthy. */
    predicate LightboxOpen()
      reads this
    {
      selectedImage.Some? && selectedImage.value != ""
    }

    /** Both indices are in range once there are images, and the lightbox
        shows the image at its own index. */
    ghost predicate Valid()
      reads this
    {
      && (|images| == 0 ==> currentImageIndex == 0 && lightboxIndex == 0 && selectedImage.None? && !expandedView)
      && (|images| > 0 ==> 0 <= currentImageIndex < |images| && 0 <= lightboxIndex < |images|)
      && (selectedImage.Some? ==> |images| > 0 && selectedImage.value == images[lightboxIndex])
    }

    constructor (images: seq<string>, overflow: string)
      ensures Valid()
      ensures this.images == images && currentImageIndex == 0 && lightboxIndex == 0
      ensures selectedImage.None? && !expandedView && bodyOverflow == overflow
    {
      this.images := images;
      currentImageIndex, lightboxIndex := 0, 0;
      selectedImage := None;
      expandedView := false;
      bodyOverflow := overflow;
    }

    /** `openLightbox(index)` */
    method OpenLightbox(index: int)
      requires Valid() && 0 <= index < |images|
      modifies this
      ensures Valid()
      ensures selectedImage == Some(images[index]) && lightboxIndex == index && bodyOverflow == "hidden"
      ensures currentImageIndex == old(currentImageIndex) && expandedView == old(expandedView)
    {
      selectedImage := Some(images[index]);
      lightboxIndex := index;
      bodyOverflow := "hidden";
    }

    /** The "show all" button, rendered only past eight images: it opens the
        lightbox on the current main image. */
    method ShowAll()
      requires Valid() && ShowAllVisible(images)
      modifies this
      ensures Valid()
      ensures selectedImage == Some(images[currentImageIndex]) && lightboxIndex == currentImageIndex
      ensures currentImageIndex == old(currentImageIndex) && expandedView == old(expandedView)
      ensures bodyOverflow == "hidden"
    {
      OpenLightbox(currentImageIndex);
    }

    /** `closeLightbox`: only the selection and the page overflow change. */
    method CloseLightbox()
      requires Valid()
      modifies this
      ensures Valid()
      ensures selectedImage == None && bodyOverflow == "auto"
      ensures lightboxIndex == old(lightboxIndex) && currentImageIndex == old(currentImageIndex)
      ensures expandedView == old(expandedView)
    {
      selectedImage := None;
      bodyOverflow := "auto";
    }

    /** `toggleExpandedView`, reachable from the main image. */
    method ToggleExpandedView()
      requires Valid() && |images| > 0
      modifies this
      ensures Valid()
      ensures expandedView == !old(expandedView)
      ensures currentImageIndex == old(currentImageIndex) && lightboxIndex == old(lightboxIndex)
      ensures selectedImage == old(selectedImage) && bodyOverflow == old(bodyOverflow)
    {
      expandedView := !expandedView;
    }

    /** `closeExpandedView` */
    method CloseExpandedView()
      requires Valid()
      modifies this
      ensures Valid()
      ensures !expandedView
      ensures currentImageIndex == old(currentImageIndex) && lightboxIndex == old(lightboxIndex)
      ensures selectedImage == old(selectedImage) && bodyOverflow == old(bodyOverflow)
    {
      expandedView := false;
    }

    /** A click on a thumbnail makes it the main image. */
    method SelectThumbnail(index: int)
      requires Valid() && 0 <= index < |images|
      modifies this
      ensures Valid()
      ensures currentImageIndex == index
      ensures lightboxIndex == old(lightboxIndex) && selectedImage == old(selectedImage)
      ensures expandedView == old(expandedView) && bodyOverflow == old(bodyOverflow)
    {
      currentImageIndex := index;
    }

    /** `navigateMainImage(direction)`, with the arrows shown only when there
        are images. */
    method NavigateMain(dir: Direction)
      requires Valid() && |images| > 0
      modifies this
      ensures Valid()
      ensures currentImageIndex == Step(old(currentImageIndex), |images|, dir)
      ensures lightboxIndex == old(lightboxIndex) && selectedImage == old(selectedImage)
      ensures expandedView == old(expandedView) && bodyOverflow == old(bodyOverflow)
    {
      currentImageIndex := Step(currentImageIndex, |images|, dir);
    }

    /** `navigateLightbox(direction)`: the lightbox index moves round the
        cycle and the shown image follows it. */
    method NavigateLightbox(dir: Direction)
      requires Valid() && |images| > 0
      modifies this
      ensures Valid()
      ensures lightboxIndex == Step(old(lightboxIndex), |images|, dir)
      ensures selectedImage == Some(images[lightboxIndex])
      ensures currentImageIndex == old(currentImageIndex) && expandedView == old(expandedView)
      ensures bodyOverflow == old(bodyOverflow)
    {
      var newIndex := Step(lightboxIndex, |images|, dir);
      selectedImage := Some(images[newIndex]);
      lightboxIndex := newIndex;
    }

    /** The window's keydown handler. With neither the lightbox nor the
        expanded view open every key is ignored; otherwise the lightbox takes
        precedence. */
    method KeyDown(key: Key)
      requires Valid()
      modifies this
      ensures Valid()
      ensures (!old(LightboxOpen()) && !old(expandedView)) || key == OtherKey ==>
        && currentImageIndex == old(currentImageIndex) && lightboxIndex == old(lightboxIndex)
        && selectedImage == old(selectedImage) && expandedView == old(expandedView)
        && bodyOverflow == old(bodyOverflow)
      ensures old(LightboxOpen()) && key == Escape ==>
        && selectedImage == None && bodyOverflow == "auto" && expandedView == old(expandedView)
        && currentImageIndex == old(currentImageIndex) && lightboxIndex == old(lightboxIndex)
      ensures !old(LightboxOpen()) && old(expandedView) && key == Escape ==>
        && !expandedView && selectedImage == old(selectedImage) && bodyOverflow == old(bodyOverflow)
        && currentImageIndex == old(currentImageIndex) && lightboxIndex == old(lightboxIndex)
      ensures old(LightboxOpen()) && key in {ArrowLeft, ArrowRight} ==>
        && lightboxIndex == Step(old(lightboxIndex), |images|, if key == ArrowLeft then Previous else Following)
        && selectedImage == Some(images[lightboxIndex])
        && currentImageIndex == old(currentImageIndex)
        && expandedView == old(expandedView) && bodyOverflow == old(bodyOverflow)
      ensures !old(LightboxOpen()) && old(expandedView) && key in {ArrowLeft, ArrowRight} ==>
        && currentImageIndex == Step(old(currentImageIndex), |images|, if key == ArrowLeft then Previous else Following)
        && lightboxIndex == old(lightboxIndex) && selectedImage == old(selectedImage)
        && expandedView == old(expandedView) && bodyOverflow == old(bodyOverflow)
    {
      if !LightboxOpen() && !expandedView {
        return;
      }
      match key {
        case Escape =>
          if LightboxOpen() {
            CloseLightbox();
          } else if expandedView {
            CloseExpandedView();
          }
        case ArrowLeft =>
          if LightboxOpen() {
            NavigateLightbox(Previous);
          } else if expandedView {
            NavigateMain(Previous);
          }
        case ArrowRight =>
          if LightboxOpen() {
            NavigateLightbox(Following);
          } else if expandedView {
            NavigateMain(Following);
          }
        case OtherKey =>
      }
    }
  }
}
