/**
 * The page's overlays as a state machine: the lightbox with its image index,
 * the contact modal and the mobile navigation drawer, which all share the
 * body's scroll lock. Each function is one event handler of the page script,
 * taken from the state before the event to the state after it.
 */
module Navigator {
  import opened Wrappers
  import opened Wraparound
  import opened Swipe

  /** An overlay element: its `open` class and its `aria-hidden` attribute. */
  datatype Overlay = Overlay(open: bool, ariaHidden: string)

  const Shown: Overlay := Overlay(true, "false")
  const Hidden: Overlay := Overlay(false, "true")

  /** What the page markup fixes once: the image list, the number of gallery
      items, and which of the elements the script looks up are present
      (`hasMobileNav` stands for the hamburger button and the drawer together). */
  datatype Config = Config(
    images: seq<string>,
    galleryCount: nat,
    hasLightbox: bool,
    hasLightboxImg: bool,
    hasContactModal: bool,
    hasMobileNav: bool)

  /** Everything the script changes. `imgSrc` is the lightbox image's source
      (`None` before the script sets one, and for `images[k]` out of range,
      which is `undefined`); `onloadSet` records that the fade-in `onload`
      handler has been installed; `overflow` is `document.body.style.overflow`. */
  datatype State = State(
    currentIndex: int,
    lightbox: Overlay,
    imgSrc: Option<string>,
    imgVisible: bool,
    onloadSet: bool,
    overflow: string,
    startX: int,
    endX: int,
    contact: Overlay,
    mobileNav: Overlay,
    hamburgerActive: bool,
    hamburgerExpanded: string)

  /** `images[k]`, which JavaScript evaluates to `undefined` out of range. */
  function ImageAt(images: seq<string>, k: int): (v: Option<string>)
    ensures v.Some? <==> 0 <= k < |images|
  {
    if 0 <= k < |images| then Some(images[k]) else None
  }

  /** The facts every reachable state satisfies. */
  predicate Inv(c: Config, s: State)
  {
    |c.images| <= c.galleryCount
    && -1 <= s.currentIndex
    // an image has been shown exactly when the index has left its initial -1
    && (s.onloadSet <==> s.currentIndex != -1)
    && (s.currentIndex != -1 ==> c.hasLightboxImg && c.images != [])
    // the displayed source always agrees with the index, in range or not
    && s.imgSrc == ImageAt(c.images, s.currentIndex)
    // each overlay's class and aria-hidden attribute agree
    && (s.lightbox == Shown || s.lightbox == Hidden)
    && (s.contact == Shown || s.contact == Hidden)
    && (s.mobileNav == Shown || s.mobileNav == Hidden)
    && (s.lightbox.open ==> c.hasLightbox)
    && (s.contact.open ==> c.hasContactModal)
    && (s.mobileNav.open ==> c.hasMobileNav)
    // an open lightbox shows an image whenever there is one to show
    && (s.lightbox.open && c.hasLightboxImg && c.images != [] ==> s.currentIndex != -1)
    && s.hamburgerActive == s.mobileNav.open
    && s.hamburgerExpanded == (if s.mobileNav.open then "true" else "false")
    // the scroll lock is only ever held while some overlay is open
    && (s.overflow == "" || s.overflow == "hidden")
    && (s.overflow == "hidden" ==> s.lightbox.open || s.contact.open || s.mobileNav.open)
  }

  /** The state when the page has loaded: no image shown, every overlay closed
      as the markup declares it, no scroll lock, no touch recorded. */
  function Initial(c: Config): (s: State)
    requires |c.images| <= c.galleryCount
    ensures Inv(c, s)
    ensures s.currentIndex == -1 && !s.lightbox.open && !s.contact.open && !s.mobileNav.open
  {
    State(-1, Hidden, None, false, false, "", 0, 0, Hidden, Hidden, false, "false")
  }

  // ---------------------------------------------------------------- lightbox

  /** `showImageAt(index)`: with an image element and a non-empty list, record
      the index, hide the image until it loads and load `images[index]`;
      otherwise do nothing. Nothing outside the lightbox image changes. */
  function ShowImageAt(c: Config, s: State, index: nat): (r: State)
    requires Inv(c, s)
    ensures Inv(c, r)
    ensures !c.hasLightboxImg || c.images == [] ==> r == s
    ensures c.hasLightboxImg && c.images != [] ==>
      r.currentIndex == index && !r.imgVisible && r.onloadSet
      && (index < |c.images| ==> r.imgSrc == Some(c.images[index]))
      && (index >= |c.images| ==> r.imgSrc == None)
    ensures r == s.(currentIndex := r.currentIndex, imgSrc := r.imgSrc,
                    imgVisible := r.imgVisible, onloadSet := r.onloadSet)
  {
    if !c.hasLightboxImg || |c.images| == 0 then s
    else s.(currentIndex := index, imgVisible := false, onloadSet := true,
            imgSrc := ImageAt(c.images, index))
  }

  /** The image's `onload` handler, once installed, makes it visible (the
      animation-frame delay before that is not modelled). */
  function ImageLoaded(c: Config, s: State): (r: State)
    requires Inv(c, s)
    ensures Inv(c, r)
    ensures r.imgVisible == (s.imgVisible || s.currentIndex != -1)
    ensures r == s.(imgVisible := r.imgVisible)
  {
    if s.onloadSet then s.(imgVisible := true) else s
  }

  /** `openLightbox(index)` for the gallery item at click position `index`.
      The index is not checked against the image list: past its end the
      lightbox opens on an `undefined` source. */
  function OpenLightbox(c: Config, s: State, index: nat): (r: State)
    requires Inv(c, s) && index < c.galleryCount
    ensures Inv(c, r)
    ensures !c.hasLightbox ==> r == s
    ensures c.hasLightbox ==> r.lightbox == Shown && r.overflow == "hidden"
    ensures c.hasLightbox && c.hasLightboxImg && c.images != [] ==>
      r.currentIndex == index && r.imgSrc == ImageAt(c.images, index) && !r.imgVisible
    ensures c.hasLightbox && (!c.hasLightboxImg || c.images == []) ==>
      r == s.(lightbox := Shown, overflow := "hidden")
    ensures r == s.(lightbox := r.lightbox, overflow := r.overflow,
                    currentIndex := r.currentIndex, imgSrc := r.imgSrc,
                    imgVisible := r.imgVisible, onloadSet := r.onloadSet)
  {
    if !c.hasLightbox then s
    else ShowImageAt(c, s, index).(lightbox := Shown, overflow := "hidden")
  }

  /** `closeLightbox()`: close the overlay and release the scroll lock, even if
      another overlay still holds it. The index and the image stay. */
  function CloseLightbox(c: Config, s: State): (r: State)
    requires Inv(c, s)
    ensures Inv(c, r)
    ensures !c.hasLightbox ==> r == s
    ensures c.hasLightbox ==> r.lightbox == Hidden && r.overflow == ""
    ensures r == s.(lightbox := r.lightbox, overflow := r.overflow)
  {
    if !c.hasLightbox then s else s.(lightbox := Hidden, overflow := "")
  }

  /** The lightbox's `keydown` listener. Nothing happens while it is closed;
      Escape closes it; the arrows step through the images with wraparound,
      and land in range from any index, even one a misaligned click left
      past the end. With no images the arrow arithmetic gives NaN and
      `showImageAt` returns at once. */
  function LightboxKey(c: Config, s: State, key: string): (r: State)
    requires Inv(c, s)
    ensures Inv(c, r)
    ensures !s.lightbox.open ==> r == s
    ensures key != "Escape" && key != "ArrowLeft" && key != "ArrowRight" ==> r == s
    ensures s.lightbox.open && key == "Escape" ==>
      r == s.(lightbox := Hidden, overflow := "")
    ensures key == "ArrowLeft" || key == "ArrowRight" ==>
      r == s.(currentIndex := r.currentIndex, imgSrc := r.imgSrc,
              imgVisible := r.imgVisible, onloadSet := r.onloadSet)
    ensures s.lightbox.open && c.hasLightboxImg && c.images != [] && key == "ArrowRight" ==>
      r.currentIndex == Next(s.currentIndex, |c.images|)
    ensures s.lightbox.open && c.hasLightboxImg && c.images != [] && key == "ArrowLeft" ==>
      r.currentIndex == Prev(s.currentIndex, |c.images|)
    ensures s.lightbox.open && c.hasLightboxImg && c.images != []
            && (key == "ArrowLeft" || key == "ArrowRight") ==>
      0 <= r.currentIndex < |c.images| && r.imgSrc == Some(c.images[r.currentIndex]) && !r.imgVisible
    ensures (!c.hasLightboxImg || c.images == []) && key != "Escape" ==> r == s
  {
    if !s.lightbox.open then s
    else if key == "Escape" then CloseLightbox(c, s)
    else if key == "ArrowLeft" then
      if c.images == [] then s else ShowImageAt(c, s, Prev(s.currentIndex, |c.images|))
    else if key == "ArrowRight" then
      if c.images == [] then s else ShowImageAt(c, s, Next(s.currentIndex, |c.images|))
    else s
  }

  /** `handleSwipe()` on the recorded `startX` and `endX`. It does not look at
      whether the lightbox is open. A short movement changes nothing; a long
      one takes exactly one step, forward for a leftward swipe and back for a
      rightward one, and leaves the index in range. */
  function HandleSwipe(c: Config, s: State): (r: State)
    requires Inv(c, s)
    ensures Inv(c, r)
    ensures Classify(s.endX - s.startX) == Ignored ==> r == s
    ensures c.hasLightboxImg && c.images != [] && Classify(s.endX - s.startX) == ToNext ==>
      r.currentIndex == Next(s.currentIndex, |c.images|)
    ensures c.hasLightboxImg && c.images != [] && Classify(s.endX - s.startX) == ToPrevious ==>
      r.currentIndex == Prev(s.currentIndex, |c.images|)
    ensures c.hasLightboxImg && c.images != [] && Classify(s.endX - s.startX) != Ignored ==>
      0 <= r.currentIndex < |c.images| && r.imgSrc == Some(c.images[r.currentIndex]) && !r.imgVisible
    ensures !c.hasLightboxImg || c.images == [] ==> r == s
    ensures r == s.(currentIndex := r.currentIndex, imgSrc := r.imgSrc,
                    imgVisible := r.imgVisible, onloadSet := r.onloadSet)
  {
    match Classify(s.endX - s.startX)
    case Ignored => s
    case ToNext =>
      if c.images == [] then s else ShowImageAt(c, s, Next(s.currentIndex, |c.images|))
    case ToPrevious =>
      if c.images == [] then s else ShowImageAt(c, s, Prev(s.currentIndex, |c.images|))
  }

  /** The lightbox's `touchstart` listener records where the touch began. */
  function TouchStart(c: Config, s: State, x: int): (r: State)
    requires Inv(c, s)
    ensures Inv(c, r)
    ensures r.startX == if c.hasLightbox then x else s.startX
    ensures r == s.(startX := r.startX)
  {
    if c.hasLightbox then s.(startX := x) else s
  }

  /** The lightbox's `touchend` listener records where the touch ended and
      classifies the swipe. */
  function TouchEnd(c: Config, s: State, x: int): (r: State)
    requires Inv(c, s)
    ensures Inv(c, r)
    ensures !c.hasLightbox ==> r == s
    ensures c.hasLightbox ==> r.endX == x && r.startX == s.startX
    ensures c.hasLightbox && Classify(x - s.startX) == Ignored ==> r == s.(endX := x)
    ensures c.hasLightbox && c.hasLightboxImg && c.images != [] && Classify(x - s.startX) == ToNext ==>
      r.currentIndex == Next(s.currentIndex, |c.images|)
    ensures c.hasLightbox && c.hasLightboxImg && c.images != [] && Classify(x - s.startX) == ToPrevious ==>
      r.currentIndex == Prev(s.currentIndex, |c.images|)
    ensures c.hasLightbox && c.hasLightboxImg && c.images != [] && Classify(x - s.startX) != Ignored ==>
      0 <= r.currentIndex < |c.images| && r.imgSrc == Some(c.images[r.currentIndex]) && !r.imgVisible
    ensures c.hasLightbox && (!c.hasLightboxImg || c.images == []) ==> r == s.(endX := x)
    ensures r == s.(endX := r.endX, currentIndex := r.currentIndex, imgSrc := r.imgSrc,
                    imgVisible := r.imgVisible, onloadSet := r.onloadSet)
  {
    if c.hasLightbox then HandleSwipe(c, s.(endX := x)) else s
  }

  // ----------------------------------------------------------- contact modal

  /** `openContact()`: open the modal and lock scrolling. */
  function OpenContact(c: Config, s: State): (r: State)
    requires Inv(c, s)
    ensures Inv(c, r)
    ensures !c.hasContactModal ==> r == s
    ensures c.hasContactModal ==> r.contact == Shown && r.overflow == "hidden"
    ensures r == s.(contact := r.contact, overflow := r.overflow)
  {
    if !c.hasContactModal then s else s.(contact := Shown, overflow := "hidden")
  }

  /** `closeContact()`: close the modal and release the scroll lock. */
  function CloseContact(c: Config, s: State): (r: State)
    requires Inv(c, s)
    ensures Inv(c, r)
    ensures !c.hasContactModal ==> r == s
    ensures c.hasContactModal ==> r.contact == Hidden && r.overflow == ""
    ensures r == s.(contact := r.contact, overflow := r.overflow)
  {
    if !c.hasContactModal then s else s.(contact := Hidden, overflow := "")
  }

  /** The contact modal's `keydown` listener: Escape closes it when open. */
  function ContactKey(c: Config, s: State, key: string): (r: State)
    requires Inv(c, s)
    ensures Inv(c, r)
    ensures key == "Escape" ==> !r.contact.open
    ensures key != "Escape" || !s.contact.open ==> r == s
    ensures key == "Escape" && s.contact.open ==> r == s.(contact := Hidden, overflow := "")
  {
    if key == "Escape" && s.contact.open then CloseContact(c, s) else s
  }

  // ------------------------------------------------------- mobile navigation

  /** `openMobileNav()`: open the drawer, mark the hamburger active and
      expanded, and lock scrolling. */
  function OpenMobileNav(c: Config, s: State): (r: State)
    requires Inv(c, s)
    ensures Inv(c, r)
    ensures !c.hasMobileNav ==> r == s
    ensures c.hasMobileNav ==>
      r.mobileNav == Shown && r.hamburgerActive && r.hamburgerExpanded == "true" && r.overflow == "hidden"
    ensures r == s.(mobileNav := r.mobileNav, hamburgerActive := r.hamburgerActive,
                    hamburgerExpanded := r.hamburgerExpanded, overflow := r.overflow)
  {
    if !c.hasMobileNav then s
    else s.(mobileNav := Shown, hamburgerActive := true, hamburgerExpanded := "true",
            overflow := "hidden")
  }

  /** `closeMobileNav()`: the reverse of opening, scroll lock included. */
  function CloseMobileNav(c: Config, s: State): (r: State)
    requires Inv(c, s)
    ensures Inv(c, r)
    ensures !c.hasMobileNav ==> r == s
    ensures c.hasMobileNav ==>
      r.mobileNav == Hidden && !r.hamburgerActive && r.hamburgerExpanded == "false" && r.overflow == ""
    ensures r == s.(mobileNav := r.mobileNav, hamburgerActive := r.hamburgerActive,
                    hamburgerExpanded := r.hamburgerExpanded, overflow := r.overflow)
  {
    if !c.hasMobileNav then s
    else s.(mobileNav := Hidden, hamburgerActive := false, hamburgerExpanded := "false",
            overflow := "")
  }

  /** The hamburger's `click` listener toggles the drawer. */
  function HamburgerClick(c: Config, s: State): (r: State)
    requires Inv(c, s)
    ensures Inv(c, r)
    ensures c.hasMobileNav ==> r.mobileNav.open == !s.mobileNav.open
    ensures c.hasMobileNav ==> r.overflow == (if s.mobileNav.open then "" else "hidden")
    ensures !c.hasMobileNav ==> r == s
    ensures r == s.(mobileNav := r.mobileNav, hamburgerActive := r.hamburgerActive,
                    hamburgerExpanded := r.hamburgerExpanded, overflow := r.overflow)
  {
    if !c.hasMobileNav then s
    else if s.mobileNav.open then CloseMobileNav(c, s)
    else OpenMobileNav(c, s)
  }

  /** The drawer's `keydown` listener: Escape closes it when open. */
  function MobileNavKey(c: Config, s: State, key: string): (r: State)
    requires Inv(c, s)
    ensures Inv(c, r)
    ensures key == "Escape" ==> !r.mobileNav.open
    ensures key != "Escape" || !s.mobileNav.open ==> r == s
    ensures key == "Escape" && s.mobileNav.open ==>
      r == s.(mobileNav := Hidden, hamburgerActive := false, hamburgerExpanded := "false",
              overflow := "")
  {
    if key == "Escape" && s.mobileNav.open then CloseMobileNav(c, s) else s
  }

  /** One key press: the three `keydown` listeners run in the order the script
      registers them. */
  function KeyDown(c: Config, s: State, key: string): (r: State)
    requires Inv(c, s)
    ensures Inv(c, r)
  {
    MobileNavKey(c, ContactKey(c, LightboxKey(c, s, key), key), key)
  }
}
