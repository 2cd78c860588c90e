/**
 * The page script as it runs: one object holding what the script's
 * module-level variables and the DOM elements it touches hold, with one
 * method per function or event listener. Each method updates the fields step
 * by step as the script does, and is proved to produce the state that the
 * matching Navigator function specifies.
 */
module Script {
  import opened Wrappers
  import opened Wraparound
  import opened Swipe
  import opened Gallery
  import Navigator

  class Page {
    // fixed when the page has loaded
    const images: seq<string>
    const galleryCount: nat
    const hasLightbox: bool
    const hasLightboxImg: bool
    const hasContactModal: bool
    const hasMobileNav: bool

    // lightbox
    var currentIndex: int
    var lightbox: Navigator.Overlay
    var imgSrc: Option<string>
    var imgVisible: bool
    var onloadSet: bool
    var startX: int
    var endX: int
    // document.body.style.overflow
    var overflow: string
    // contact modal
    var contact: Navigator.Overlay
    // mobile navigation
    var mobileNav: Navigator.Overlay
    var hamburgerActive: bool
    var hamburgerExpanded: string

    function Config(): Navigator.Config
    {
      Navigator.Config(images, galleryCount, hasLightbox, hasLightboxImg, hasContactModal, hasMobileNav)
    }

    function State(): Navigator.State
      reads this
    {
      Navigator.State(currentIndex, lightbox, imgSrc, imgVisible, onloadSet, overflow,
                      startX, endX, contact, mobileNav, hamburgerActive, hamburgerExpanded)
    }

    ghost predicate Valid()
      reads this
    {
      Navigator.Inv(Config(), State())
    }

    /** The script's start-up: collect the image list from the gallery items;
        the markup declares every overlay closed. */
    constructor (items: seq<GalleryItem>, hasLightbox: bool, hasLightboxImg: bool,
                 hasContactModal: bool, hasMobileNav: bool)
      ensures Valid()
      ensures images == BuildImages(items) && galleryCount == |items|
      ensures this.hasLightbox == hasLightbox && this.hasLightboxImg == hasLightboxImg
      ensures this.hasContactModal == hasContactModal && this.hasMobileNav == hasMobileNav
      ensures State() == Navigator.Initial(Config())
    {
      images := BuildImages(items);
      galleryCount := |items|;
      this.hasLightbox := hasLightbox;
      this.hasLightboxImg := hasLightboxImg;
      this.hasContactModal := hasContactModal;
      this.hasMobileNav := hasMobileNav;
      currentIndex := -1;
      lightbox := Navigator.Hidden;
      imgSrc := None;
      imgVisible := false;
      onloadSet := false;
      startX, endX := 0, 0;
      overflow := "";
      contact := Navigator.Hidden;
      mobileNav := Navigator.Hidden;
      hamburgerActive := false;
      hamburgerExpanded := "false";
    }

    method ShowImageAt(index: nat)
      requires Valid()
      modifies this
      ensures Valid()
      ensures State() == Navigator.ShowImageAt(Config(), old(State()), index)
    {
      if !hasLightboxImg || |images| == 0 {
        return;
      }
      currentIndex := index;
      imgVisible := false;
      onloadSet := true;
      imgSrc := if 0 <= currentIndex < |images| then Some(images[currentIndex]) else None;
    }

    /** The image has finished loading; its `onload` handler, if installed,
        makes it visible. */
    method ImageLoaded()
      requires Valid()
      modifies this
      ensures Valid()
      ensures State() == Navigator.ImageLoaded(Config(), old(State()))
    {
      if onloadSet {
        imgVisible := true;
      }
    }

    method OpenLightbox(index: nat)
      requires Valid() && index < galleryCount
      modifies this
      ensures Valid()
      ensures State() == Navigator.OpenLightbox(Config(), old(State()), index)
    {
      if !hasLightbox {
        return;
      }
      ShowImageAt(index);
      lightbox := lightbox.(open := true);
      lightbox := lightbox.(ariaHidden := "false");
      overflow := "hidden";
    }

    method CloseLightbox()
      requires Valid()
      modifies this
      ensures Valid()
      ensures State() == Navigator.CloseLightbox(Config(), old(State()))
    {
      if !hasLightbox {
        return;
      }
      lightbox := lightbox.(open := false);
      lightbox := lightbox.(ariaHidden := "true");
      overflow := "";
    }

    method LightboxKeyDown(key: string)
      requires Valid()
      modifies this
      ensures Valid()
      ensures State() == Navigator.LightboxKey(Config(), old(State()), key)
    {
      if !(hasLightbox && lightbox.open) {
        return;
      }
      if key == "Escape" {
        CloseLightbox();
        return;
      }
      // with no images the index is NaN and showImageAt returns at once
      if key == "ArrowLeft" {
        if |images| > 0 {
          ShowImageAt(JsRem(currentIndex - 1 + |images|, |images|));
        }
        return;
      }
      if key == "ArrowRight" {
        if |images| > 0 {
          ShowImageAt(JsRem(currentIndex + 1, |images|));
        }
      }
    }

    method HandleSwipe()
      requires Valid()
      modifies this
      ensures Valid()
      ensures State() == Navigator.HandleSwipe(Config(), old(State()))
    {
      var distance := endX - startX;
      if Abs(distance) < MinSwipeDistance {
        return;
      }
      if |images| == 0 {
        return;
      }
      if distance < 0 {
        var next := JsRem(currentIndex + 1, |images|);
        ShowImageAt(next);
      } else {
        var prev := JsRem(currentIndex - 1 + |images|, |images|);
        ShowImageAt(prev);
      }
    }

    method TouchStart(x: int)
      requires Valid()
      modifies this
      ensures Valid()
      ensures State() == Navigator.TouchStart(Config(), old(State()), x)
    {
      if hasLightbox {
        startX := x;
      }
    }

    method TouchEnd(x: int)
      requires Valid()
      modifies this
      ensures Valid()
      ensures State() == Navigator.TouchEnd(Config(), old(State()), x)
    {
      if hasLightbox {
        endX := x;
        HandleSwipe();
      }
    }

    method OpenContact()
      requires Valid()
      modifies this
      ensures Valid()
      ensures State() == Navigator.OpenContact(Config(), old(State()))
    {
      if !hasContactModal {
        return;
      }
      contact := contact.(open := true);
      contact := contact.(ariaHidden := "false");
      overflow := "hidden";
    }

    method CloseContact()
      requires Valid()
      modifies this
      ensures Valid()
      ensures State() == Navigator.CloseContact(Config(), old(State()))
    {
      if !hasContactModal {
        return;
      }
      contact := contact.(open := false);
      contact := contact.(ariaHidden := "true");
      overflow := "";
    }

    method ContactKeyDown(key: string)
      requires Valid()
      modifies this
      ensures Valid()
      ensures State() == Navigator.ContactKey(Config(), old(State()), key)
    {
      if key == "Escape" && hasContactModal && contact.open {
        CloseContact();
      }
    }

    method OpenMobileNav()
      requires Valid()
      modifies this
      ensures Valid()
      ensures State() == Navigator.OpenMobileNav(Config(), old(State()))
    {
      if !hasMobileNav {
        return;
      }
      mobileNav := mobileNav.(open := true);
      mobileNav := mobileNav.(ariaHidden := "false");
      hamburgerActive := true;
      hamburgerExpanded := "true";
      overflow := "hidden";
    }

    method CloseMobileNav()
      requires Valid()
      modifies this
      ensures Valid()
      ensures State() == Navigator.CloseMobileNav(Config(), old(State()))
    {
      if !hasMobileNav {
        return;
      }
      mobileNav := mobileNav.(open := false);
      mobileNav := mobileNav.(ariaHidden := "true");
      hamburgerActive := false;
      hamburgerExpanded := "false";
      overflow := "";
    }

    method HamburgerClick()
      requires Valid()
      modifies this
      ensures Valid()
      ensures State() == Navigator.HamburgerClick(Config(), old(State()))
    {
      if !hasMobileNav {
        return;
      }
      if mobileNav.open {
        CloseMobileNav();
      } else {
        OpenMobileNav();
      }
    }

    method MobileNavKeyDown(key: string)
      requires Valid()
      modifies this
      ensures Valid()
      ensures State() == Navigator.MobileNavKey(Config(), old(State()), key)
    {
      if key == "Escape" && hasMobileNav && mobileNav.open {
        CloseMobileNav();
      }
    }

    /** A key press on the document reaches the three listeners in turn. */
    method KeyDown(key: string)
      requires Valid()
      modifies this
      ensures Valid()
      ensures State() == Navigator.KeyDown(Config(), old(State()), key)
    {
      LightboxKeyDown(key);
      ContactKeyDown(key);
      MobileNavKeyDown(key);
    }
  }

  /** Verified scenario: on a newly built page with three images, opening
      the first and pressing ArrowRight three times shows a, b, c, a. */
  method WalkThreeImages() returns (shown: seq<Option<string>>)
    ensures shown == [Some("a"), Some("b"), Some("c"), Some("a")]
  {
    var items := [GalleryItem(Some("a"), None), GalleryItem(Some("b"), None),
                  GalleryItem(None, Some("c"))];
    assert items[1..][1..][1..] == [];
    var page := new Page(items, true, true, true, true);
    assert page.images == ["a", "b", "c"];
    page.OpenLightbox(0);
    shown := [page.imgSrc];
    NextInRange(0, 3);
    NextInRange(1, 3);
    NextInRange(2, 3);
    page.KeyDown("ArrowRight");
    shown := shown + [page.imgSrc];
    page.KeyDown("ArrowRight");
    shown := shown + [page.imgSrc];
    page.KeyDown("ArrowRight");
    shown := shown + [page.imgSrc];
  }

  /** Verified scenario: on a newly built page with all three overlays open,
      one Escape closes them all, keeps the image index and unlocks scrolling. */
  method EscapeWithEverythingOpen() returns (anyOpen: bool, index: int, overflow: string)
    ensures !anyOpen && index == 0 && overflow == ""
  {
    var page := new Page([GalleryItem(Some("a"), None)], true, true, true, true);
    page.OpenLightbox(0);
    page.OpenContact();
    page.HamburgerClick();
    page.KeyDown("Escape");
    anyOpen := page.lightbox.open || page.contact.open || page.mobileNav.open;
    index, overflow := page.currentIndex, page.overflow;
  }
}
