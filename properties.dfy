/**
 * What the page script promises about its overlays, proved of the state
 * machine in Navigator: closing is idempotent, the arrows undo each other
 * and wrap at both ends, a full round of presses comes back to the first
 * image, swipes are arrow presses, one Escape closes every overlay, and the
 * scroll lock is one flag shared by all of them.
 */
module NavigatorProperties {
  import opened Wrappers
  import opened Wraparound
  import opened Swipe
  import opened Gallery
  import opened Navigator

  /** Closing an overlay a second time changes nothing more. */
  lemma CloseIdempotent(c: Config, s: State)
    requires Inv(c, s)
    ensures CloseLightbox(c, CloseLightbox(c, s)) == CloseLightbox(c, s)
    ensures CloseContact(c, CloseContact(c, s)) == CloseContact(c, s)
    ensures CloseMobileNav(c, CloseMobileNav(c, s)) == CloseMobileNav(c, s)
  {
  }

  /** Opening gallery item i shows image i when the list has one; the lightbox
      is open with `aria-hidden="false"` and scrolling is locked. */
  lemma OpenShowsImage(c: Config, s: State, i: nat)
    requires Inv(c, s) && c.hasLightbox && c.hasLightboxImg && i < |c.images|
    ensures OpenLightbox(c, s, i).currentIndex == i
    ensures OpenLightbox(c, s, i).imgSrc == Some(c.images[i])
    ensures OpenLightbox(c, s, i).lightbox == Overlay(true, "false")
    ensures OpenLightbox(c, s, i).overflow == "hidden"
  {
  }

  /** A click on gallery item i opens that item's own image whenever neither it
      nor any item before it lacks a source. */
  lemma ClickOpensOwnImage(items: seq<GalleryItem>, c: Config, s: State, i: nat)
    requires c.images == BuildImages(items) && c.galleryCount == |items|
    requires Inv(c, s) && c.hasLightbox && c.hasLightboxImg && i < |items|
    requires forall j :: 0 <= j <= i ==> HasSource(items[j])
    ensures OpenLightbox(c, s, i).imgSrc == ItemSource(items[i])
  {
    PrefixAligned(items, i);
  }

  /** ArrowRight then ArrowLeft, or the other way round, comes back to the same
      image. */
  lemma ArrowsUndoEachOther(c: Config, s: State)
    requires Inv(c, s) && s.lightbox.open && c.hasLightboxImg
    requires 0 <= s.currentIndex < |c.images|
    ensures LightboxKey(c, LightboxKey(c, s, "ArrowRight"), "ArrowLeft").currentIndex == s.currentIndex
    ensures LightboxKey(c, LightboxKey(c, s, "ArrowRight"), "ArrowLeft").imgSrc == s.imgSrc
    ensures LightboxKey(c, LightboxKey(c, s, "ArrowLeft"), "ArrowRight").currentIndex == s.currentIndex
    ensures LightboxKey(c, LightboxKey(c, s, "ArrowLeft"), "ArrowRight").imgSrc == s.imgSrc
  {
    PrevNextInverse(s.currentIndex, |c.images|);
  }

  /** The arrows move by one inside the list and wrap at its ends: right from
      the last image goes to the first, left from the first to the last. */
  lemma ArrowsWrap(c: Config, s: State)
    requires Inv(c, s) && s.lightbox.open && c.hasLightboxImg
    requires 0 <= s.currentIndex < |c.images|
    ensures LightboxKey(c, s, "ArrowRight").currentIndex ==
      if s.currentIndex == |c.images| - 1 then 0 else s.currentIndex + 1
    ensures LightboxKey(c, s, "ArrowLeft").currentIndex ==
      if s.currentIndex == 0 then |c.images| - 1 else s.currentIndex - 1
  {
    NextInRange(s.currentIndex, |c.images|);
    PrevInRange(s.currentIndex, |c.images|);
  }

  /** The state after `m` presses of the same key. */
  function Presses(c: Config, s: State, key: string, m: nat): (r: State)
    requires Inv(c, s)
    ensures Inv(c, r)
    ensures !s.lightbox.open ==> r == s
  {
    if m == 0 then s else LightboxKey(c, Presses(c, s, key, m - 1), key)
  }

  /** While the lightbox is open, m presses of ArrowRight advance the index m
      places with wraparound, and m presses of ArrowLeft move it m places back. */
  lemma {:induction false} PressesMove(c: Config, s: State, m: nat)
    requires Inv(c, s) && s.lightbox.open && c.hasLightboxImg
    requires 0 <= s.currentIndex < |c.images|
    ensures Presses(c, s, "ArrowRight", m).lightbox.open
    ensures Presses(c, s, "ArrowRight", m).currentIndex == Advance(s.currentIndex, |c.images|, m)
    ensures Presses(c, s, "ArrowLeft", m).lightbox.open
    ensures Presses(c, s, "ArrowLeft", m).currentIndex == Retreat(s.currentIndex, |c.images|, m)
  {
    if m > 0 {
      PressesMove(c, s, m - 1);
    }
  }

  /** Pressing an arrow once per image brings back the image the round began at. */
  lemma FullRoundReturns(c: Config, s: State)
    requires Inv(c, s) && s.lightbox.open && c.hasLightboxImg
    requires 0 <= s.currentIndex < |c.images|
    ensures Presses(c, s, "ArrowRight", |c.images|).imgSrc == s.imgSrc
    ensures Presses(c, s, "ArrowLeft", |c.images|).imgSrc == s.imgSrc
  {
    PressesMove(c, s, |c.images|);
    FullCycle(s.currentIndex, |c.images|);
  }

  /** On an open lightbox a leftward swipe does exactly what ArrowRight does
      and a rightward swipe exactly what ArrowLeft does. */
  lemma SwipesAreArrows(c: Config, s: State)
    requires Inv(c, s) && s.lightbox.open
    ensures Classify(s.endX - s.startX) == ToNext ==>
      HandleSwipe(c, s) == LightboxKey(c, s, "ArrowRight")
    ensures Classify(s.endX - s.startX) == ToPrevious ==>
      HandleSwipe(c, s) == LightboxKey(c, s, "ArrowLeft")
  {
  }

  /** One Escape press closes whichever of the three overlays are open, keeps
      the image index, and releases the scroll lock if anything was open; with
      nothing open it changes nothing. */
  lemma EscapeClosesEverything(c: Config, s: State)
    requires Inv(c, s)
    ensures !KeyDown(c, s, "Escape").lightbox.open
    ensures !KeyDown(c, s, "Escape").contact.open
    ensures !KeyDown(c, s, "Escape").mobileNav.open
    ensures KeyDown(c, s, "Escape").currentIndex == s.currentIndex
    ensures KeyDown(c, s, "Escape").imgSrc == s.imgSrc
    ensures s.lightbox.open || s.contact.open || s.mobileNav.open ==>
      KeyDown(c, s, "Escape").overflow == ""
    ensures !s.lightbox.open && !s.contact.open && !s.mobileNav.open ==>
      KeyDown(c, s, "Escape") == s
  {
  }

  /** Keys other than Escape and the two arrows are ignored by every listener. */
  lemma OtherKeysIgnored(c: Config, s: State, key: string)
    requires Inv(c, s) && key != "Escape" && key != "ArrowLeft" && key != "ArrowRight"
    ensures KeyDown(c, s, key) == s
  {
  }

  /** Two clicks on the hamburger leave the drawer and the button as they were. */
  lemma ToggleTwice(c: Config, s: State)
    requires Inv(c, s)
    ensures HamburgerClick(c, HamburgerClick(c, s)).mobileNav == s.mobileNav
    ensures HamburgerClick(c, HamburgerClick(c, s)).hamburgerActive == s.hamburgerActive
    ensures HamburgerClick(c, HamburgerClick(c, s)).hamburgerExpanded == s.hamburgerExpanded
  {
  }

  /** The scroll lock is one flag for all overlays: opening and closing the
      contact modal over an open lightbox leaves the lightbox open with
      scrolling unlocked. */
  lemma CloseReleasesSharedLock(c: Config, s: State)
    requires Inv(c, s) && s.lightbox.open && c.hasContactModal
    ensures CloseContact(c, OpenContact(c, s)).lightbox.open
    ensures CloseContact(c, OpenContact(c, s)).overflow == ""
  {
  }

  /** A gallery whose first item has no source: clicking the second item
      (index 1) opens the lightbox on index 1 of a one-image list, an
      `undefined` source; the next ArrowRight wraps back to the one image. */
  lemma MisalignedClick()
    ensures
      var items := [GalleryItem(None, None), GalleryItem(Some("b"), None)];
      var c := Config(BuildImages(items), |items|, true, true, true, true);
      var s := OpenLightbox(c, Initial(c), 1);
      c.images == ["b"] && s.lightbox.open && s.currentIndex == 1 && s.imgSrc == None
      && LightboxKey(c, s, "ArrowRight").imgSrc == Some("b")
  {
    var items := [GalleryItem(None, None), GalleryItem(Some("b"), None)];
    assert items[1..][1..] == [];
    assert BuildImages(items) == ["b"];
    ModOfMultiplePlus(2, 1, 0);
  }
}
