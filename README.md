# Lightbox navigator of a portfolio page script

A Dafny model of the interactive core of `script.js`, the script of a static
portfolio page. The core is the image lightbox: an image list collected once
from the gallery markup, an index into it, a "visible" fade-in flag, the
overlay's `open` class and `aria-hidden` attribute, and the page scroll lock
(`document.body.style.overflow`). Its handlers are `showImageAt`,
`openLightbox`, `closeLightbox`, the `keydown` listener (Escape closes,
ArrowLeft/ArrowRight step with wraparound) and `handleSwipe` with its
50-pixel threshold. The contact modal and the mobile navigation drawer are
modelled too, because they share the scroll lock and the Escape key with the
lightbox.

Layout:

- `wrappers.dfy` — `Option`, standing for a value that may be `undefined`.
- `wraparound.dfy` — JavaScript's truncating `%` (`JsRem`), the two wrapping
  steps `Next` and `Prev`, and their arithmetic: closed forms inside the
  range, the steps from the initial index -1, inverse steps, and `m` presses
  as `m` places modulo `n`.
- `gallery.dfy` — gallery items (`data-image` attribute, nested `img` source),
  the `||` choice between them and the `filter(Boolean)` image list, with its
  order, membership and alignment lemmas.
- `swipe.dfy` — the swipe threshold and the three-way reading of a distance.
- `navigator.dfy` — every handler as a function from the state before an event
  to the state after it, over a `State` value, under an invariant `Inv` that
  every handler preserves.
- `properties.dfy` — the promises about those handlers as lemmas.
- `page.dfy` — class `Page`: the script's variables and the DOM state it
  writes, as fields; one method per handler that updates them step by step
  and is proved equal to the matching `Navigator` function; two verified
  scenarios on a newly built page.

Element lookups (`getElementById`, `querySelector`) are inputs: the `Config`
records which of the lightbox, its image, the contact modal and the
hamburger-plus-drawer pair exist, and each handler's guard on a missing
element is kept. Touch coordinates are integers. Event listeners become
method calls with plain arguments (the key name, the touch x-coordinate).

Behaviours of the script that its handlers' names do not suggest, all kept:

- `openLightbox(index)` does not check the index. A click on gallery item `i`
  passes `i`, and because items without a source are dropped from the list,
  `i` can be past the end of it; the lightbox then opens on `images[i]`, which
  is `undefined` (`imgSrc == None` here). `MisalignedClick` exhibits it. The
  next arrow press or swipe lands back in range.
- `showImageAt` does not reduce its index modulo the list length; only the
  arrow and swipe handlers do.
- `closeLightbox` is not a no-op when the lightbox is already closed: it sets
  the class, the attribute and the scroll lock again. Its result is still the
  same after one call or two (`CloseIdempotent`).
- Every close releases the scroll lock, even while another overlay is still
  open (`CloseReleasesSharedLock`).
- `handleSwipe` does not check that the lightbox is open.

## Model

| member | source | states |
|---|---|---|
| `Wraparound.JsRem` | script.js:72-74 | JavaScript's remainder: it has the dividend's sign, its magnitude is below `n`, and it differs from the dividend by a multiple of `n`, which fixes its value |
| `Wraparound.Next` | script.js:74 | `(currentIndex + 1) % n` is a valid index from any index at least -1 |
| `Wraparound.Prev` | script.js:72 | `(currentIndex - 1 + n) % n` is a valid index from any index at least -1, the -1 of a one-image list included |
| `Wraparound.NextInRange` | script.js:73-74 | inside the range ArrowRight adds one, and goes from the last index `n-1` to 0 |
| `Wraparound.PrevInRange` | script.js:71-72 | inside the range ArrowLeft subtracts one, and goes from 0 to the last index `n-1` |
| `Wraparound.StepsFromUnset` | script.js:92-100 | from the initial index -1 a forward step reaches 0 and a backward step reaches `n-2` (0 when `n == 1`) |
| `Wraparound.PrevNextInverse` | script.js:71-74 | a forward and a backward step undo each other in either order |
| `Wraparound.Advance` | script.js:73-74 | the index after `m >= 1` ArrowRight presses is in range |
| `Wraparound.Retreat` | script.js:71-72 | the index after `m >= 1` ArrowLeft presses is in range |
| `Wraparound.AdvanceIs` | script.js:73-74 | `m` forward steps from index `k` reach `(k + m) mod n` |
| `Wraparound.RetreatIs` | script.js:71-72 | `m` backward steps from index `k` reach `(k - m) mod n` |
| `Wraparound.FullCycle` | script.js:71-74 | `n` steps in one direction come back to the start |
| `Gallery.ItemSource` | script.js:13 | a non-empty `data-image` wins; otherwise the nested image's source, `undefined` without one |
| `Gallery.BuildImages` | script.js:12-14 | the list has at most one entry per gallery item and no empty source |
| `Gallery.BuildImagesAppend` | script.js:12-14 | the list keeps gallery order: the list of a concatenation is the concatenation of the lists |
| `Gallery.BuildImagesMembers` | script.js:12-14 | a string is in the list exactly when some gallery item provides it as a non-empty source |
| `Gallery.BuildImagesComplete` | script.js:12-14 | the list is as long as the gallery exactly when every item has a source |
| `Gallery.PrefixAligned` | script.js:12-14 | image `i` is item `i`'s source when item `i` and all before it have one |
| `Swipe.Classify` | script.js:86-101 | distances strictly between -50 and 50 are ignored, at most -50 means next, at least 50 means previous |
| `Navigator.ImageAt` | script.js:26 | `images[k]` is defined exactly for `k` in range |
| `Navigator.Initial` | script.js:11-14 | after loading, the index is -1 and every overlay is closed; the invariant holds |
| `Navigator.ShowImageAt` | script.js:16-27 | with no image element or an empty list nothing changes; otherwise the index is set, the image hidden until it loads and its source is `images[index]` (`undefined` past the end); nothing else changes |
| `Navigator.ImageLoaded` | script.js:22-24 | after a load the image is visible exactly when it was, or some image has been shown |
| `Navigator.OpenLightbox` | script.js:29-36 | with a lightbox: open, `aria-hidden="false"`, scroll locked, index, source and cleared fade-in flag as `showImageAt` sets them; with no image element or no images only the overlay and lock change; without a lightbox nothing changes |
| `Navigator.CloseLightbox` | script.js:38-44 | with a lightbox: closed, `aria-hidden="true"`, scroll unlocked; nothing else changes |
| `Navigator.LightboxKey` | script.js:67-75 | closed lightbox or other key: no change; Escape closes and keeps the index; the arrows take one wrapping step, land in range, show that image hidden until it loads and change nothing but the image state; with no image element or no images the arrows change nothing |
| `Navigator.HandleSwipe` | script.js:86-102 | a short swipe changes nothing; a long one takes exactly one step (left swipe forward, right swipe back), lands in range and hides the image until it loads; with no image element or no images nothing changes; only the image state changes |
| `Navigator.TouchStart` | script.js:105-107 | records the start coordinate, nothing else |
| `Navigator.TouchEnd` | script.js:109-112 | records the end coordinate; a short swipe from the recorded start does nothing more, a long one takes exactly one wrapping step (left forward, right back), lands in range and hides the image until it loads; with no image element or no images only the end coordinate changes; nothing else changes |
| `Navigator.OpenContact` | script.js:124-129 | the modal opens with `aria-hidden="false"` and scroll locked; nothing else changes |
| `Navigator.CloseContact` | script.js:131-136 | the modal closes with `aria-hidden="true"` and scroll unlocked; nothing else changes |
| `Navigator.ContactKey` | script.js:158-163 | Escape on an open modal closes it with `aria-hidden="true"` and releases the scroll lock, nothing else; other keys, or a closed modal, change nothing |
| `Navigator.OpenMobileNav` | script.js:187-193 | drawer open, hamburger active with `aria-expanded="true"`, scroll locked; nothing else changes |
| `Navigator.CloseMobileNav` | script.js:195-201 | drawer closed, hamburger inactive with `aria-expanded="false"`, scroll unlocked; nothing else changes |
| `Navigator.HamburgerClick` | script.js:203-209 | the click flips the drawer's open state, locks scrolling when it opens and unlocks it when it closes; nothing outside the drawer, button and lock changes |
| `Navigator.MobileNavKey` | script.js:222-226 | Escape on an open drawer closes it, deactivates the hamburger and releases the scroll lock, nothing else; other keys, or a closed drawer, change nothing |
| `Navigator.KeyDown` | script.js:67-226 | the three `keydown` listeners (lines 67-75, 158-163, 222-226) in registration order preserve the invariant |
| `NavigatorProperties.CloseIdempotent` | script.js:38-44 | closing the lightbox, the modal or the drawer twice is the same as once |
| `NavigatorProperties.OpenShowsImage` | script.js:29-36 | opening item `i` of the list shows `images[i]`, open with `aria-hidden="false"` and scroll locked |
| `NavigatorProperties.ClickOpensOwnImage` | script.js:47-50 | a click on gallery item `i` shows that item's own source when no item up to `i` lacks one |
| `NavigatorProperties.ArrowsUndoEachOther` | script.js:71-74 | ArrowRight then ArrowLeft, or the reverse, restores the index and the displayed image |
| `NavigatorProperties.ArrowsWrap` | script.js:71-74 | the arrows move by one and wrap: right at the last image gives the first, left at the first gives the last |
| `NavigatorProperties.Presses` | script.js:67-75 | repeated presses keep the invariant and do nothing on a closed lightbox |
| `NavigatorProperties.PressesMove` | script.js:71-74 | `m` arrow presses keep the lightbox open and move the index `m` places with wraparound |
| `NavigatorProperties.FullRoundReturns` | script.js:71-74 | one press per image in either direction shows the starting image again |
| `NavigatorProperties.SwipesAreArrows` | script.js:92-100 | on an open lightbox a left swipe equals ArrowRight and a right swipe equals ArrowLeft |
| `NavigatorProperties.EscapeClosesEverything` | script.js:67-226 | one Escape, through the listeners at lines 67-75, 158-163 and 222-226, closes every open overlay, keeps the index and image, unlocks scrolling if anything was open, and changes nothing otherwise |
| `NavigatorProperties.OtherKeysIgnored` | script.js:67-75 | keys other than Escape and the arrows change nothing |
| `NavigatorProperties.ToggleTwice` | script.js:203-209 | two hamburger clicks restore the drawer and the button |
| `NavigatorProperties.CloseReleasesSharedLock` | script.js:124-135 | opening and closing the modal over an open lightbox leaves the lightbox open and scrolling unlocked |
| `NavigatorProperties.MisalignedClick` | script.js:47-50 | with a source-less first item, clicking the second opens index 1 of a one-image list on `undefined`; ArrowRight then shows the image |
| `Script.Page.constructor` | script.js:11-14 | fields start in `Navigator.Initial`, the image list is `BuildImages` of the gallery items |
| `Script.Page.ShowImageAt` | script.js:16-27 | the field updates give `Navigator.ShowImageAt` and keep the invariant |
| `Script.Page.ImageLoaded` | script.js:22-24 | the field updates give `Navigator.ImageLoaded` |
| `Script.Page.OpenLightbox` | script.js:29-36 | the field updates give `Navigator.OpenLightbox` |
| `Script.Page.CloseLightbox` | script.js:38-44 | the field updates give `Navigator.CloseLightbox` |
| `Script.Page.LightboxKeyDown` | script.js:67-75 | the listener's updates, with the `%` written out, give `Navigator.LightboxKey` |
| `Script.Page.HandleSwipe` | script.js:86-102 | the absolute-value test and sign split give `Navigator.HandleSwipe` |
| `Script.Page.TouchStart` | script.js:105-107 | gives `Navigator.TouchStart` |
| `Script.Page.TouchEnd` | script.js:109-112 | gives `Navigator.TouchEnd` |
| `Script.Page.OpenContact` | script.js:124-129 | gives `Navigator.OpenContact` |
| `Script.Page.CloseContact` | script.js:131-136 | gives `Navigator.CloseContact` |
| `Script.Page.ContactKeyDown` | script.js:158-163 | gives `Navigator.ContactKey` |
| `Script.Page.OpenMobileNav` | script.js:187-193 | gives `Navigator.OpenMobileNav` |
| `Script.Page.CloseMobileNav` | script.js:195-201 | gives `Navigator.CloseMobileNav` |
| `Script.Page.HamburgerClick` | script.js:203-209 | gives `Navigator.HamburgerClick` |
| `Script.Page.MobileNavKeyDown` | script.js:222-226 | gives `Navigator.MobileNavKey` |
| `Script.Page.KeyDown` | script.js:67-75 | running the three listeners in turn gives `Navigator.KeyDown` |
| `Script.WalkThreeImages` | script.js:71-74 | on a three-image page, opening the first and pressing ArrowRight three times shows a, b, c, a |
| `Script.EscapeWithEverythingOpen` | script.js:67-226 | with lightbox, modal and drawer all open, one Escape through the listeners at lines 67-75, 158-163 and 222-226 closes all three, keeps the index and unlocks scrolling |

## Left out

- The asynchronous fade-in: `onload` followed by `requestAnimationFrame` is one
  `ImageLoaded` event; the delay of one animation frame is not modelled.
- The lazy-image `loaded` class: a browser load callback with no bearing on
  the lightbox state.
- The 50 ms `setTimeout` before a drawer link click closes the drawer: timer
  scheduling. The close itself is `CloseMobileNav`.
- Click wiring: the gallery item, close-button and backdrop click listeners
  are the calls `OpenLightbox(i)`, `CloseLightbox()`, `CloseContact()` and
  `OpenContact()`; the backdrop's `e.target` test and `preventDefault` are
  not modelled.
- Context-menu suppression on the lightbox image and on protected elements:
  it only calls `preventDefault`.
- `img.src` resolving to an absolute URL, and the string "undefined" that a
  browser would make of an `undefined` source: the model keeps the source as
  given, or `None`.
- Arrow and swipe arithmetic on an empty list (NaN in JavaScript): the model
  skips it, which gives the same state because `showImageAt` returns at once.
- Floating-point touch coordinates: `clientX` is an integer here.
- A page with a hamburger button but no drawer, or the reverse: `hasMobileNav`
  stands for both together. With the drawer missing, the script throws before
  changing anything, which the model treats as no change; the partial update
  when only the button is missing is not modelled.
- The page markup's own initial state: every overlay is assumed to start
  closed with `aria-hidden="true"`, the hamburger with
  `aria-expanded="false"`, and no inline `overflow` style.
