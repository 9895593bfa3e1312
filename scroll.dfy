/** The navbar's scroll rule: hide the navbar while the page scrolls down,
    show it otherwise, and remember the offset, clamped at the top. */
module Scroll {

  /** `window.pageYOffset || document.documentElement.scrollTop`: a zero page
      offset falls back to the document element's offset. */
  function ScrollOffset(pageYOffset: int, documentScrollTop: int): int {
    if pageYOffset != 0 then pageYOffset else documentScrollTop
  }

  /** The navbar flag and the stored offset. */
  datatype NavState = NavState(navbarHidden: bool, lastScrollTop: int)

  /** One scroll sample: the navbar is hidden exactly when the offset grew
      past the stored one, and the stored offset becomes max(offset, 0). */
  function ScrollStep(lastScrollTop: int, offset: int): (s: NavState)
    ensures s.navbarHidden <==> offset > lastScrollTop
    ensures s.lastScrollTop >= 0 && s.lastScrollTop >= offset
    ensures s.lastScrollTop == offset || (offset < 0 && s.lastScrollTop == 0)
  {
    NavState(offset > lastScrollTop, if offset <= 0 then 0 else offset)
  }

  /** A second sample at the same offset shows the navbar: it only stays
      hidden while the page keeps moving down. */
  lemma SettledScrollShowsNavbar(lastScrollTop: int, offset: int)
    ensures !ScrollStep(ScrollStep(lastScrollTop, offset).lastScrollTop, offset).navbarHidden
  {
  }
}
