/** The header's scroll handler: a `scrolled` class past 100 px, and the
    header slid out of view while scrolling down past 200 px. */
module ScrollEffects {

  const ScrolledThreshold: real := 100.0
  const HideThreshold: real := 200.0

  /** How the header looks after a scroll event. */
  datatype HeaderLook = HeaderLook(scrolled: bool, hidden: bool)

  /** The look the handler gives the header when the page moves from
      `lastScrollY` to `currentScrollY`. */
  function LookAfter(lastScrollY: real, currentScrollY: real): (h: HeaderLook)
    ensures h.scrolled <==> currentScrollY > ScrolledThreshold
    ensures h.hidden <==> currentScrollY > lastScrollY && currentScrollY > HideThreshold
  {
    HeaderLook(currentScrollY > ScrolledThreshold,
               currentScrollY > lastScrollY && currentScrollY > HideThreshold)
  }

  /** A hidden header always carries the `scrolled` class. */
  lemma HiddenIsScrolled(lastScrollY: real, currentScrollY: real)
    ensures LookAfter(lastScrollY, currentScrollY).hidden ==> LookAfter(lastScrollY, currentScrollY).scrolled
  {
  }

  /** Scrolling up, or an event that does not move, always shows the header. */
  lemma UpwardShows(lastScrollY: real, currentScrollY: real)
    requires currentScrollY <= lastScrollY
    ensures !LookAfter(lastScrollY, currentScrollY).hidden
  {
  }

  /** The closure of `initScrollEffects`: the remembered position and the
      header's `scrolled` class and transform. */
  class HeaderScroll {
    var lastScrollY: real
    var scrolled: bool
    /** The header's transform is translateY(-100%) rather than translateY(0). */
    var hidden: bool

    ghost predicate Valid()
      reads this
    {
      hidden ==> scrolled
    }

    /** The handler's closure as created, with the page at `scrollY`; the
        header starts in its page state, shown and without the class. */
    constructor (scrollY: real)
      ensures Valid() && lastScrollY == scrollY && !scrolled && !hidden
    {
      lastScrollY := scrollY;
      scrolled := false;
      hidden := false;
    }

    /** The scroll listener, with window.scrollY at `currentScrollY`. */
    method OnScroll(currentScrollY: real)
      requires Valid()
      modifies this
      ensures Valid()
      ensures HeaderLook(scrolled, hidden) == LookAfter(old(lastScrollY), currentScrollY)
      ensures lastScrollY == currentScrollY
    {
      if currentScrollY > ScrolledThreshold {
        scrolled := true;
      } else {
        scrolled := false;
      }
      if currentScrollY > lastScrollY && currentScrollY > HideThreshold {
        hidden := true;
      } else {
        hidden := false;
      }
      lastScrollY := currentScrollY;
    }
  }
}
