/** The mobile navigation toggle: one click flips the `active` class on both
    the link list and the menu button. */
module MobileMenu {

  class Menu {
    /** Both elements exist, so the click listener is installed. */
    const listening: bool
    var navLinksActive: bool
    var menuToggleActive: bool

    constructor (hasMenuToggle: bool, hasNavLinks: bool, navActive: bool, toggleActive: bool)
      ensures listening == (hasMenuToggle && hasNavLinks)
      ensures navLinksActive == navActive && menuToggleActive == toggleActive
    {
      listening := hasMenuToggle && hasNavLinks;
      navLinksActive := navActive;
      menuToggleActive := toggleActive;
    }

    /** A click on the menu button: both classes flip when the listener is
        installed, so two elements that start in step stay in step. */
    method Click()
      modifies this
      ensures listening ==> navLinksActive == !old(navLinksActive) && menuToggleActive == !old(menuToggleActive)
      ensures !listening ==> navLinksActive == old(navLinksActive) && menuToggleActive == old(menuToggleActive)
      ensures (navLinksActive == menuToggleActive) == old(navLinksActive == menuToggleActive)
    {
      if listening {
        navLinksActive := !navLinksActive;
        menuToggleActive := !menuToggleActive;
      }
    }
  }
}
