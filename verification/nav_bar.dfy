/** The site's navigation bar: a mobile menu and a mobile search overlay
    that exclude each other and close on navigation, a "scrolled" shadow
    flag, and the link highlighted for the current location. */
module Navigation {
  import opened Text

  /** The Home link is highlighted exactly on "/". */
  predicate IsHomeActive(location: string) {
    location == "/"
  }

  /** The Genres link is highlighted on every location under "/genre". */
  predicate IsGenresActive(location: string) {
    StartsWith(location, "/genre")
  }

  /** The Recently Watched link is highlighted exactly on "/recently-watched". */
  predicate IsRecentlyWatchedActive(location: string) {
    location == "/recently-watched"
  }

  /** At most one link is highlighted at a time, and each link's own target
      highlights it; Genres stays highlighted on every page under "/genre". */
  lemma AtMostOneActive(location: string, suffix: string)
    ensures !(IsHomeActive(location) && IsGenresActive(location))
    ensures !(IsHomeActive(location) && IsRecentlyWatchedActive(location))
    ensures !(IsGenresActive(location) && IsRecentlyWatchedActive(location))
    ensures IsHomeActive("/") && IsRecentlyWatchedActive("/recently-watched")
    ensures IsGenresActive("/genre" + suffix)
  {
    assert ("/genre" + suffix)[..6] == "/genre";
    if IsRecentlyWatchedActive(location) {
      assert location[..6][1] == 'r' != "/genre"[1];
    }
  }

  /** `scrolled` as the scroll listener sets it. */
  predicate ScrolledAt(scrollY: real) {
    scrollY > 20.0
  }

  class NavBar {
    var mobileMenuOpen: bool
    var searchOverlayOpen: bool
    var scrolled: bool
    var location: string

    /** The menu and the search overlay are never open together. */
    ghost predicate Valid()
      reads this
    {
      !(mobileMenuOpen && searchOverlayOpen)
    }

    /** Mounting at `location`: everything closed, no shadow. */
    constructor(location: string)
      ensures Valid()
      ensures !mobileMenuOpen && !searchOverlayOpen && !scrolled && this.location == location
    {
      mobileMenuOpen := false;
      searchOverlayOpen := false;
      scrolled := false;
      this.location := location;
    }

    /** `toggleMobileMenu`: flips the menu and closes the search overlay. */
    method ToggleMobileMenu()
      requires Valid()
      modifies this
      ensures Valid()
      ensures mobileMenuOpen == !old(mobileMenuOpen) && !searchOverlayOpen
      ensures scrolled == old(scrolled) && location == old(location)
    {
      mobileMenuOpen := !mobileMenuOpen;
      searchOverlayOpen := false;
    }

    /** `toggleSearchOverlay` (the search icon and the overlay's close
        button): flips the overlay and closes the menu. */
    method ToggleSearchOverlay()
      requires Valid()
      modifies this
      ensures Valid()
      ensures searchOverlayOpen == !old(searchOverlayOpen) && !mobileMenuOpen
      ensures scrolled == old(scrolled) && location == old(location)
    {
      searchOverlayOpen := !searchOverlayOpen;
      mobileMenuOpen := false;
    }

    /** The router is asked for `newLocation`. The effect on `[location]`
        runs only when the location actually changes, and then closes both
        the menu and the overlay; a link to the current page (the mobile
        menu's links have no click handler) leaves them as they were. */
    method ChangeLocation(newLocation: string)
      requires Valid()
      modifies this
      ensures Valid()
      ensures location == newLocation && scrolled == old(scrolled)
      ensures newLocation != old(location) ==> !mobileMenuOpen && !searchOverlayOpen
      ensures newLocation == old(location) ==>
                mobileMenuOpen == old(mobileMenuOpen) && searchOverlayOpen == old(searchOverlayOpen)
    {
      if newLocation != location {
        location := newLocation;
        mobileMenuOpen := false;
        searchOverlayOpen := false;
      }
    }

    /** The window's scroll listener. */
    method OnScroll(scrollY: real)
      requires Valid()
      modifies this
      ensures Valid()
      ensures scrolled <==> ScrolledAt(scrollY)
      ensures mobileMenuOpen == old(mobileMenuOpen) && searchOverlayOpen == old(searchOverlayOpen)
      ensures location == old(location)
    {
      scrolled := scrollY > 20.0;
    }
  }
}
