/** The mobile navigation menu of scripts.js: the toggle button opens and
    closes the menu and mirrors its state in ARIA attributes. The handlers
    are only installed when both the toggle and the menu are on the page,
    so the class models a page that has both. */
module MobileMenu {

  class Menu {
    /** The `active` class on the menu and on the toggle button. */
    var menuActive: bool
    var toggleActive: bool
    /** The toggle's `aria-expanded` and the menu's `aria-hidden`. */
    var ariaExpanded: bool
    var ariaHidden: bool

    /** The toggle and the ARIA attributes agree with the menu. */
    predicate InSync()
      reads this
    {
      toggleActive == menuActive && ariaExpanded == menuActive && ariaHidden == !menuActive
    }

    constructor ()
      ensures InSync() && !menuActive
    {
      menuActive, toggleActive := false, false;
      ariaExpanded, ariaHidden := false, true;
    }

    /** `toggleMobileMenu`: both `active` classes flip independently, and
        the ARIA attributes are then set from the menu's new state, whatever
        they said before. */
    method Toggle()
      modifies this
      ensures menuActive == !old(menuActive) && toggleActive == !old(toggleActive)
      ensures ariaExpanded == menuActive && ariaHidden == !menuActive
      ensures old(InSync()) ==> InSync()
    {
      menuActive := !menuActive;
      toggleActive := !toggleActive;
      var isOpen := menuActive;
      ariaExpanded := isOpen;
      ariaHidden := !isOpen;
    }

    /** `closeMobileMenu`: everything is set to the closed state, so closing
        twice is closing once. */
    method Close()
      modifies this
      ensures InSync() && !menuActive
    {
      menuActive, toggleActive := false, false;
      ariaExpanded, ariaHidden := false, true;
    }

    /** A key press on the toggle: Enter and Space toggle the menu, any other
        key does nothing. Returns whether the default action was prevented. */
    method ToggleKey(key: string) returns (prevented: bool)
      modifies this
      ensures prevented <==> key == "Enter" || key == " "
      ensures prevented ==> menuActive == !old(menuActive) && toggleActive == !old(toggleActive) &&
                            ariaExpanded == menuActive && ariaHidden == !menuActive
      ensures !prevented ==> menuActive == old(menuActive) && toggleActive == old(toggleActive) &&
                             ariaExpanded == old(ariaExpanded) && ariaHidden == old(ariaHidden)
    {
      prevented := key == "Enter" || key == " ";
      if prevented {
        Toggle();
      }
    }

    /** A click anywhere on the document outside the toggle and the menu
        closes the menu; a click inside them is left to their own handlers. */
    method DocumentClick(insideToggleOrMenu: bool)
      modifies this
      ensures !insideToggleOrMenu ==> InSync() && !menuActive
      ensures insideToggleOrMenu ==> menuActive == old(menuActive) && toggleActive == old(toggleActive) &&
                                     ariaExpanded == old(ariaExpanded) && ariaHidden == old(ariaHidden)
    {
      if !insideToggleOrMenu {
        Close();
      }
    }
  }
}
