/**
 * The mobile-menu flags of the portfolio page: the `active` class on the
 * hamburger control and on the navigation panel (initMobileMenu, the
 * nav-link click handler in initNavigation, and the Escape handler in app.js).
 */
module Menu {

  /** The two `active` class flags; the page means them to be always equal. */
  datatype MenuFlags = MenuFlags(hamburger: bool, panel: bool) {
    predicate Synced() {
      hamburger == panel
    }
  }

  const Closed := MenuFlags(false, false)

  /**
   * Where a click lands. A nav link and the rest of the panel are inside the
   * panel; a toast's close button lies outside both the hamburger and the panel.
   */
  datatype ClickTarget =
    | Hamburger
    | NavLink(index: nat)
    | MenuArea
    | ToastClose(node: nat)
    | Elsewhere

  /** `hamburger.contains(target) || navMenu.contains(target)` */
  predicate InsideMenuControls(target: ClickTarget) {
    target.Hamburger? || target.NavLink? || target.MenuArea?
  }

  /**
   * One click: first the handler of the clicked element (the hamburger toggles
   * both flags, a nav link clears both), then, as the event bubbles, the
   * document-level handler, which clears both for a click outside the
   * hamburger and the panel.
   */
  function AfterClick(m: MenuFlags, target: ClickTarget): MenuFlags {
    var own := match target
      case Hamburger => MenuFlags(!m.hamburger, !m.panel)
      case NavLink(_) => Closed
      case _ => m;
    if InsideMenuControls(target) then own else Closed
  }

  /** A keydown: Escape clears both flags, but only when the panel flag is set. */
  function AfterKey(m: MenuFlags, key: string): MenuFlags {
    if key == "Escape" && m.panel then Closed else m
  }

  /** Every click keeps the two flags equal. */
  lemma ClickKeepsSync(m: MenuFlags, target: ClickTarget)
    requires m.Synced()
    ensures AfterClick(m, target).Synced()
  {
  }

  /** Every key keeps the two flags equal. */
  lemma KeyKeepsSync(m: MenuFlags, key: string)
    requires m.Synced()
    ensures AfterKey(m, key).Synced()
  {
  }

  /** A nav-link click, a click outside and Escape all leave the menu closed. */
  lemma ClosingEventsClose(m: MenuFlags, target: ClickTarget)
    requires m.Synced()
    ensures target.NavLink? || !InsideMenuControls(target) ==> AfterClick(m, target) == Closed
    ensures AfterKey(m, "Escape") == Closed
  {
  }

  /** The hamburger toggles the open state; a click elsewhere in the panel changes nothing. */
  lemma HamburgerToggles(m: MenuFlags)
    requires m.Synced()
    ensures AfterClick(m, Hamburger).panel == !m.panel
    ensures AfterClick(m, MenuArea) == m
  {
  }

  /**
   * Escape looks at the panel flag only: were the flags ever out of step,
   * it would leave the hamburger marked active.
   */
  lemma EscapeReadsPanelOnly()
    ensures AfterKey(MenuFlags(true, false), "Escape") == MenuFlags(true, false)
  {
  }
}
