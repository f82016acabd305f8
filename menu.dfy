/** The full-screen overlay menu: `openMenu` and `hideMenu` toggle one class on the
    `.fullMenu` element and one on the document body. */
module Menu {

  const SHOW := "show"
  const MENU_OPEN := "menuOpen"

  /** The two class lists the menu functions touch. `hasFullMenu` is false when the
      page has no `.fullMenu` element; then neither function does anything. */
  datatype MenuState = MenuState(hasFullMenu: bool, fullMenuClasses: set<string>, bodyClasses: set<string>)

  /** The menu is visibly open: both marker classes are present. */
  predicate IsOpen(s: MenuState) {
    SHOW in s.fullMenuClasses && MENU_OPEN in s.bodyClasses
  }

  /** The menu is visibly closed: neither marker class is present. */
  predicate IsClosed(s: MenuState) {
    SHOW !in s.fullMenuClasses && MENU_OPEN !in s.bodyClasses
  }

  /** `openMenu`: adds `show` to `.fullMenu` and `menuOpen` to the body, touching no other class. */
  function Open(s: MenuState): (r: MenuState)
    ensures r.hasFullMenu == s.hasFullMenu
    ensures !s.hasFullMenu ==> r == s
    ensures s.hasFullMenu ==> IsOpen(r)
    ensures forall c :: c != SHOW ==> (c in r.fullMenuClasses <==> c in s.fullMenuClasses)
    ensures forall c :: c != MENU_OPEN ==> (c in r.bodyClasses <==> c in s.bodyClasses)
  {
    if !s.hasFullMenu then s
    else s.(fullMenuClasses := s.fullMenuClasses + {SHOW}, bodyClasses := s.bodyClasses + {MENU_OPEN})
  }

  /** `hideMenu`: removes `show` from `.fullMenu` and `menuOpen` from the body, touching no other class. */
  function Hide(s: MenuState): (r: MenuState)
    ensures r.hasFullMenu == s.hasFullMenu
    ensures !s.hasFullMenu ==> r == s
    ensures s.hasFullMenu ==> IsClosed(r)
    ensures forall c :: c != SHOW ==> (c in r.fullMenuClasses <==> c in s.fullMenuClasses)
    ensures forall c :: c != MENU_OPEN ==> (c in r.bodyClasses <==> c in s.bodyClasses)
  {
    if !s.hasFullMenu then s
    else s.(fullMenuClasses := s.fullMenuClasses - {SHOW}, bodyClasses := s.bodyClasses - {MENU_OPEN})
  }

  /** Opening an open menu changes no class list. */
  lemma OpenIdempotent(s: MenuState)
    ensures Open(Open(s)) == Open(s)
  {
  }

  /** Closing a closed menu changes no class list. */
  lemma HideIdempotent(s: MenuState)
    ensures Hide(Hide(s)) == Hide(s)
  {
  }

  /** Whatever happened before, the last of the two operations decides the menu's state:
      an open followed by a hide is just a hide, and the other way round. */
  lemma LastOperationWins(s: MenuState)
    ensures Hide(Open(s)) == Hide(s)
    ensures Open(Hide(s)) == Open(s)
  {
  }

  /** A menu whose marker classes are already in place is left exactly as it was. */
  lemma NoChangeWhenAlreadyInState(s: MenuState)
    ensures IsOpen(s) ==> Open(s) == s
    ensures IsClosed(s) ==> Hide(s) == s
  {
  }

  /** The page's menu: the `.fullMenu` element (if any) and the body, with their class lists. */
  class MenuController {
    const hasFullMenu: bool
    var fullMenuClasses: set<string>
    var bodyClasses: set<string>

    function State(): MenuState
      reads this
    {
      MenuState(hasFullMenu, fullMenuClasses, bodyClasses)
    }

    constructor (hasFullMenu: bool, fullMenuClasses: set<string>, bodyClasses: set<string>)
      ensures State() == MenuState(hasFullMenu, fullMenuClasses, bodyClasses)
    {
      this.hasFullMenu := hasFullMenu;
      this.fullMenuClasses := fullMenuClasses;
      this.bodyClasses := bodyClasses;
    }

    /** The `.btnMenu` click handler. */
    method OpenMenu()
      modifies this
      ensures State() == Open(old(State()))
    {
      if !hasFullMenu {
        return;
      }
      fullMenuClasses := fullMenuClasses + {SHOW};
      bodyClasses := bodyClasses + {MENU_OPEN};
    }

    /** The `.closeMenu` click handler, also run after every menu navigation. */
    method HideMenu()
      modifies this
      ensures State() == Hide(old(State()))
    {
      if !hasFullMenu {
        return;
      }
      fullMenuClasses := fullMenuClasses - {SHOW};
      bodyClasses := bodyClasses - {MENU_OPEN};
    }
  }
}
