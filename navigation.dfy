/** Menu navigation: a click on a `.navWrap` link whose href starts with `#` scrolls
    to the section of that (lower-cased) id, compensating for the fixed header, and
    then hides the overlay menu. `contact` is reached with an instant jump and pushed
    down by the header height; every other section is reached smoothly and pulled up
    by it. The logo inside the menu always goes to `home`.

    The window and the document are passed in as a `Page` value: the scroll offset,
    the viewport-relative top of every element that has an id, and the header's
    height when there is a header. Lower-casing covers ASCII letters only. */
module Navigation {
  import opened Wrappers
  import Menu

  const CONTACT := "contact"
  const HOME := "home"

  datatype Behavior = Smooth | Auto

  /** The argument of `window.scrollTo`. */
  datatype ScrollRequest = ScrollRequest(top: real, behavior: Behavior)

  datatype Page = Page(pageYOffset: real, elementTops: map<string, real>, headerHeight: Option<real>)

  /** Where a link leads: the section id and the scroll behaviour. */
  datatype NavTarget = NavTarget(id: string, behavior: Behavior)

  /** What a click handler does: whether it suppresses the default jump, the scroll it
      requests, and whether it hides the menu. */
  datatype NavEffects = NavEffects(preventsDefault: bool, scroll: Option<ScrollRequest>, hidesMenu: bool)

  /** `getHeaderHeight`: the header's height, or 0 when the page has no header. */
  function HeaderHeight(page: Page): (h: real)
    ensures page.headerHeight.None? ==> h == 0.0
    ensures page.headerHeight.Some? ==> h == page.headerHeight.value
  {
    if page.headerHeight.Some? then page.headerHeight.value else 0.0
  }

  predicate IsAsciiUpper(c: char) {
    'A' <= c <= 'Z'
  }

  function LowerChar(c: char): char {
    if IsAsciiUpper(c) then (c as int + 32) as char else c
  }

  /** `toLowerCase` on ASCII: every upper-case letter becomes its lower-case form,
      every other character is kept. */
  function ToLower(s: string): (r: string)
    ensures |r| == |s|
    ensures forall k :: 0 <= k < |s| ==> r[k] == LowerChar(s[k])
  {
    if s == [] then [] else [LowerChar(s[0])] + ToLower(s[1..])
  }

  /** Lower-casing leaves no upper-case letter and changes nothing a second time. */
  lemma ToLowerIdempotent(s: string)
    ensures forall k :: 0 <= k < |s| ==> !IsAsciiUpper(ToLower(s)[k])
    ensures ToLower(ToLower(s)) == ToLower(s)
  {
  }

  /** Lower-casing commutes with dropping the first character. */
  lemma ToLowerTail(s: string)
    requires s != []
    ensures ToLower(s[1..]) == ToLower(s)[1..]
  {
  }

  /** The `href` checks and the id derivation of `handleNavClick`: a missing href, or
      one that does not start with `#`, leads nowhere; otherwise the id is the rest of
      the href lower-cased, reached instantly iff it is `contact`. */
  function ResolveHref(href: Option<string>): (r: Option<NavTarget>)
    ensures r.None? <==> href.None? || href.value == [] || href.value[0] != '#'
    ensures r.Some? ==> r.value.id == ToLower(href.value[1..])
    ensures r.Some? ==> (r.value.behavior == Auto <==> r.value.id == CONTACT)
  {
    if href.None? || href.value == [] || href.value[0] != '#' then None
    else
      var targetId := ToLower(href.value[1..]);
      Some(NavTarget(targetId, if targetId == CONTACT then Auto else Smooth))
  }

  /** Links that differ only in the case of their letters lead to the same place. */
  lemma ResolveIgnoresCase(a: string, b: string)
    requires ToLower(a) == ToLower(b)
    ensures ResolveHref(Some(a)) == ResolveHref(Some(b))
  {
    assert |a| == |b|;
    if a != [] {
      assert LowerChar(a[0]) == LowerChar(b[0]);
      assert a[0] == '#' <==> b[0] == '#';
      ToLowerTail(a);
      ToLowerTail(b);
    }
  }

  /** `scrollToSection`: nothing when no element has the id (`getElementById` finds no
      element for the empty id, whatever the page holds); otherwise a scroll to the
      element's document position, pushed down by the header height for `contact`
      and pulled up by it for every other id, with the given behaviour. */
  function ScrollToSection(targetId: string, behavior: Behavior, page: Page): (r: Option<ScrollRequest>)
    ensures r.None? <==> targetId == [] || targetId !in page.elementTops
    ensures r.Some? ==> r.value.behavior == behavior
    ensures r.Some? ==> r.value.top - (page.pageYOffset + page.elementTops[targetId])
                        == (if targetId == CONTACT then HeaderHeight(page) else -HeaderHeight(page))
  {
    if targetId == [] || targetId !in page.elementTops then None
    else
      var headerHeight := HeaderHeight(page);
      var baseTop := page.pageYOffset + page.elementTops[targetId];
      var offset := if targetId == CONTACT then headerHeight else -headerHeight;
      Some(ScrollRequest(baseTop + offset, behavior))
  }

  /** `handleNavClick`. */
  function NavClick(href: Option<string>, page: Page): (r: NavEffects)
    ensures r.preventsDefault
    ensures r.hidesMenu <==> ResolveHref(href).Some?
    ensures r.scroll.Some? ==> r.hidesMenu
  {
    match ResolveHref(href)
    case None => NavEffects(true, None, false)
    case Some(target) => NavEffects(true, ScrollToSection(target.id, target.behavior, page), true)
  }

  /** The click handler of the menu's logo: no `preventDefault`, a smooth scroll to
      `home`, and the menu hidden. */
  function LogoClick(page: Page): (r: NavEffects)
    ensures !r.preventsDefault && r.hidesMenu
    ensures r.scroll == ScrollToSection(HOME, Smooth, page)
  {
    NavEffects(false, ScrollToSection(HOME, Smooth, page), true)
  }

  /** A click on a link reaches a section exactly when the href is a `#` link whose
      lower-cased id is non-empty and names an element; the request lands on that element, offset by
      the header, instantly for `contact` and smoothly otherwise. The menu is hidden
      even when no element has the id. */
  lemma NavClickScrolls(href: Option<string>, page: Page)
    ensures var r := NavClick(href, page);
      r.scroll.Some? <==> ResolveHref(href).Some? && ResolveHref(href).value.id != []
                          && ResolveHref(href).value.id in page.elementTops
    ensures var r := NavClick(href, page);
      r.scroll.Some? ==>
        var id := ToLower(href.value[1..]);
        r.scroll.value.behavior == (if id == CONTACT then Auto else Smooth) &&
        r.scroll.value.top == page.pageYOffset + page.elementTops[id]
                              + (if id == CONTACT then HeaderHeight(page) else -HeaderHeight(page))
  {
  }

  /** A bare `#` link scrolls nowhere, whatever the page holds, yet hides the menu. */
  lemma BareHashHidesOnly(page: Page)
    ensures NavClick(Some("#"), page) == NavEffects(true, None, true)
  {
    assert "#"[1..] == [];
  }

  /** `#CONTACT` jumps instantly to the contact section's top plus the header height;
      `#ABOUT` glides smoothly to the about section's top minus the header height. */
  lemma ContactAndAbout(page: Page)
    requires "contact" in page.elementTops && "about" in page.elementTops
    ensures NavClick(Some("#CONTACT"), page).scroll
         == Some(ScrollRequest(page.pageYOffset + page.elementTops["contact"] + HeaderHeight(page), Auto))
    ensures NavClick(Some("#ABOUT"), page).scroll
         == Some(ScrollRequest(page.pageYOffset + page.elementTops["about"] - HeaderHeight(page), Smooth))
  {
    assert ToLower("CONTACT") == "contact";
    assert ToLower("ABOUT") == "about";
    assert "#CONTACT"[1..] == "CONTACT";
    assert "#ABOUT"[1..] == "ABOUT";
  }

  /** The `click` listener on a `.navWrap` link: computes the effects and hides the
      menu when they say so. */
  method HandleNavClick(menu: Menu.MenuController, href: Option<string>, page: Page) returns (effects: NavEffects)
    modifies menu
    ensures effects == NavClick(href, page)
    ensures menu.State() == if effects.hidesMenu then Menu.Hide(old(menu.State())) else old(menu.State())
  {
    effects := NavClick(href, page);
    if effects.hidesMenu {
      menu.HideMenu();
    }
  }

  /** The `click` listener on the menu's logo. */
  method HandleLogoClick(menu: Menu.MenuController, page: Page) returns (effects: NavEffects)
    modifies menu
    ensures effects == LogoClick(page)
    ensures menu.State() == Menu.Hide(old(menu.State()))
  {
    effects := LogoClick(page);
    menu.HideMenu();
  }
}
