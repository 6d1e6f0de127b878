/** The desktop navigation bar: which entry is active, the one-letter
    keyboard shortcuts, and where the bar is hidden. */
module Navbar {
  import opened Wrappers
  import opened Text
  import opened Seqs

  datatype NavItem = NavItem(href: string, caption: string, key: string)

  /** `navItems`, in order. */
  const NavItems: seq<NavItem> := [
    NavItem("/", "home", "h"), NavItem("/blog", "blog", "b"),
    NavItem("/projects", "projects", "p"), NavItem("/tools", "tools", "t")]

  /** `isActive`: `/` only on the home page itself, every other entry on its
      path and everything below it. */
  predicate IsActive(pathname: Option<string>, href: string): (r: bool)
    ensures pathname == Some(href) ==> r
    ensures r ==> pathname.Some? && StartsWith(pathname.value, href)
  {
    if href == "/" then pathname == Some("/")
    else pathname.Some? && StartsWith(pathname.value, href)
  }

  /** No two entries are active at once: no href is a prefix of another. */
  lemma AtMostOneActive(pathname: Option<string>, i: nat, j: nat)
    requires i < |NavItems| && j < |NavItems|
    requires IsActive(pathname, NavItems[i].href) && IsActive(pathname, NavItems[j].href)
    ensures i == j
  {
    var p := pathname.value;
    if i != 0 {
      PrefixChar(p, NavItems[i].href, 1);
    }
    if j != 0 {
      PrefixChar(p, NavItems[j].href, 1);
    }
  }

  /** The focus when a key goes down: the tag of the focused element (if
      any) and whether the event came from an input field. */
  datatype Focus = Focus(activeTag: Option<string>, targetIsInput: bool)

  /** Typing into a field never navigates. */
  predicate Typing(focus: Focus) {
    focus.activeTag == Some("INPUT") || focus.activeTag == Some("TEXTAREA") || focus.targetIsInput
  }

  function HasKey(k: string): NavItem -> bool {
    (item: NavItem) => item.key == k
  }

  /** The path a key press navigates to, if any. */
  function KeyTarget(key: string, focus: Focus): (r: Option<string>)
    ensures Typing(focus) ==> r.None?
    ensures !Typing(focus) ==>
      (r.Some? <==> exists i :: 0 <= i < |NavItems| && NavItems[i].key == ToLower(key))
    ensures r.Some? ==> exists i :: 0 <= i < |NavItems| && NavItems[i].key == ToLower(key) && r.value == NavItems[i].href
  {
    if Typing(focus) then None
    else match Find(NavItems, HasKey(ToLower(key)))
      case None => None
      case Some(item) => Some(item.href)
  }

  /** Upper- and lower-case shortcuts go to the same place. */
  lemma ShortcutIgnoresCase(key: string, focus: Focus)
    ensures KeyTarget(key, focus) == KeyTarget(ToLower(key), focus)
  {
    ToLowerOfLower(ToLower(key));
  }

  /** The bar renders nothing under `/admin` and `/dashboard`; it is shown on
      every page it links to. */
  predicate Hidden(pathname: Option<string>): (r: bool)
    ensures forall i :: 0 <= i < |NavItems| && pathname == Some(NavItems[i].href) ==> !r
  {
    assert "/blog"[1] == 'b' && "/projects"[1] == 'p' && "/tools"[1] == 't';
    pathname.Some? && (StartsWith(pathname.value, "/admin") || StartsWith(pathname.value, "/dashboard"))
  }

  /** The label of an entry is shown while it is active or the bar is hovered:
      the active entry's label whatever the hover, every label under it. */
  predicate Expanded(pathname: Option<string>, href: string, hovered: bool): (r: bool)
    ensures IsActive(pathname, href) ==> r
    ensures hovered ==> r
    ensures !hovered ==> (r <==> IsActive(pathname, href))
  {
    IsActive(pathname, href) || hovered
  }

  /** Without the pointer over the bar, at most one label is expanded. */
  lemma OneLabelUnhovered(pathname: Option<string>, i: nat, j: nat)
    requires i < |NavItems| && j < |NavItems|
    requires Expanded(pathname, NavItems[i].href, false) && Expanded(pathname, NavItems[j].href, false)
    ensures i == j
  {
    AtMostOneActive(pathname, i, j);
  }

  /** On the page an entry links to, the bar is shown and that entry is
      active and expanded, and it is the only active one. */
  lemma ShownOnItsPage(i: nat, hovered: bool)
    requires i < |NavItems|
    ensures var page := Some(NavItems[i].href);
      && !Hidden(page)
      && Expanded(page, NavItems[i].href, hovered)
      && forall j :: 0 <= j < |NavItems| && IsActive(page, NavItems[j].href) ==> j == i
  {
    var page := Some(NavItems[i].href);
    forall j | 0 <= j < |NavItems| && IsActive(page, NavItems[j].href) ensures j == i {
      AtMostOneActive(page, i, j);
    }
  }
}
