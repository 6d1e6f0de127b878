/** The mobile header: the bracketed initial of the current page, the
    active entry of its menu, and the rule that hides it on admin pages. */
module MobileHeader {
  import opened Wrappers
  import opened Text
  import opened Seqs

  /** `pageInitials`, in declaration order (the order `Object.entries` yields). */
  const Initials: seq<(string, string)> :=
    [("/", "h"), ("/work", "w"), ("/blog", "b"), ("/projects", "p"), ("/tools", "t")]

  function IsKey(path: string): ((string, string)) -> bool {
    (entry: (string, string)) => entry.0 == path
  }

  /** `path !== "/" && pathname.startsWith(path)`. */
  function IsSection(path: string): ((string, string)) -> bool {
    (entry: (string, string)) => entry.0 != "/" && StartsWith(path, entry.0)
  }

  /** `getPageInitial`: the initial of an exact key, else of the first
      non-root key the path starts with, else `h`. An absent path looks up
      the empty string, which is no key and starts with none. */
  function PageInitial(pathname: Option<string>): (r: string)
    ensures r in {"h", "w", "b", "p", "t"}
    ensures forall k :: 0 <= k < |Initials| && pathname == Some(Initials[k].0) ==> r == Initials[k].1
    ensures pathname.None? ==> r == "h"
  {
    var path := pathname.GetOr("");
    match FindIndex(Initials, IsKey(path))
    case Some(k) => Initials[k].1
    case None =>
      if pathname.None? then "h"
      else match FindIndex(Initials, IsSection(path))
        case Some(k) => Initials[k].1
        case None => "h"
  }

  /** A path that is no key takes the initial of the first section it
      starts with. */
  lemma SectionInitial(path: string, k: nat)
    requires k < |Initials| && Initials[k].0 != "/" && StartsWith(path, Initials[k].0)
    requires forall j :: 0 <= j < |Initials| ==> Initials[j].0 != path
    requires forall j :: 0 <= j < k ==> Initials[j].0 == "/" || !StartsWith(path, Initials[j].0)
    ensures PageInitial(Some(path)) == Initials[k].1
  {
    assert FindIndex(Initials, IsKey(path)).None?;
    assert !IsSection(path)(Initials[0]);
    FindFirst(Initials, IsSection(path), k);
  }

  /** `findIndex` returns the first index that satisfies the test. */
  lemma FindFirst<T>(s: seq<T>, p: T -> bool, k: nat)
    requires k < |s| && p(s[k]) && forall j :: 0 <= j < k ==> !p(s[j])
    ensures FindIndex(s, p) == Some(k)
  {
  }

  /** `/blog/x` shows `b`; `/workshop` shows `w`, since it starts with `/work`. */
  lemma DetailPages()
    ensures PageInitial(Some("/blog/x")) == "b"
    ensures PageInitial(Some("/workshop")) == "w"
  {
    SectionInitial("/blog/x", 2);
    SectionInitial("/workshop", 1);
  }

  /** A menu entry is active on its own path and, unless it is `/`, below it. */
  predicate IsActive(pathname: Option<string>, href: string): (r: bool)
    ensures pathname == Some(href) ==> r
    ensures r ==> pathname.Some? && StartsWith(pathname.value, href)
  {
    assert pathname.Some? ==> pathname.value[..|pathname.value|] == pathname.value;
    pathname == Some(href) || (href != "/" && pathname.Some? && StartsWith(pathname.value, href))
  }

  /** At most one menu entry is active, since no key is a prefix of another. */
  lemma AtMostOneActive(pathname: Option<string>, i: nat, j: nat)
    requires i < |Initials| && j < |Initials|
    requires IsActive(pathname, Initials[i].0) && IsActive(pathname, Initials[j].0)
    ensures i == j
  {
    var p := pathname.value;
    assert p[..|p|] == p;
    if i != 0 {
      PrefixChar(p, Initials[i].0, 1);
    }
    if j != 0 {
      PrefixChar(p, Initials[j].0, 1);
    }
  }

  /** The header renders nothing under `/admin`; it is shown on every page
      its menu links to. */
  predicate Hidden(pathname: Option<string>): (r: bool)
    ensures forall k :: 0 <= k < |Initials| && pathname == Some(Initials[k].0) ==> !r
  {
    assert "/work"[1] == 'w' && "/blog"[1] == 'b' && "/projects"[1] == 'p' && "/tools"[1] == 't';
    pathname.Some? && StartsWith(pathname.value, "/admin")
  }

  /** On the page a menu entry links to, the header is shown, that entry is
      the only active one and the header shows its initial. */
  lemma ShownOnItsPage(k: nat)
    requires k < |Initials|
    ensures var page := Some(Initials[k].0);
      && !Hidden(page)
      && (forall j :: 0 <= j < |Initials| && IsActive(page, Initials[j].0) ==> j == k)
      && PageInitial(page) == Initials[k].1
  {
    var page := Some(Initials[k].0);
    forall j | 0 <= j < |Initials| && IsActive(page, Initials[j].0) ensures j == k {
      AtMostOneActive(page, k, j);
    }
  }

  /** The highlighted menu entry and the initial agree: the initial is that
      of the entry the path belongs to. */
  lemma ActiveEntryHasInitial(path: string, k: nat)
    requires k < |Initials| && IsActive(Some(path), Initials[k].0)
    ensures PageInitial(Some(path)) == Initials[k].1
  {
    if path != Initials[k].0 {
      forall j | 0 <= j < |Initials| ensures Initials[j].0 != path {
        if j != k && Initials[j].0 == path {
          AtMostOneActive(Some(path), j, k);
        }
      }
      forall j | 0 <= j < k ensures Initials[j].0 == "/" || !StartsWith(path, Initials[j].0) {
        if Initials[j].0 != "/" && StartsWith(path, Initials[j].0) {
          AtMostOneActive(Some(path), j, k);
        }
      }
      SectionInitial(path, k);
    }
  }
}
