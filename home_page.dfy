/** The projects section of the home page: the first two projects in the
    site's order, each with the date tail of its role cut off by
    `role.replace(/\s*\(.+\)$/, "")`. */
module HomePage {
  import opened Wrappers
  import opened Text
  import opened Sorting
  import opened Content
  import opened Ordering
  import opened ProjectsLib
  import opened ProjectPage

  /** The expression matches from `i`: white space `[i, j)`, `(` at `j`, then
      at least one character other than a line break and `)` at the end. */
  predicate TailMatch(s: string, i: nat, j: nat) {
    && i <= j && j + 2 < |s|
    && AllSpace(s[i..j]) && s[j] == '('
    && NoLineBreak(s[j + 1..|s| - 1]) && s[|s| - 1] == ')'
  }

  lemma TailMatchAtSpaceEnd(s: string, i: nat, j: nat)
    requires TailMatch(s, i, j)
    ensures j == SpaceEnd(s, i)
  {
    forall k | i <= k < j ensures IsSpace(s[k]) {
      assert s[i..j][k - i] == s[k];
    }
    SpaceEndOfRun(s, i, j);
  }

  /** The leftmost position from `from` on where the expression matches. */
  function FirstTail(s: string, from: nat): (r: Option<nat>)
    ensures r.Some? ==> from <= r.value < |s| && TailMatch(s, r.value, SpaceEnd(s, r.value))
    ensures r.Some? ==> forall i: nat, j: nat :: from <= i < r.value ==> !TailMatch(s, i, j)
    ensures r.None? ==> forall i: nat, j: nat :: from <= i ==> !TailMatch(s, i, j)
    decreases |s| - from
  {
    if |s| <= from then None
    else if from <= SpaceEnd(s, from) && TailMatch(s, from, SpaceEnd(s, from)) then Some(from)
    else
      assert forall j: nat :: !TailMatch(s, from, j) by {
        forall j: nat | TailMatch(s, from, j) ensures false {
          TailMatchAtSpaceEnd(s, from, j);
        }
      }
      FirstTail(s, from + 1)
  }

  /** The role shown on the home page: everything before the leftmost
      match, or the whole role when there is none. */
  function StripDate(s: string): (r: string)
    ensures (forall i: nat, j: nat :: !TailMatch(s, i, j)) ==> r == s
    ensures (exists i: nat, j: nat :: TailMatch(s, i, j)) ==>
      |r| < |s| && r == s[..|r|] && TailMatch(s, |r|, SpaceEnd(s, |r|)) &&
      forall i: nat, j: nat :: i < |r| ==> !TailMatch(s, i, j)
  {
    match FirstTail(s, 0)
    case None => s
    case Some(i) => s[..i]
  }

  /** On a role without line breaks that starts with neither white space nor
      `(`, the home page shows the same role as the projects page. */
  lemma StripAgreesWithParse(s: string)
    requires NoLineBreak(s) && s != [] && !IsSpace(s[0]) && s[0] != '('
    ensures StripDate(s) == ParseRolePeriod(s).role
  {
    forall j: nat ensures !TailMatch(s, 0, j) {
      if 0 < j <= |s| {
        assert s[0..j][0] == s[0];
      }
    }
    match FirstTail(s, 0)
    case None =>
      forall a: nat, b: nat ensures !RoleMatch(s, a, b) {
        RoleIsTail(s, a, b);
      }
    case Some(i) =>
      ChosenIsFirstTail(s, i);
      ShortestRoleIs(s, 1, i);
      assert !IsSpace(s[i - 1]) by {
        if IsSpace(s[i - 1]) {
          LongerSpace(s, i, SpaceEnd(s, i));
        }
      }
      TrimOfTrimmed(s[..i]);
  }

  /** Without line breaks, the two expressions agree past the first character. */
  lemma RoleIsTail(s: string, a: nat, b: nat)
    requires NoLineBreak(s)
    ensures 1 <= a ==> (RoleMatch(s, a, b) <==> TailMatch(s, a, b))
    ensures RoleMatch(s, a, b) ==> TailMatch(s, a, b)
  {
    if a <= |s| {
      NoLineBreakSlice(s, 0, a);
    }
    if b + 2 < |s| {
      NoLineBreakSlice(s, b + 1, |s| - 1);
    }
  }

  lemma ChosenIsFirstTail(s: string, i: nat)
    requires NoLineBreak(s) && 1 <= i < |s|
    requires TailMatch(s, i, SpaceEnd(s, i)) && forall i': nat, j: nat :: i' < i ==> !TailMatch(s, i', j)
    ensures Chosen(s, i)
  {
    RoleIsTail(s, i, SpaceEnd(s, i));
    forall a: nat, b: nat | a < i ensures !RoleMatch(s, a, b) {
      RoleIsTail(s, a, b);
    }
  }

  /** A match from `i` extends to `i - 1` when `s[i - 1]` is white space. */
  lemma LongerSpace(s: string, i: nat, j: nat)
    requires 1 <= i && TailMatch(s, i, j) && IsSpace(s[i - 1])
    ensures TailMatch(s, i - 1, j)
  {
    forall k | i - 1 <= k < j ensures IsSpace(s[k]) {
      if k >= i {
        assert s[i..j][k - i] == s[k];
      }
    }
    SpacesBetween(s, i - 1, j);
  }

  /** An entry of the section: only these four fields are passed on. */
  datatype Item = Item(title: Option<string>, role: string, description: Option<string>, href: Option<string>)

  /** `allProjects.slice(0, 2).map(...)`; `None` when one of the two has no
      role, since `replace` on `undefined` throws. */
  function HomeItems(projects: seq<Project>): (r: Option<seq<Item>>)
    ensures r.None? <==> exists i | 0 <= i < |projects| && i < 2 :: projects[i].role.None?
    ensures r.Some? ==> |r.value| == if |projects| < 2 then |projects| else 2
    ensures r.Some? ==> forall i :: 0 <= i < |r.value| ==>
      && r.value[i].title == projects[i].title
      && r.value[i].role == StripDate(projects[i].role.value)
      && r.value[i].description == projects[i].description
      && r.value[i].href == projects[i].href
  {
    var shown := if |projects| < 2 then projects else projects[..2];
    if exists i | 0 <= i < |shown| :: shown[i].role.None? then None
    else Some(ItemsOf(shown))
  }

  function ItemsOf(shown: seq<Project>): (r: seq<Item>)
    requires forall i | 0 <= i < |shown| :: shown[i].role.Some?
    ensures |r| == |shown|
    ensures forall i :: 0 <= i < |r| ==> r[i] == Item(shown[i].title, StripDate(shown[i].role.value), shown[i].description, shown[i].href)
  {
    if shown == [] then []
    else [Item(shown[0].title, StripDate(shown[0].role.value), shown[0].description, shown[0].href)] + ItemsOf(shown[1..])
  }

  /** The section shows the best-ranked projects of the site: none it leaves
      out ranks above one it shows. */
  lemma HomeShowsTopRanked(file: Option<seq<Project>>)
    requires HomeItems(GetProjects(file)).Some?
    ensures var projects := GetProjects(file);
      forall i, j :: 0 <= i < |HomeItems(projects).value| <= j < |projects| ==>
        RoleValue(projects[i]) >= RoleValue(projects[j])
  {
    var projects := GetProjects(file);
    assert projects == [] || NonIncreasing(projects, RoleValue);
  }
}
