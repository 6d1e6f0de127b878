/** The three sorts of stored entries: work entries by period (bare
    expression) on the site and the dashboard, projects by role
    (parenthesised expression) in the projects API and library, and projects
    by role with the bare expression on the dashboard.

    The comparator calls `toLowerCase` on the field, so an entry without it
    throws a `TypeError`. A correct comparison sort of two or more elements
    compares every element at least once, so such a sort throws exactly when
    it has two or more entries and one of them lacks the field; a single
    entry is returned without calling the comparator. */
module Ordering {
  import opened Wrappers
  import opened Chronology
  import opened Sorting
  import opened Content

  function PeriodValue(w: Work): int {
    match w.period
    case Some(t) => SortValue(Bare, t)
    case None => 0
  }

  function RoleValue(p: Project): int {
    match p.role
    case Some(t) => SortValue(Parenthesised, t)
    case None => 0
  }

  function DashboardRoleValue(p: Project): int {
    match p.role
    case Some(t) => SortValue(Bare, t)
    case None => 0
  }

  predicate PeriodSortThrows(items: seq<Work>) {
    |items| >= 2 && exists i | 0 <= i < |items| :: items[i].period.None?
  }

  predicate RoleSortThrows(items: seq<Project>) {
    |items| >= 2 && exists i | 0 <= i < |items| :: items[i].role.None?
  }

  /** `items.sort((a, b) => getSortValue(b.period) - getSortValue(a.period))`;
      `None` when the comparator throws. */
  function SortByPeriod(items: seq<Work>): (r: Option<seq<Work>>)
    ensures r.None? <==> PeriodSortThrows(items)
    ensures r.Some? ==> Sorted(r.value, items, PeriodValue)
  {
    if PeriodSortThrows(items) then None else Some(SortDescending(items, PeriodValue))
  }

  /** The projects API and library sort by role with the parenthesised expression. */
  function SortByRole(items: seq<Project>): (r: Option<seq<Project>>)
    ensures r.None? <==> RoleSortThrows(items)
    ensures r.Some? ==> Sorted(r.value, items, RoleValue)
  {
    if RoleSortThrows(items) then None else Some(SortDescending(items, RoleValue))
  }

  /** The dashboard sorts projects by role with the bare expression. */
  function DashboardSortByRole(items: seq<Project>): (r: Option<seq<Project>>)
    ensures r.None? <==> RoleSortThrows(items)
    ensures r.Some? ==> Sorted(r.value, items, DashboardRoleValue)
  {
    if RoleSortThrows(items) then None else Some(SortDescending(items, DashboardRoleValue))
  }

  /** `r` is the stable descending sort of `s`: same elements, keys never
      increase, and entries with equal keys keep their stored order. */
  ghost predicate Sorted<T>(r: seq<T>, s: seq<T>, key: T -> int) {
    && multiset(r) == multiset(s)
    && NonIncreasing(r, key)
    && forall k :: WithKey(r, key, k) == WithKey(s, key, k)
  }
}
