/** `src/lib/projects.ts`: how the site reads the projects document. Unlike the API
    it sorts the entries (latest and current first), and it turns every
    failure (missing file, bad JSON, a throwing comparator) into an empty
    list. */
module ProjectsLib {
  import opened Wrappers
  import opened Seqs
  import opened Slug
  import opened Content
  import opened Ordering
  import opened ProjectsApi

  /** `getProjects`: the stored entries sorted by role, or none at all. */
  function GetProjects(file: Option<seq<Project>>): (r: seq<Project>)
    ensures file.None? ==> r == []
    ensures file.Some? && RoleSortThrows(file.value) ==> r == []
    ensures file.Some? && !RoleSortThrows(file.value) ==> Sorted(r, file.value, RoleValue)
  {
    match file
    case None => []
    case Some(items) => SortByRole(items).GetOr([])
  }

  /** `getProjectBySlug`: the first entry in sorted order carrying `slug`. */
  function GetProjectBySlug(file: Option<seq<Project>>, slug: string): (r: Option<Project>)
    ensures r.Some? ==> r.value in GetProjects(file) && r.value.slug == Some(slug)
    ensures r.None? <==> forall w :: w in GetProjects(file) ==> w.slug != Some(slug)
    ensures r.Some? ==> exists i :: 0 <= i < |GetProjects(file)| && GetProjects(file)[i] == r.value &&
                          forall j :: 0 <= j < i ==> GetProjects(file)[j].slug != Some(slug)
  {
    var items := GetProjects(file);
    var r := Find(items, SameSlug(Some(slug)));
    assert r.Some? ==> items[FindIndex(items, SameSlug(Some(slug))).value] == r.value;
    r
  }

  /** `item.slug`. */
  function SlugOf(p: Project): Option<string> {
    p.slug
  }

  /** `getAllProjectSlugs`: the slugs in sorted order (an entry without a slug
      contributes `undefined`). */
  function GetAllProjectSlugs(file: Option<seq<Project>>): (r: seq<Option<string>>)
    ensures |r| == |GetProjects(file)|
    ensures forall i :: 0 <= i < |r| ==> r[i] == GetProjects(file)[i].slug
  {
    Map(GetProjects(file), SlugOf)
  }

  /** Every slug the site pre-renders has a page: looking it up finds an entry. */
  lemma EverySlugHasPage(file: Option<seq<Project>>, i: nat)
    requires i < |GetAllProjectSlugs(file)| && GetAllProjectSlugs(file)[i].Some?
    ensures var slug := GetAllProjectSlugs(file)[i].value;
      GetProjectBySlug(file, slug).Some? && GetProjectBySlug(file, slug).value.slug == Some(slug)
  {
    var items := GetProjects(file);
    assert items[i] in items;
  }

  /** An entry posted through the API has a page under its derived slug,
      unless sorting the new document throws. */
  lemma PostedEntryHasPage(items: seq<Project>, body: Project)
    requires body.title.Some?
    requires !RoleSortThrows(items + [NewProject(body)])
    ensures GetProjectBySlug(Some(items + [NewProject(body)]), DeriveSlug(body.title.value)).Some?
  {
    var s := items + [NewProject(body)];
    var sorted := GetProjects(Some(s));
    assert NewProject(body) in multiset(s);
    assert NewProject(body) in multiset(sorted);
    assert NewProject(body) in sorted;
  }

  /** After a DELETE of `slug` through the API, the site has no page for it. */
  lemma DeletedEntryHasNoPage(items: seq<Project>, slug: string)
    ensures GetProjectBySlug(Some(WithoutSlug(items, slug)), slug).None?
  {
    var kept := WithoutSlug(items, slug);
    var sorted := GetProjects(Some(kept));
    forall w | w in sorted
      ensures w.slug != Some(slug)
    {
      assert w in multiset(sorted);
      assert w in multiset(kept);
    }
  }
}
