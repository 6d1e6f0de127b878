/** `src/lib/work.ts`: how the site reads the work document. Unlike the API
    it sorts the entries (latest and current first), and it turns every
    failure (missing file, bad JSON, a throwing comparator) into an empty
    list. */
module WorkLib {
  import opened Wrappers
  import opened Seqs
  import opened Slug
  import opened Content
  import opened Ordering
  import opened WorkApi

  /** `getWorkItems`: the stored entries sorted by period, or none at all. */
  function GetWorkItems(file: Option<seq<Work>>): (r: seq<Work>)
    ensures file.None? ==> r == []
    ensures file.Some? && PeriodSortThrows(file.value) ==> r == []
    ensures file.Some? && !PeriodSortThrows(file.value) ==> Sorted(r, file.value, PeriodValue)
  {
    match file
    case None => []
    case Some(items) => SortByPeriod(items).GetOr([])
  }

  /** `getWorkBySlug`: the first entry in sorted order carrying `slug`. */
  function GetWorkBySlug(file: Option<seq<Work>>, slug: string): (r: Option<Work>)
    ensures r.Some? ==> r.value in GetWorkItems(file) && r.value.slug == Some(slug)
    ensures r.None? <==> forall w :: w in GetWorkItems(file) ==> w.slug != Some(slug)
    ensures r.Some? ==> exists i :: 0 <= i < |GetWorkItems(file)| && GetWorkItems(file)[i] == r.value &&
                          forall j :: 0 <= j < i ==> GetWorkItems(file)[j].slug != Some(slug)
  {
    var items := GetWorkItems(file);
    var r := Find(items, SameSlug(Some(slug)));
    assert r.Some? ==> items[FindIndex(items, SameSlug(Some(slug))).value] == r.value;
    r
  }

  /** `item.slug`. */
  function SlugOf(w: Work): Option<string> {
    w.slug
  }

  /** `getAllWorkSlugs`: the slugs in sorted order (an entry without a slug
      contributes `undefined`). */
  function GetAllWorkSlugs(file: Option<seq<Work>>): (r: seq<Option<string>>)
    ensures |r| == |GetWorkItems(file)|
    ensures forall i :: 0 <= i < |r| ==> r[i] == GetWorkItems(file)[i].slug
  {
    Map(GetWorkItems(file), SlugOf)
  }

  /** Every slug the site pre-renders has a page: looking it up finds an entry. */
  lemma EverySlugHasPage(file: Option<seq<Work>>, i: nat)
    requires i < |GetAllWorkSlugs(file)| && GetAllWorkSlugs(file)[i].Some?
    ensures var slug := GetAllWorkSlugs(file)[i].value;
      GetWorkBySlug(file, slug).Some? && GetWorkBySlug(file, slug).value.slug == Some(slug)
  {
    var items := GetWorkItems(file);
    assert items[i] in items;
  }

  /** An entry posted through the API has a page under its derived slug,
      unless sorting the new document throws. */
  lemma PostedEntryHasPage(items: seq<Work>, body: Work)
    requires body.title.Some?
    requires !PeriodSortThrows(items + [NewWork(body)])
    ensures GetWorkBySlug(Some(items + [NewWork(body)]), DeriveSlug(body.title.value)).Some?
  {
    var s := items + [NewWork(body)];
    var sorted := GetWorkItems(Some(s));
    assert NewWork(body) in multiset(s);
    assert NewWork(body) in multiset(sorted);
    assert NewWork(body) in sorted;
  }

  /** After a DELETE of `slug` through the API, the site has no page for it. */
  lemma DeletedEntryHasNoPage(items: seq<Work>, slug: string)
    ensures GetWorkBySlug(Some(WithoutSlug(items, slug)), slug).None?
  {
    var kept := WithoutSlug(items, slug);
    var sorted := GetWorkItems(Some(kept));
    forall w | w in sorted
      ensures w.slug != Some(slug)
    {
      assert w in multiset(sorted);
      assert w in multiset(kept);
    }
  }
}
