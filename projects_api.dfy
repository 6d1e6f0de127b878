/** `/api/projects`: the projects document `data/projects.json` and its four
    handlers, which repeat those of `/api/work` except that GET sorts (in
    memory only) and a new project has other defaults. */
module ProjectsApi {
  import opened Wrappers
  import opened Text
  import opened Seqs
  import opened Slug
  import opened Content
  import opened Ordering

  /** `item.slug !== slug`. */
  function OtherSlug(slug: string): Project -> bool {
    (p: Project) => p.slug != Some(slug)
  }

  /** `item.slug === key`, where either side may be absent. */
  function SameSlug(key: Option<string>): Project -> bool {
    (p: Project) => p.slug == key
  }

  /** The projects a DELETE of `slug` keeps: every project with another slug, in order. */
  function WithoutSlug(items: seq<Project>, slug: string): (r: seq<Project>)
    ensures forall i :: 0 <= i < |r| ==> r[i].slug != Some(slug)
    ensures forall w :: w in r <==> w in items && w.slug != Some(slug)
  {
    assert forall w :: w in Filter(items, OtherSlug(slug)) <==> w in items && w.slug != Some(slug) by {
      forall w ensures w in Filter(items, OtherSlug(slug)) <==> w in items && w.slug != Some(slug) {
        FilterMember(items, OtherSlug(slug), w);
      }
    }
    Filter(items, OtherSlug(slug))
  }

  /** The projects after a PUT that matched index `i`. */
  function Updated(items: seq<Project>, i: nat, body: Project): (r: seq<Project>)
    requires i < |items|
    ensures |r| == |items|
  {
    items[i := MergeProject(items[i], body)]
  }

  class ProjectStore {
    /** The parsed document; `None` when the file is missing or does not parse. */
    var file: Option<seq<Project>>

    constructor(contents: Option<seq<Project>>)
      ensures file == contents
    {
      file := contents;
    }

    /** `readData().items`. */
    function Items(): seq<Project>
      reads this
    {
      file.GetOr([])
    }

    /** GET: the projects sorted by role, latest first; the sorted copy is
        not written back. A project without a role makes the comparator throw. */
    method Get() returns (r: Reply<seq<Project>>)
      ensures RoleSortThrows(Items()) ==> r == Crash
      ensures !RoleSortThrows(Items()) ==> r.Ok? && Sorted(r.value, Items(), RoleValue)
    {
      var sorted := SortByRole(Items());
      if sorted.None? {
        r := Crash;
      } else {
        r := Ok(sorted.value);
      }
    }

    /** POST: appends the project built from the body. A body without a title
        makes `body.title.toLowerCase()` throw before anything is written. */
    method Post(body: Project) returns (r: Reply<Project>)
      modifies this
      ensures body.title.None? ==> r == Crash && file == old(file)
      ensures body.title.Some? ==> r == Created(NewProject(body)) && file == Some(old(Items()) + [NewProject(body)])
    {
      if body.title.None? {
        r := Crash;
        return;
      }
      var items := Items();
      var item := NewProject(body);
      items := items + [item];
      file := Some(items);
      r := Created(item);
    }

    /** DELETE `?slug=`: removes every project with that slug. */
    method Delete(slug: Option<string>) returns (r: Reply<Project>)
      modifies this
      ensures !Truthy(slug) ==> r == Failure(400, "Slug required") && file == old(file)
      ensures Truthy(slug) ==> r == Success && file == Some(WithoutSlug(old(Items()), slug.value))
    {
      if !Truthy(slug) {
        r := Failure(400, "Slug required");
        return;
      }
      var items := Items();
      items := WithoutSlug(items, slug.value);
      file := Some(items);
      r := Success;
    }

    /** PUT: merges the body into the first project whose slug equals the body's. */
    method Put(body: Project) returns (r: Reply<Project>)
      modifies this
      ensures FindIndex(old(Items()), SameSlug(body.slug)).None? ==>
                r == Failure(404, "Item not found") && file == old(file)
      ensures FindIndex(old(Items()), SameSlug(body.slug)).Some? ==>
                var i := FindIndex(old(Items()), SameSlug(body.slug)).value;
                file == Some(Updated(old(Items()), i, body)) && r == Ok(MergeProject(old(Items())[i], body))
    {
      var items := Items();
      var index := FindIndex(items, SameSlug(body.slug));
      if index.None? {
        r := Failure(404, "Item not found");
        return;
      }
      var i := index.value;
      items := Updated(items, i, body);
      file := Some(items);
      r := Ok(items[i]);
    }
  }

  /** A second DELETE of the same slug changes nothing. */
  lemma DeleteIdempotent(items: seq<Project>, slug: string)
    ensures WithoutSlug(WithoutSlug(items, slug), slug) == WithoutSlug(items, slug)
  {
    FilterTwice(items, OtherSlug(slug));
  }

  /** Deleting a slug that no project has changes nothing. */
  lemma DeleteAbsentSlug(items: seq<Project>, slug: string)
    requires forall i :: 0 <= i < |items| ==> items[i].slug != Some(slug)
    ensures WithoutSlug(items, slug) == items
  {
    FilterAll(items, OtherSlug(slug));
  }

  /** Deleting the slug of a freshly posted project removes it together with
      every older project whose title derived the same slug. */
  lemma DeleteAfterPost(items: seq<Project>, body: Project)
    requires body.title.Some?
    ensures var slug := DeriveSlug(body.title.value);
      WithoutSlug(items + [NewProject(body)], slug) == WithoutSlug(items, slug)
  {
    var slug := DeriveSlug(body.title.value);
    FilterAppend(items, [NewProject(body)], OtherSlug(slug));
    assert Filter([NewProject(body)], OtherSlug(slug)) == [];
  }

  /** PUT changes only the matched project, and never a slug. */
  lemma PutKeepsOthersAndSlugs(items: seq<Project>, body: Project)
    requires FindIndex(items, SameSlug(body.slug)).Some?
    ensures var i := FindIndex(items, SameSlug(body.slug)).value;
      var r := Updated(items, i, body);
      && (forall j :: 0 <= j < |items| && j != i ==> r[j] == items[j])
      && (forall j :: 0 <= j < |items| ==> r[j].slug == items[j].slug)
  {
  }

  /** Sending the same PUT twice is the same as sending it once: the second
      one finds the same project and the merge is idempotent. */
  lemma PutIdempotent(items: seq<Project>, body: Project)
    requires FindIndex(items, SameSlug(body.slug)).Some?
    ensures var i := FindIndex(items, SameSlug(body.slug)).value;
      var r := Updated(items, i, body);
      FindIndex(r, SameSlug(body.slug)) == Some(i) && Updated(r, i, body) == r
  {
    var i := FindIndex(items, SameSlug(body.slug)).value;
    var r := Updated(items, i, body);
    PutKeepsOthersAndSlugs(items, body);
    FindIndexSameSlugs(items, r, body.slug);
    MergeProjectTwice(items[i], body);
  }

  /** Two lists with the same slugs at every index agree on `findIndex` by slug. */
  lemma {:induction false} FindIndexSameSlugs(a: seq<Project>, b: seq<Project>, key: Option<string>)
    requires |a| == |b| && forall j :: 0 <= j < |a| ==> a[j].slug == b[j].slug
    ensures FindIndex(a, SameSlug(key)) == FindIndex(b, SameSlug(key))
  {
    if a != [] {
      FindIndexSameSlugs(a[1..], b[1..], key);
    }
  }
}
