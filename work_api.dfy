/** `/api/work`: the work document `data/work.json` and its four handlers.
    Each handler reads the whole document (an unreadable one reads as
    `{ items: [] }`), changes it in memory and writes the whole of it back. */
module WorkApi {
  import opened Wrappers
  import opened Text
  import opened Seqs
  import opened Slug
  import opened Content

  /** `item.slug !== slug`. */
  function OtherSlug(slug: string): Work -> bool {
    (w: Work) => w.slug != Some(slug)
  }

  /** `item.slug === key`, where either side may be absent. */
  function SameSlug(key: Option<string>): Work -> bool {
    (w: Work) => w.slug == key
  }

  /** The entries a DELETE of `slug` keeps: every entry with another slug, in order. */
  function WithoutSlug(items: seq<Work>, slug: string): (r: seq<Work>)
    ensures forall i :: 0 <= i < |r| ==> r[i].slug != Some(slug)
    ensures forall w :: w in r <==> w in items && w.slug != Some(slug)
  {
    assert forall w :: w in Filter(items, OtherSlug(slug)) <==> w in items && w.slug != Some(slug) by {
      forall w ensures w in Filter(items, OtherSlug(slug)) <==> w in items && w.slug != Some(slug) {
        FilterMember(items, OtherSlug(slug), w);
      }
    }
    Filter(items, OtherSlug(slug))
  }

  /** The entries after a PUT that matched index `i`. */
  function Updated(items: seq<Work>, i: nat, body: Work): (r: seq<Work>)
    requires i < |items|
    ensures |r| == |items|
  {
    items[i := MergeWork(items[i], body)]
  }

  class WorkStore {
    /** The parsed document; `None` when the file is missing or does not parse. */
    var file: Option<seq<Work>>

    constructor(contents: Option<seq<Work>>)
      ensures file == contents
    {
      file := contents;
    }

    /** `readData().items`. */
    function Items(): seq<Work>
      reads this
    {
      file.GetOr([])
    }

    /** GET: the entries in stored order, not sorted. */
    method Get() returns (r: Reply<seq<Work>>)
      ensures r == Ok(Items())
    {
      r := Ok(Items());
    }

    /** POST: appends the entry built from the body. A body without a title
        makes `body.title.toLowerCase()` throw before anything is written. */
    method Post(body: Work) returns (r: Reply<Work>)
      modifies this
      ensures body.title.None? ==> r == Crash && file == old(file)
      ensures body.title.Some? ==> r == Created(NewWork(body)) && file == Some(old(Items()) + [NewWork(body)])
    {
      if body.title.None? {
        r := Crash;
        return;
      }
      var items := Items();
      var item := NewWork(body);
      items := items + [item];
      file := Some(items);
      r := Created(item);
    }

    /** DELETE `?slug=`: removes every entry with that slug. */
    method Delete(slug: Option<string>) returns (r: Reply<Work>)
      modifies this
      ensures !Truthy(slug) ==> r == Failure(400, "Slug required") && file == old(file)
      ensures Truthy(slug) ==> r == Success && file == Some(WithoutSlug(old(Items()), slug.value))
    {
      if !Truthy(slug) {
        r := Failure(400, "Slug required");
        return;
      }
      var items := Items();
      items := WithoutSlug(items, slug.value);
      file := Some(items);
      r := Success;
    }

    /** PUT: merges the body into the first entry whose slug equals the body's. */
    method Put(body: Work) returns (r: Reply<Work>)
      modifies this
      ensures FindIndex(old(Items()), SameSlug(body.slug)).None? ==>
                r == Failure(404, "Item not found") && file == old(file)
      ensures FindIndex(old(Items()), SameSlug(body.slug)).Some? ==>
                var i := FindIndex(old(Items()), SameSlug(body.slug)).value;
                file == Some(Updated(old(Items()), i, body)) && r == Ok(MergeWork(old(Items())[i], body))
    {
      var items := Items();
      var index := FindIndex(items, SameSlug(body.slug));
      if index.None? {
        r := Failure(404, "Item not found");
        return;
      }
      var i := index.value;
      items := Updated(items, i, body);
      file := Some(items);
      r := Ok(items[i]);
    }
  }

  /** A second DELETE of the same slug changes nothing. */
  lemma DeleteIdempotent(items: seq<Work>, slug: string)
    ensures WithoutSlug(WithoutSlug(items, slug), slug) == WithoutSlug(items, slug)
  {
    FilterTwice(items, OtherSlug(slug));
  }

  /** Deleting a slug that no entry has changes nothing. */
  lemma DeleteAbsentSlug(items: seq<Work>, slug: string)
    requires forall i :: 0 <= i < |items| ==> items[i].slug != Some(slug)
    ensures WithoutSlug(items, slug) == items
  {
    FilterAll(items, OtherSlug(slug));
  }

  /** Deleting the slug of a freshly posted entry removes it together with
      every older entry whose title derived the same slug. */
  lemma DeleteAfterPost(items: seq<Work>, body: Work)
    requires body.title.Some?
    ensures var slug := DeriveSlug(body.title.value);
      WithoutSlug(items + [NewWork(body)], slug) == WithoutSlug(items, slug)
  {
    var slug := DeriveSlug(body.title.value);
    FilterAppend(items, [NewWork(body)], OtherSlug(slug));
    assert Filter([NewWork(body)], OtherSlug(slug)) == [];
  }

  /** PUT changes only the matched entry, and never a slug. */
  lemma PutKeepsOthersAndSlugs(items: seq<Work>, body: Work)
    requires FindIndex(items, SameSlug(body.slug)).Some?
    ensures var i := FindIndex(items, SameSlug(body.slug)).value;
      var r := Updated(items, i, body);
      && (forall j :: 0 <= j < |items| && j != i ==> r[j] == items[j])
      && (forall j :: 0 <= j < |items| ==> r[j].slug == items[j].slug)
  {
  }

  /** Sending the same PUT twice is the same as sending it once: the second
      one finds the same entry and the merge is idempotent. */
  lemma PutIdempotent(items: seq<Work>, body: Work)
    requires FindIndex(items, SameSlug(body.slug)).Some?
    ensures var i := FindIndex(items, SameSlug(body.slug)).value;
      var r := Updated(items, i, body);
      FindIndex(r, SameSlug(body.slug)) == Some(i) && Updated(r, i, body) == r
  {
    var i := FindIndex(items, SameSlug(body.slug)).value;
    var r := Updated(items, i, body);
    PutKeepsOthersAndSlugs(items, body);
    FindIndexSameSlugs(items, r, body.slug);
    MergeWorkTwice(items[i], body);
  }

  /** Two lists with the same slugs at every index agree on `findIndex` by slug. */
  lemma {:induction false} FindIndexSameSlugs(a: seq<Work>, b: seq<Work>, key: Option<string>)
    requires |a| == |b| && forall j :: 0 <= j < |a| ==> a[j].slug == b[j].slug
    ensures FindIndex(a, SameSlug(key)) == FindIndex(b, SameSlug(key))
  {
    if a != [] {
      FindIndexSameSlugs(a[1..], b[1..], key);
    }
  }
}
