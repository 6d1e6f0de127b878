/** `/api/links`: the links document `data/links.json`. Links have no slug;
    the title is their key, and a PUT replaces a link wholesale. */
module LinksApi {
  import opened Wrappers
  import opened Text
  import opened Seqs
  import opened Content

  /** `item.title !== title`. */
  function OtherTitle(title: string): LinkItem -> bool {
    (l: LinkItem) => l.title != Some(title)
  }

  /** `item.title === key`, where either side may be absent. */
  function SameTitle(key: Option<string>): LinkItem -> bool {
    (l: LinkItem) => l.title == key
  }

  /** The link a POST or PUT stores: only the title and the address of the body. */
  function LinkOf(body: LinkBody): (r: LinkItem)
    ensures r.title == body.title && r.href == body.href
  {
    LinkItem(body.title, body.href)
  }

  /** The links a DELETE of `title` keeps. */
  function WithoutTitle(items: seq<LinkItem>, title: string): (r: seq<LinkItem>)
    ensures forall i :: 0 <= i < |r| ==> r[i].title != Some(title)
    ensures forall l :: l in r <==> l in items && l.title != Some(title)
  {
    assert forall l :: l in Filter(items, OtherTitle(title)) <==> l in items && l.title != Some(title) by {
      forall l ensures l in Filter(items, OtherTitle(title)) <==> l in items && l.title != Some(title) {
        FilterMember(items, OtherTitle(title), l);
      }
    }
    Filter(items, OtherTitle(title))
  }

  class LinkStore {
    /** The parsed document; `None` when the file is missing or does not parse. */
    var file: Option<seq<LinkItem>>

    constructor(contents: Option<seq<LinkItem>>)
      ensures file == contents
    {
      file := contents;
    }

    /** `readData().items`. */
    function Items(): seq<LinkItem>
      reads this
    {
      file.GetOr([])
    }

    /** GET: the links in insertion order. */
    method Get() returns (r: Reply<seq<LinkItem>>)
      ensures r == Ok(Items())
    {
      r := Ok(Items());
    }

    /** POST: appends `{ title, href }` without checking either. */
    method Post(body: LinkBody) returns (r: Reply<LinkItem>)
      modifies this
      ensures r == Created(LinkOf(body))
      ensures file == Some(old(Items()) + [LinkOf(body)])
    {
      var items := Items();
      var link := LinkOf(body);
      items := items + [link];
      file := Some(items);
      r := Created(link);
    }

    /** DELETE `?title=`: removes every link with that title. */
    method Delete(title: Option<string>) returns (r: Reply<LinkItem>)
      modifies this
      ensures !Truthy(title) ==> r == Failure(400, "Title required") && file == old(file)
      ensures Truthy(title) ==> r == Success && file == Some(WithoutTitle(old(Items()), title.value))
    {
      if !Truthy(title) {
        r := Failure(400, "Title required");
        return;
      }
      var items := Items();
      items := WithoutTitle(items, title.value);
      file := Some(items);
      r := Success;
    }

    /** PUT: replaces the first link titled `originalTitle` by `{ title, href }`. */
    method Put(body: LinkBody) returns (r: Reply<LinkItem>)
      modifies this
      ensures FindIndex(old(Items()), SameTitle(body.originalTitle)).None? ==>
                r == Failure(404, "Item not found") && file == old(file)
      ensures FindIndex(old(Items()), SameTitle(body.originalTitle)).Some? ==>
                var i := FindIndex(old(Items()), SameTitle(body.originalTitle)).value;
                file == Some(old(Items())[i := LinkOf(body)]) && r == Ok(LinkOf(body))
    {
      var items := Items();
      var index := FindIndex(items, SameTitle(body.originalTitle));
      if index.None? {
        r := Failure(404, "Item not found");
        return;
      }
      items := items[index.value := LinkOf(body)];
      file := Some(items);
      r := Ok(items[index.value]);
    }
  }

  /** A second DELETE of the same title changes nothing. */
  lemma DeleteIdempotent(items: seq<LinkItem>, title: string)
    ensures WithoutTitle(WithoutTitle(items, title), title) == WithoutTitle(items, title)
  {
    FilterTwice(items, OtherTitle(title));
  }

  /** Posting a link and deleting its title removes it and every older link
      with that title, and keeps the rest in order. */
  lemma DeleteAfterPost(items: seq<LinkItem>, body: LinkBody)
    requires Truthy(body.title)
    ensures WithoutTitle(items + [LinkOf(body)], body.title.value) == WithoutTitle(items, body.title.value)
  {
    FilterAppend(items, [LinkOf(body)], OtherTitle(body.title.value));
    assert Filter([LinkOf(body)], OtherTitle(body.title.value)) == [];
  }

  /** PUT puts exactly `{ title, href }` in place of the found link and
      touches no other. After a rename, no link up to the replaced one still
      carries the old title, so a repeated PUT finds a later link or none. */
  lemma PutReplacesWholesale(items: seq<LinkItem>, body: LinkBody)
    requires FindIndex(items, SameTitle(body.originalTitle)).Some?
    ensures var i := FindIndex(items, SameTitle(body.originalTitle)).value;
      var r := items[i := LinkOf(body)];
      && |r| == |items|
      && r[i] == LinkItem(body.title, body.href)
      && (forall j :: 0 <= j < |items| && j != i ==> r[j] == items[j])
      && (body.title != body.originalTitle ==> forall j :: 0 <= j <= i ==> r[j].title != body.originalTitle)
  {
  }
}
