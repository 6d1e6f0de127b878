/** The blog index: the title filter and the keyboard-driven search state
    (`/` opens the search, `Escape` closes it, the arrows move the selection
    and `Enter` opens the selected post). */
module PostSearch {
  import opened Wrappers
  import opened Text
  import opened Seqs

  /** What the list knows of a post: its slug and its title. */
  datatype PostMeta = PostMeta(slug: string, title: string)

  function Matches(query: string): PostMeta -> bool {
    (p: PostMeta) => Contains(ToLower(p.title), ToLower(query))
  }

  /** `filteredPosts`: the posts whose lower-cased title contains the
      lower-cased query, in their order. */
  function FilterPosts(posts: seq<PostMeta>, query: string): (r: seq<PostMeta>)
    ensures forall i :: 0 <= i < |r| ==> Contains(ToLower(r[i].title), ToLower(query))
    ensures forall p :: p in r <==> p in posts && Contains(ToLower(p.title), ToLower(query))
  {
    assert forall p :: p in Filter(posts, Matches(query)) <==> p in posts && Matches(query)(p) by {
      forall p ensures p in Filter(posts, Matches(query)) <==> p in posts && Matches(query)(p) {
        FilterMember(posts, Matches(query), p);
      }
    }
    Filter(posts, Matches(query))
  }

  /** An empty query keeps every post. */
  lemma EmptyQueryKeepsAll(posts: seq<PostMeta>)
    ensures FilterPosts(posts, "") == posts
  {
    forall i | 0 <= i < |posts| ensures Matches("")(posts[i]) {
      assert OccursAt(ToLower(posts[i].title), "", 0);
    }
    FilterAll(posts, Matches(""));
  }

  /** The filter does not care about the case of the query. */
  lemma FilterIgnoresCase(posts: seq<PostMeta>, query: string)
    ensures FilterPosts(posts, query) == FilterPosts(posts, ToLower(query))
  {
    ToLowerOfLower(ToLower(query));
  }

  /** The keys the page reacts to are distinct strings. */
  lemma KeysDiffer()
    ensures "/" != "Escape" && "/" != "ArrowDown" && "/" != "ArrowUp" && "/" != "Enter"
    ensures "Escape" != "ArrowDown" && "Escape" != "ArrowUp" && "Escape" != "Enter"
    ensures "ArrowDown" != "ArrowUp" && "ArrowDown" != "Enter" && "ArrowUp" != "Enter"
  {
    assert |"/"| == 1 && |"Escape"| == 6 && |"ArrowDown"| == 9 && |"ArrowUp"| == 7 && |"Enter"| == 5;
  }

  class PostList {
    const posts: seq<PostMeta>
    var searching: bool
    var query: string
    var selected: int

    function Filtered(): seq<PostMeta>
      reads this
    {
      FilterPosts(posts, query)
    }

    /** The selection is an index of the filtered list, or 0 when that list
        is empty. */
    ghost predicate Valid()
      reads this
    {
      0 <= selected && (selected == 0 || selected < |Filtered()|)
    }

    constructor(posts: seq<PostMeta>)
      ensures this.posts == posts && !searching && query == "" && selected == 0
      ensures Valid()
    {
      this.posts := posts;
      searching := false;
      query := "";
      selected := 0;
    }

    /** Typing into the search field. The selection goes back to the top
        when the query changes (a state update to an equal value changes
        nothing). */
    method SetQuery(q: string)
      requires Valid()
      modifies this
      ensures Valid()
      ensures query == q && searching == old(searching)
      ensures selected == if q == old(query) then old(selected) else 0
    {
      if q != query {
        selected := 0;
      }
      query := q;
    }

    /** A key press anywhere on the page; the result is the path it opens. */
    method KeyDown(key: string) returns (target: Option<string>)
      requires Valid()
      modifies this
      ensures Valid()
      ensures key == "/" && !old(searching) ==>
        searching && query == old(query) && selected == old(selected) && target.None?
      ensures key == "Escape" && old(searching) ==>
        !searching && query == "" && target.None? &&
        selected == (if old(query) == "" then old(selected) else 0)
      ensures old(searching) && key == "ArrowDown" ==>
        searching && query == old(query) && target.None? &&
        selected == (if old(selected) < |old(Filtered())| - 1 then old(selected) + 1 else old(selected))
      ensures old(searching) && key == "ArrowUp" ==>
        searching && query == old(query) && target.None? &&
        selected == (if old(selected) > 0 then old(selected) - 1 else old(selected))
      ensures old(searching) && key == "Enter" ==>
        searching == old(searching) && query == old(query) && selected == old(selected) &&
        target == (if |old(Filtered())| > 0 then Some("/blog/" + old(Filtered())[old(selected)].slug) else None)
      ensures !(key == "/" && !old(searching)) && !(old(searching) && (key == "Escape" || key == "ArrowDown" || key == "ArrowUp" || key == "Enter")) ==>
        searching == old(searching) && query == old(query) && selected == old(selected) && target.None?
    {
      KeysDiffer();
      target := None;
      if key == "/" && !searching {
        searching := true;
      } else if key == "Escape" && searching {
        searching := false;
        SetQuery("");
      } else if searching && (key == "ArrowDown" || key == "ArrowUp") {
        var n := |Filtered()|;
        if key == "ArrowDown" {
          if selected < n - 1 {
            selected := selected + 1;
          }
        } else if selected > 0 {
          selected := selected - 1;
        }
      } else if searching && key == "Enter" && |Filtered()| > 0 {
        target := Some("/blog/" + Filtered()[selected].slug);
      }
    }
  }
}
