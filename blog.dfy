/** `/api/blog` GET: the posts listed from the `.mdx` files of `posts/`, each
    with the title and date read from its front matter. */
module Blog {
  import opened Wrappers
  import opened Text
  import opened Seqs

  /** What GET reports for one file. */
  datatype Post = Post(slug: string, title: string, date: string, filename: string)

  /** `f.endsWith(".mdx")`. */
  predicate IsMdx(file: string) {
    EndsWith(file, ".mdx")
  }

  /** The files GET reads, in directory order. */
  function MdxFiles(files: seq<string>): (r: seq<string>)
    ensures forall i :: 0 <= i < |r| ==> IsMdx(r[i])
    ensures forall f :: f in r <==> f in files && IsMdx(f)
  {
    var keep := (f: string) => IsMdx(f);
    assert forall f :: f in Filter(files, keep) <==> f in files && IsMdx(f) by {
      forall f ensures f in Filter(files, keep) <==> f in files && IsMdx(f) {
        FilterMember(files, keep, f);
      }
    }
    Filter(files, keep)
  }

  /** `file.replace(".mdx", "")`: the first occurrence of `.mdx` is removed,
      wherever it is. */
  function SlugOfFile(file: string): (r: string)
    ensures IndexOf(file, ".mdx", 0).None? ==> r == file
    ensures IndexOf(file, ".mdx", 0).Some? ==> |r| == |file| - 4
  {
    match IndexOf(file, ".mdx", 0)
    case None => file
    case Some(i) => file[..i] + file[i + 4..]
  }

  /** The slug of `x.mdx` is `x`, and only the first `.mdx` goes:
      `a.mdx.mdx` has slug `a.mdx`. */
  lemma SlugOfMdxName(x: string, y: string)
    requires !Contains(x, ".mdx")
    ensures SlugOfFile(x + ".mdx" + y) == x + y
  {
    var s := x + ".mdx" + y;
    assert OccursAt(s, ".mdx", |x|);
    forall j: nat | j < |x| ensures !OccursAt(s, ".mdx", j) {
      if j + 4 <= |x| {
        assert s[j..j + 4] == x[j..j + 4];
        assert !OccursAt(x, ".mdx", j);
      } else {
        assert s[|x|] == '.';
      }
    }
    assert IndexOf(s, ".mdx", 0) == Some(|x|);
    assert s[..|x|] == x;
    assert s[|x| + 4..] == y;
  }

  const Fence := "---"

  /** `/---\s*([\s\S]*?)\s*---/` matches at `open` with its group spanning
      `[start, end)` and the closing fence at `close`. */
  ghost predicate FenceMatch(s: string, open: nat, start: nat, end: nat, close: nat) {
    && OccursAt(s, Fence, open) && open + 3 <= start <= end <= close && OccursAt(s, Fence, close)
    && AllSpace(s[open + 3..start]) && AllSpace(s[end..close])
  }

  /** Where a match of the front-matter expression is found. */
  datatype Block = Block(open: nat, start: nat, end: nat, close: nat)

  /** The match the regular-expression engine reports: the leftmost opening
      fence, then the longest leading `\s*`, then the shortest group. */
  function FenceBlock(s: string): (r: Option<Block>)
    ensures r.None? ==> forall i: nat, a: nat, e: nat, b: nat :: !FenceMatch(s, i, a, e, b)
    ensures r.Some? ==> FenceMatch(s, r.value.open, r.value.start, r.value.end, r.value.close)
    ensures r.Some? ==> forall i: nat, a: nat, e: nat, b: nat :: FenceMatch(s, i, a, e, b) ==> r.value.open <= i
    ensures r.Some? ==> forall a: nat, e: nat, b: nat :: FenceMatch(s, r.value.open, a, e, b) ==> a <= r.value.start
    ensures r.Some? ==> forall e: nat, b: nat :: FenceMatch(s, r.value.open, r.value.start, e, b) ==> r.value.end <= e
  {
    match IndexOf(s, Fence, 0)
    case None => None
    case Some(i) =>
      match IndexOf(s, Fence, i + 3)
      case None =>
        NoClosingFence(s, i);
        None
      case Some(p) =>
        var a := SpaceEnd(s, i + 3);
        var e := if a == p then a else SpaceStart(s, p);
        FenceFound(s, i, p);
        Some(Block(i, a, e, p))
  }

  /** An opening fence without a later one: the expression finds nothing. */
  lemma NoClosingFence(s: string, i: nat)
    requires IndexOf(s, Fence, 0) == Some(i) && IndexOf(s, Fence, i + 3).None?
    ensures forall i': nat, a: nat, e: nat, b: nat :: !FenceMatch(s, i', a, e, b)
  {
    forall i': nat, a: nat, e: nat, b: nat | FenceMatch(s, i', a, e, b) ensures i <= i' {
      assert OccursAt(s, Fence, i');
    }
  }

  /** Two fences: the match is the block between them, trimmed of the white
      space the `\s*` on either side consumes. */
  lemma FenceFound(s: string, i: nat, p: nat)
    requires IndexOf(s, Fence, 0) == Some(i) && IndexOf(s, Fence, i + 3) == Some(p)
    ensures var a := SpaceEnd(s, i + 3);
      var e := if a == p then a else SpaceStart(s, p);
      && FenceMatch(s, i, a, e, p)
      && (forall i': nat, a': nat, e': nat, b': nat :: FenceMatch(s, i', a', e', b') ==> i <= i')
      && (forall a': nat, e': nat, b': nat :: FenceMatch(s, i, a', e', b') ==> a' <= a)
      && (forall e': nat, b': nat :: FenceMatch(s, i, a, e', b') ==> e <= e')
  {
    var a := SpaceEnd(s, i + 3);
    assert a <= p by {
      assert s[p..p + 3][0] == s[p];
    }
    var e := if a == p then a else SpaceStart(s, p);
    assert a <= e by {
      if a < p {
        assert !IsSpace(s[a]);
      }
    }
    assert FenceMatch(s, i, a, e, p) by {
      SpacesBetween(s, i + 3, a);
      SpacesBetween(s, e, p);
    }
    LaterMatches(s, i, p, a, e);
  }

  /** The facts about other matches that make `Block(i, a, e, p)` the one the
      engine reports. */
  lemma LaterMatches(s: string, i: nat, p: nat, a: nat, e: nat)
    requires IndexOf(s, Fence, 0) == Some(i) && IndexOf(s, Fence, i + 3) == Some(p)
    requires a == SpaceEnd(s, i + 3) && a <= e <= p
    requires e == if a == p then a else SpaceStart(s, p)
    ensures forall i': nat, a': nat, e': nat, b': nat :: FenceMatch(s, i', a', e', b') ==> i <= i'
    ensures forall a': nat, e': nat, b': nat :: FenceMatch(s, i, a', e', b') ==> a' <= a
    ensures forall e': nat, b': nat :: FenceMatch(s, i, a, e', b') ==> e <= e'
  {
    forall i': nat, a': nat, e': nat, b': nat | FenceMatch(s, i', a', e', b') ensures i <= i' {
      assert OccursAt(s, Fence, i');
    }
    forall a': nat, e': nat, b': nat | FenceMatch(s, i, a', e', b') ensures a' <= a {
      LongestLeadingSpace(s, i, a, a');
    }
    forall e': nat, b': nat | FenceMatch(s, i, a, e', b') ensures e <= e' {
      assert OccursAt(s, Fence, b');
      ShortestGroup(s, p, a, e, e', b');
    }
  }

  lemma LongestLeadingSpace(s: string, i: nat, a: nat, a': nat)
    requires i + 3 <= a' <= |s| && a == SpaceEnd(s, i + 3) && AllSpace(s[i + 3..a'])
    ensures a' <= a
  {
    forall k | i + 3 <= k < a' ensures IsSpace(s[k]) {
      assert s[i + 3..a'][k - (i + 3)] == s[k];
    }
  }

  lemma ShortestGroup(s: string, p: nat, a: nat, e: nat, e': nat, b': nat)
    requires p <= b' && a <= e <= p && a <= e' <= b' <= |s| && AllSpace(s[e'..b'])
    requires e == if a == p then a else SpaceStart(s, p)
    ensures e <= e'
  {
    forall k | e' <= k < b' ensures IsSpace(s[k]) {
      assert s[e'..b'][k - e'] == s[k];
    }
  }

  /** `frontmatterMatch[1]`: the text of the front-matter block, if any. */
  function Frontmatter(s: string): (r: Option<string>)
    ensures r.None? <==> FenceBlock(s).None?
    ensures r.Some? ==> r.value == s[FenceBlock(s).value.start..FenceBlock(s).value.end]
  {
    match FenceBlock(s)
    case None => None
    case Some(b) => Some(s[b.start..b.end])
  }

  /** The block is the text between the first `---` and the next `---` that
      does not overlap it, with its surrounding white space removed; there is
      none exactly when no such pair exists. */
  lemma FrontmatterBetweenFences(s: string)
    ensures IndexOf(s, Fence, 0).None? ==> Frontmatter(s).None?
    ensures IndexOf(s, Fence, 0).Some? ==>
      var i := IndexOf(s, Fence, 0).value;
      match IndexOf(s, Fence, i + 3)
      case None => Frontmatter(s).None?
      case Some(p) => Frontmatter(s) == Some(Trim(s[i + 3..p]))
  {
    match IndexOf(s, Fence, 0)
    case None =>
    case Some(i) =>
      match IndexOf(s, Fence, i + 3)
      case None =>
      case Some(p) => FrontmatterOfFences(s, i, p);
  }

  /** The case of `FrontmatterBetweenFences` where both fences are found. */
  lemma FrontmatterOfFences(s: string, i: nat, p: nat)
    requires IndexOf(s, Fence, 0) == Some(i) && IndexOf(s, Fence, i + 3) == Some(p)
    ensures Frontmatter(s) == Some(Trim(s[i + 3..p]))
  {
    var a := SpaceEnd(s, i + 3);
    var e := if a == p then a else SpaceStart(s, p);
    assert FenceBlock(s) == Some(Block(i, a, e, p));
    assert s[p] == '-' by {
      assert OccursAt(s, Fence, p);
      assert s[p..p + 3][0] == s[p];
    }
    TrimmedGroup(s, i + 3, p);
  }

  /** Trimming the text between the fences leaves the group the expression
      captures. */
  lemma TrimmedGroup(s: string, lo: nat, p: nat)
    requires lo <= p <= |s| && p + 3 <= |s| && s[p] == '-'
    ensures var a := SpaceEnd(s, lo);
      a <= p && Trim(s[lo..p]) == s[a..if a == p then a else SpaceStart(s, p)]
  {
    var a := SpaceEnd(s, lo);
    assert a <= p;
    var e := if a == p then a else SpaceStart(s, p);
    assert a <= e by {
      if a < p {
        assert !IsSpace(s[a]);
      }
    }
    assert IsTrimmed(s[a..e]) by {
      if a < e {
        assert !IsSpace(s[a]) && !IsSpace(s[e - 1]);
      }
    }
    SpacesBetween(s, lo, a);
    SpacesBetween(s, e, p);
    SliceInThree(s, lo, a, e, p);
    TrimSurrounded(s[lo..a], s[a..e], s[e..p]);
  }

  /** The characters `['"]`. */
  predicate IsQuote(c: char) {
    c == '\'' || c == '"'
  }

  /** `replace(/^['"]|['"]$/g, "")`: one quote character goes from the front,
      then one from the back of what is left. A lone quote is removed once. */
  function StripQuotes(v: string): (r: string)
    ensures |v| - 2 <= |r| <= |v|
    ensures |v| > 0 && IsQuote(v[0]) ==> r == StripEnd(v[1..])
    ensures (|v| == 0 || !IsQuote(v[0])) ==> r == StripEnd(v)
  {
    var rest := if |v| > 0 && IsQuote(v[0]) then v[1..] else v;
    StripEnd(rest)
  }

  /** The `['"]$` half of the expression. */
  function StripEnd(v: string): (r: string)
    ensures |v| > 0 && IsQuote(v[|v| - 1]) ==> r == v[..|v| - 1]
    ensures (|v| == 0 || !IsQuote(v[|v| - 1])) ==> r == v
  {
    if |v| > 0 && IsQuote(v[|v| - 1]) then v[..|v| - 1] else v
  }

  /** A value quoted on both sides loses exactly those two quotes. */
  lemma StripQuotesOfQuoted(q: char, x: string, q': char)
    requires IsQuote(q) && IsQuote(q')
    ensures StripQuotes([q] + x + [q']) == x
  {
    var v := [q] + x + [q'];
    assert v[1..] == x + [q'];
    assert (x + [q'])[..|x|] == x;
  }

  /** A value with no quote at either end is left alone. */
  lemma StripQuotesOfUnquoted(x: string)
    requires x == [] || (!IsQuote(x[0]) && !IsQuote(x[|x| - 1]))
    ensures StripQuotes(x) == x
  {
  }

  /** `key?.trim()`, the key of a front-matter line: what precedes its first `: `. */
  function KeyOf(line: string): string {
    Trim(Split(line, ": ")[0])
  }

  /** `values.join(": ")`, with the quotes stripped, then trimmed. */
  function ValueOf(line: string): string {
    Trim(StripQuotes(Join(Split(line, ": ")[1..], ": ")))
  }

  /** A line `k: v` whose key holds no `: ` has key `trim(k)` and value
      `v` unquoted and trimmed, whatever `v` holds: `title: a: b` gives `a: b`. */
  lemma FieldLine(k: string, v: string)
    requires !Contains(k, ": ")
    ensures KeyOf(k + ": " + v) == Trim(k)
    ensures ValueOf(k + ": " + v) == Trim(StripQuotes(v))
  {
    var line := k + ": " + v;
    assert OccursAt(line, ": ", |k|);
    forall j: nat | j < |k| ensures !OccursAt(line, ": ", j) {
      if j + 2 <= |k| {
        assert line[j..j + 2] == k[j..j + 2];
        assert !OccursAt(k, ": ", j);
      } else {
        assert line[|k|] == ':';
      }
    }
    assert IndexOf(line, ": ", 0) == Some(|k|);
    assert line[..|k|] == k;
    assert line[|k| + 2..] == v;
    var pieces := Split(v, ": ");
    assert Split(line, ": ") == [k] + pieces;
    assert (([k] + pieces)[1..]) == pieces;
    JoinSplit(v, ": ");
  }

  /** A front-matter line cut into its key and value. */
  datatype Field = Field(key: string, value: string)

  function FieldOf(line: string): Field {
    Field(KeyOf(line), ValueOf(line))
  }

  /** The value of the last field whose key is `key`, or `default` when no
      field has that key: a later line overrides an earlier one. */
  function LastValue(fields: seq<Field>, key: string, default: string): (r: string)
    ensures (forall j :: 0 <= j < |fields| ==> fields[j].key != key) ==> r == default
    ensures (exists j :: 0 <= j < |fields| && fields[j].key == key) ==>
      exists j :: 0 <= j < |fields| && fields[j].key == key && r == fields[j].value &&
        forall j' :: j < j' < |fields| ==> fields[j'].key != key
  {
    if fields == [] then default
    else
      var n := |fields| - 1;
      if fields[n].key == key then fields[n].value
      else
        var r := LastValue(fields[..n], key, default);
        LastValueSkip(fields, key, default, r);
        r
  }

  /** A last field with another key leaves the answer of the earlier fields. */
  lemma LastValueSkip(fields: seq<Field>, key: string, default: string, r: string)
    requires fields != [] && fields[|fields| - 1].key != key
    requires var pre := fields[..|fields| - 1];
      (forall j :: 0 <= j < |pre| ==> pre[j].key != key) ==> r == default
    requires var pre := fields[..|fields| - 1];
      (exists j :: 0 <= j < |pre| && pre[j].key == key) ==>
        exists j :: 0 <= j < |pre| && pre[j].key == key && r == pre[j].value &&
          forall j' :: j < j' < |pre| ==> pre[j'].key != key
    ensures (forall j :: 0 <= j < |fields| ==> fields[j].key != key) ==> r == default
    ensures (exists j :: 0 <= j < |fields| && fields[j].key == key) ==>
      exists j :: 0 <= j < |fields| && fields[j].key == key && r == fields[j].value &&
        forall j' :: j < j' < |fields| ==> fields[j'].key != key
  {
    var n := |fields| - 1;
    var pre := fields[..n];
    if exists j :: 0 <= j < |fields| && fields[j].key == key {
      var j :| 0 <= j < |fields| && fields[j].key == key;
      assert pre[j] == fields[j];
      var k :| 0 <= k < |pre| && pre[k].key == key && r == pre[k].value &&
        forall j' :: k < j' < |pre| ==> pre[j'].key != key;
      assert pre[k] == fields[k];
      forall j' | k < j' < |fields| ensures fields[j'].key != key {
        if j' < n {
          assert pre[j'] == fields[j'];
        }
      }
    } else {
      forall j | 0 <= j < |pre| ensures pre[j].key != key {
        assert pre[j] == fields[j];
      }
    }
  }

  /** Reading one more field. */
  lemma LastValueStep(fields: seq<Field>, k: nat, key: string, default: string)
    requires k < |fields|
    ensures LastValue(fields[..k + 1], key, default) ==
      if fields[k].key == key then fields[k].value else LastValue(fields[..k], key, default)
  {
    assert fields[..k + 1][..k] == fields[..k];
  }

  /** The post GET reports for `file` with contents `content`: the slug as
      title and no date, unless the front matter names them. */
  function PostOf(file: string, content: string): (p: Post)
    ensures p.slug == SlugOfFile(file) && p.filename == file
  {
    var slug := SlugOfFile(file);
    match Frontmatter(content)
    case None => Post(slug, slug, "", file)
    case Some(block) =>
      var fields := Map(Split(block, "\n"), FieldOf);
      Post(slug, LastValue(fields, "title", slug), LastValue(fields, "date", ""), file)
  }

  /** A file without two `---` fences that do not overlap is listed under its
      slug with no date. */
  lemma UntitledPost(file: string, content: string)
    requires forall i: nat, p: nat :: OccursAt(content, Fence, i) && OccursAt(content, Fence, p) ==> p < i + 3
    ensures PostOf(file, content).title == SlugOfFile(file) && PostOf(file, content).date == ""
  {
    FrontmatterBetweenFences(content);
  }

  /** One file of the listing. */
  method ReadPost(file: string, content: string) returns (post: Post)
    ensures post == PostOf(file, content)
  {
    var slug := SlugOfFile(file);
    var title := slug;
    var date := "";
    var block := Frontmatter(content);
    if block.Some? {
      var fields := Map(Split(block.value, "\n"), FieldOf);
      title, date := ScanFields(fields, slug);
    }
    post := Post(slug, title, date, file);
  }

  /** The `for` loop over the front-matter lines, each already cut into key
      and value: a line whose key is `title` or `date` sets that field. */
  method ScanFields(fields: seq<Field>, slug: string) returns (title: string, date: string)
    ensures title == LastValue(fields, "title", slug)
    ensures date == LastValue(fields, "date", "")
  {
    title := slug;
    date := "";
    var k := 0;
    while k < |fields|
      invariant 0 <= k <= |fields|
      invariant title == LastValue(fields[..k], "title", slug)
      invariant date == LastValue(fields[..k], "date", "")
    {
      LastValueStep(fields, k, "title", slug);
      LastValueStep(fields, k, "date", "");
      if fields[k].key == "title" {
        title := fields[k].value;
      }
      if fields[k].key == "date" {
        date := fields[k].value;
      }
      k := k + 1;
    }
    assert fields[..|fields|] == fields;
  }

  /** The posts of the first files of a listing, one per file, in order. */
  function PostsOf(mdx: seq<string>, contents: string -> string): (r: seq<Post>)
    ensures |r| == |mdx|
  {
    if mdx == [] then [] else PostsOf(mdx[..|mdx| - 1], contents) + [PostOf(mdx[|mdx| - 1], contents(mdx[|mdx| - 1]))]
  }

  lemma {:induction false} PostsOfAt(mdx: seq<string>, contents: string -> string, i: nat)
    requires i < |mdx|
    ensures PostsOf(mdx, contents)[i] == PostOf(mdx[i], contents(mdx[i]))
  {
    if i < |mdx| - 1 {
      PostsOfAt(mdx[..|mdx| - 1], contents, i);
    }
  }

  /** `files.map(...)` over the listing: one post per file, in order. */
  method ReadPosts(mdx: seq<string>, contents: string -> string) returns (posts: seq<Post>)
    ensures posts == PostsOf(mdx, contents)
  {
    posts := [];
    var k := 0;
    while k < |mdx|
      invariant 0 <= k <= |mdx|
      invariant posts == PostsOf(mdx[..k], contents)
    {
      var post := ReadPost(mdx[k], contents(mdx[k]));
      assert mdx[..k + 1][..k] == mdx[..k];
      posts := posts + [post];
      k := k + 1;
    }
    assert mdx[..k] == mdx;
  }

  /** The posts of a directory listing, in listing order and before the date
      sort; `contents` is what reading each file gives. */
  method ListPosts(files: seq<string>, contents: string -> string) returns (posts: seq<Post>)
    ensures |posts| == |MdxFiles(files)|
    ensures forall i :: 0 <= i < |posts| ==> posts[i] == PostOf(MdxFiles(files)[i], contents(MdxFiles(files)[i]))
  {
    posts := ReadPosts(MdxFiles(files), contents);
    forall i | 0 <= i < |posts| ensures posts[i] == PostOf(MdxFiles(files)[i], contents(MdxFiles(files)[i])) {
      PostsOfAt(MdxFiles(files), contents, i);
    }
  }
}
