/** The pure parts of the admin dashboard (`src/app/admin/dashboard/page.tsx`):
    the comma-separated tag field, the one-bullet-per-line text area, the
    element updates of the nested list editors, the forms an entry opens
    into and the request bodies a submitted form becomes. */
module DashboardForms {
  import opened Wrappers
  import opened Text
  import opened Seqs
  import opened Content

  /** `Boolean` as a filter on strings: the non-empty ones. */
  function NonEmpty(): string -> bool {
    (t: string) => t != ""
  }

  /** A tag as the tag field leaves it: non-empty, free of commas and of
      surrounding white space. */
  predicate IsTag(t: string) {
    t != "" && IsTrimmed(t) && FreeOf(t, ',')
  }

  predicate AllTags(tags: seq<string>) {
    forall i :: 0 <= i < |tags| ==> IsTag(tags[i])
  }

  /** Trimming only removes characters from the ends, so it adds no comma. */
  lemma TrimFreeOf(x: string, c: char)
    requires FreeOf(x, c)
    ensures FreeOf(Trim(x), c)
  {
    var y := TrimStart(x);
    FreeOfSlice(x, |x| - |y|, |x|, c);
    var z := TrimEnd(y);
    FreeOfSlice(y, 0, |z|, c);
    assert Trim(x) == z;
  }

  /** Every field of the tag text, trimmed, is free of commas. */
  lemma TrimmedFieldsFree(s: string)
    ensures forall k :: 0 <= k < |Split(s, [','])| ==> FreeOf(Trim(Split(s, [','])[k]), ',')
  {
    var pieces := Split(s, [',']);
    SplitPiecesFree(s, ',');
    forall k | 0 <= k < |pieces| ensures FreeOf(Trim(pieces[k]), ',') {
      assert FreeOf(pieces[k], ',');
      TrimFreeOf(pieces[k], ',');
    }
  }

  /** `s.split(",").map((t) => t.trim())`: the trimmed fields, empty ones
      included. */
  function TrimmedFields(s: string): (r: seq<string>)
    ensures forall k :: 0 <= k < |r| ==> IsTrimmed(r[k]) && FreeOf(r[k], ',')
  {
    var pieces := Split(s, [',']);
    var r := Map(pieces, Trim);
    assert forall k :: 0 <= k < |r| ==> IsTrimmed(r[k]) && FreeOf(r[k], ',') by {
      TrimmedFieldsFree(s);
      forall k | 0 <= k < |r| ensures IsTrimmed(r[k]) && FreeOf(r[k], ',') {
        assert r[k] == Trim(pieces[k]);
      }
    }
    r
  }

  /** `s.split(",").map((t) => t.trim()).filter(Boolean)`. */
  function ParseTags(s: string): (r: seq<string>)
    ensures AllTags(r)
  {
    var fields := TrimmedFields(s);
    var r := Filter(fields, NonEmpty());
    assert AllTags(r) by {
      forall i | 0 <= i < |r| ensures IsTag(r[i]) {
        FilterMember(fields, NonEmpty(), r[i]);
      }
    }
    r
  }

  /** `tags.join(", ")`, the text the tag field shows for stored tags. */
  function JoinTags(tags: seq<string>): (r: string)
    ensures tags == [] ==> r == ""
    ensures |tags| == 1 ==> r == tags[0]
  {
    Join(tags, ", ")
  }

  /** A comma-free piece and the rest of the field: the tags of the piece
      come before the tags of the rest, so parsing keeps the typed order. */
  lemma ParseTagsConcat(a: string, b: string)
    requires FreeOf(a, ',')
    ensures ParseTags(a + "," + b) == ParseTags(a) + ParseTags(b)
  {
    assert a + "," + b == a + [','] + b;
    SplitAtFirst(a, ',', b);
    SplitFree(a, ',');
    var rest := Split(b, [',']);
    assert Map([a] + rest, Trim) == [Trim(a)] + Map(rest, Trim) by {
      assert ([a] + rest)[1..] == rest;
    }
    FilterAppend([Trim(a)], Map(rest, Trim), NonEmpty());
  }

  /** White space and then a tag is free of commas. */
  lemma SpacedTagFree(w: string, t: string)
    requires AllSpace(w) && FreeOf(t, ',')
    ensures FreeOf(w + t, ',')
  {
    forall j | 0 <= j < |w + t| ensures (w + t)[j] != ',' {
      if j < |w| {
        assert IsSpace(w[j]);
      } else {
        assert (w + t)[j] == t[j - |w|];
      }
    }
  }

  /** White space and then a tag parses into that one tag; white space alone
      parses into no tag. */
  lemma ParseSpacedTag(w: string, t: string)
    requires AllSpace(w) && (t == "" || IsTag(t))
    ensures ParseTags(w + t) == if t == "" then [] else [t]
  {
    SpacedTagFree(w, t);
    SplitFree(w + t, ',');
    assert Trim(w + t) == t by {
      TrimAfterSpaces(w, t);
      TrimOfTrimmed(t);
    }
    ParseOnePiece(w + t);
  }

  /** A field without commas parses into its trimmed text, if that is not empty. */
  lemma ParseOnePiece(x: string)
    requires Split(x, [',']) == [x]
    ensures ParseTags(x) == if Trim(x) == "" then [] else [Trim(x)]
  {
    assert Map([x], Trim) == [Trim(x)];
  }

  /** The text `w + tags.join(", ")` with leading white space `w` parses back
      into `tags`. */
  lemma {:induction false} ParseSpacedJoin(w: string, tags: seq<string>)
    requires AllSpace(w) && AllTags(tags)
    ensures ParseTags(w + JoinTags(tags)) == tags
    decreases |tags|
  {
    if tags == [] {
      ParseSpacedTag(w, "");
    } else if |tags| == 1 {
      ParseSpacedTag(w, tags[0]);
    } else {
      var rest := tags[1..];
      assert AllTags(rest) by {
        forall i | 0 <= i < |rest| ensures IsTag(rest[i]) {
          assert rest[i] == tags[i + 1];
        }
      }
      assert AllSpace(" ") by {
        assert IsSpace(' ');
      }
      ParseSpacedJoin(" ", rest);
      ParseSpacedJoinStep(w, tags);
    }
  }

  /** The inductive step of `ParseSpacedJoin`: once the space-led rest parses
      back, so does the whole join. */
  lemma ParseSpacedJoinStep(w: string, tags: seq<string>)
    requires AllSpace(w) && AllTags(tags) && |tags| >= 2
    requires ParseTags(" " + JoinTags(tags[1..])) == tags[1..]
    ensures ParseTags(w + JoinTags(tags)) == tags
  {
    var t, more := tags[0], " " + JoinTags(tags[1..]);
    assert IsTag(t);
    assert tags == [t] + tags[1..];
    assert ParseTags(w + t) == [t] by {
      ParseSpacedTag(w, t);
    }
    assert ParseTags(w + JoinTags(tags)) == ParseTags(w + t) + ParseTags(more) by {
      JoinTagsCons(w, tags);
      SpacedTagFree(w, t);
      ParseTagsConcat(w + t, more);
    }
  }

  /** Two or more tags join as the first, a comma and the space-led rest. */
  lemma JoinTagsCons(w: string, tags: seq<string>)
    requires |tags| >= 2
    ensures w + JoinTags(tags) == (w + tags[0]) + "," + (" " + JoinTags(tags[1..]))
  {
    assert JoinTags(tags) == tags[0] + ", " + JoinTags(tags[1..]);
  }

  /** Tags as a stored entry should hold them survive a round trip through
      the tag field: `join(", ")` then the parse gives them back. */
  lemma TagsRoundTrip(tags: seq<string>)
    requires AllTags(tags)
    ensures ParseTags(JoinTags(tags)) == tags
  {
    ParseSpacedJoin("", tags);
    assert "" + JoinTags(tags) == JoinTags(tags);
  }

  /** Saving an entry a second time without touching the tag field stores the
      same tags again. */
  lemma ReparseTagsStable(s: string)
    ensures ParseTags(JoinTags(ParseTags(s))) == ParseTags(s)
  {
    TagsRoundTrip(ParseTags(s));
  }

  /** `bullets.join("\n")`, the text the bullets area shows. */
  function BulletsText(bullets: seq<string>): (r: string)
    ensures bullets == [] ==> r == ""
  {
    Join(bullets, "\n")
  }

  /** `value.split("\n")`, the bullets the area stores as it is typed into. */
  function BulletLines(text: string): (r: seq<string>)
    ensures r != []
    ensures forall i :: 0 <= i < |r| ==> FreeOf(r[i], '\n')
  {
    SplitPiecesFree(text, '\n');
    Split(text, "\n")
  }

  /** The text area keeps exactly what was typed. */
  lemma TextRoundTrip(text: string)
    ensures BulletsText(BulletLines(text)) == text
  {
    JoinSplit(text, "\n");
  }

  /** A non-empty list of one-line bullets comes back unchanged. */
  lemma BulletsRoundTrip(bullets: seq<string>)
    requires bullets != []
    requires forall i :: 0 <= i < |bullets| ==> FreeOf(bullets[i], '\n')
    ensures BulletLines(BulletsText(bullets)) == bullets
  {
    SplitJoin(bullets, '\n');
  }

  /** A project with no bullets, once its (empty) area is edited, holds one
      empty bullet: `"".split("\n")` is `[""]`. */
  lemma NoBulletsComeBackBlank()
    ensures BulletLines(BulletsText([])) == [""]
  {
    SplitFree("", '\n');
  }

  /** The value `updateWorkProject(index, field, value)` writes: one key of a
      work project. */
  datatype WorkProjectField = Title(title: string) | Links(links: seq<Link>) | Bullets(bullets: seq<string>)

  /** `{ ...project, [field]: value }`. */
  function WithField(p: WorkProject, f: WorkProjectField): (r: WorkProject)
    ensures f.Title? ==> r == WorkProject(f.title, p.links, p.bullets)
    ensures f.Links? ==> r == WorkProject(p.title, f.links, p.bullets)
    ensures f.Bullets? ==> r == WorkProject(p.title, p.links, f.bullets)
  {
    match f
    case Title(t) => p.(title := t)
    case Links(l) => p.(links := l)
    case Bullets(b) => p.(bullets := b)
  }

  /** The key of a link that `updateProjectLink` and `updateProjLink` write. */
  datatype LinkField = Label | Href

  /** `{ ...link, [field]: value }`. */
  function WithLinkField(l: Link, f: LinkField, value: string): (r: Link)
    ensures f == Label ==> r.caption == value && r.href == l.href
    ensures f == Href ==> r.href == value && r.caption == l.caption
  {
    match f
    case Label => l.(caption := value)
    case Href => l.(href := value)
  }

  /** Writing the same key twice keeps only the second value. */
  lemma WithFieldTwice(p: WorkProject, f: WorkProjectField, g: WorkProjectField)
    requires f.Title? == g.Title? && f.Links? == g.Links?
    ensures WithField(WithField(p, f), g) == WithField(p, g)
  {
  }

  /** Writing back the value a key already holds changes nothing. */
  lemma WithFieldSame(p: WorkProject)
    ensures WithField(p, Title(p.title)) == p
    ensures WithField(p, Links(p.links)) == p
    ensures WithField(p, Bullets(p.bullets)) == p
  {
  }

  /** An element appended by an "add" button and removed at once by the
      matching "remove" button leaves the list as it was. */
  lemma RemoveAppended<T>(s: seq<T>, x: T)
    ensures RemoveAt(s + [x], |s|) == s
  {
    assert (s + [x])[..|s|] == s;
  }

  /** The work form: every text input of the work modal. The inputs copied
      without a default from a stored entry may be `undefined`. */
  datatype WorkForm = WorkForm(
    title: Option<string>,
    href: Option<string>,
    logo: string,
    role: Option<string>,
    period: Option<string>,
    description: Option<string>,
    longDescription: Option<string>,
    tags: string)

  /** The project form. */
  datatype ProjectForm = ProjectForm(
    title: Option<string>,
    role: Option<string>,
    description: Option<string>,
    longDescription: string,
    href: Option<string>,
    tags: string,
    livePreviewUrl: string,
    youtubeUrl: string)

  /** The link form. */
  datatype LinkForm = LinkForm(title: Option<string>, href: Option<string>)

  /** The tool form. */
  datatype ToolForm = ToolForm(name: string, description: string, category: string)

  const BlankWorkForm := WorkForm(Some(""), Some(""), "", Some(""), Some(""), Some(""), Some(""), "")
  const BlankProjectForm := ProjectForm(Some(""), Some(""), Some(""), "", Some(""), "", "", "")
  const BlankLinkForm := LinkForm(Some(""), Some(""))
  const BlankToolForm := ToolForm("", "", "development")
  const BlankWorkProject := WorkProject("", [], [])
  const BlankLink := Link("", "")

  /** The work form filled from a stored entry; `None` when the entry has no
      tags, since `item.tags.join` then throws. */
  function WorkFormOf(item: Work): (r: Option<WorkForm>)
    ensures r.None? <==> item.tags.None?
    ensures r.Some? ==> r.value.title == item.title && r.value.href == item.href && r.value.role == item.role
    ensures r.Some? ==> r.value.period == item.period && r.value.description == item.description
    ensures r.Some? ==> r.value.longDescription == item.longDescription
    ensures r.Some? ==> r.value.logo == OrElse(item.logo, "") && r.value.tags == JoinTags(item.tags.value)
  {
    match item.tags
    case None => None
    case Some(tags) =>
      Some(WorkForm(item.title, item.href, OrElse(item.logo, ""), item.role, item.period,
        item.description, item.longDescription, JoinTags(tags)))
  }

  /** The project form filled from a stored project; `None` when it has no tags. */
  function ProjectFormOf(item: Project): (r: Option<ProjectForm>)
    ensures r.None? <==> item.tags.None?
    ensures r.Some? ==> r.value.title == item.title && r.value.role == item.role
    ensures r.Some? ==> r.value.description == item.description && r.value.href == item.href
    ensures r.Some? ==> r.value.longDescription == OrElse(item.longDescription, "")
    ensures r.Some? ==> r.value.livePreviewUrl == OrElse(item.livePreviewUrl, "")
    ensures r.Some? ==> r.value.youtubeUrl == OrElse(item.youtubeUrl, "")
    ensures r.Some? ==> r.value.tags == JoinTags(item.tags.value)
  {
    match item.tags
    case None => None
    case Some(tags) =>
      Some(ProjectForm(item.title, item.role, item.description, OrElse(item.longDescription, ""),
        item.href, JoinTags(tags), OrElse(item.livePreviewUrl, ""), OrElse(item.youtubeUrl, "")))
  }

  /** `{ ...workForm, tags, projects: workProjects, slug: editingItem?.slug }`
      as the server receives it (an `undefined` slug is dropped from the JSON). */
  function WorkPayload(form: WorkForm, projects: seq<WorkProject>, slug: Option<string>): (r: Work)
    ensures r.slug == slug && r.title == form.title && r.href == form.href && r.logo == Some(form.logo)
    ensures r.role == form.role && r.period == form.period && r.description == form.description
    ensures r.longDescription == form.longDescription
    ensures r.tags == Some(ParseTags(form.tags)) && r.projects == Some(projects)
  {
    Work(slug, form.title, form.href, Some(form.logo), form.role, form.period, form.description,
      form.longDescription, Some(ParseTags(form.tags)), Some(projects))
  }

  /** `{ ...projectForm, tags, links: projectLinks, diagrams: [], slug: editingItem?.slug }`. */
  function ProjectPayload(form: ProjectForm, links: seq<Link>, slug: Option<string>): (r: Project)
    ensures r.slug == slug && r.title == form.title && r.role == form.role && r.description == form.description
    ensures r.longDescription == Some(form.longDescription) && r.href == form.href
    ensures r.tags == Some(ParseTags(form.tags)) && r.links == Some(links)
    ensures r.livePreviewUrl == Some(form.livePreviewUrl) && r.youtubeUrl == Some(form.youtubeUrl)
    ensures r.diagrams == Some([])
  {
    Project(slug, form.title, form.role, form.description, Some(form.longDescription), form.href,
      Some(ParseTags(form.tags)), Some(links), Some(form.livePreviewUrl), Some(form.youtubeUrl), Some([]))
  }

  /** Opening a stored entry for editing and saving it untouched sends a PUT
      whose merge leaves the entry as it was, provided the entry has a logo,
      a project list and tags as the tag field produces them. */
  lemma UnchangedWorkEdit(item: Work)
    requires item.logo.Some? && item.projects.Some? && item.tags.Some? && AllTags(item.tags.value)
    ensures var form := WorkFormOf(item).value;
      MergeWork(item, WorkPayload(form, item.projects.GetOr([]), item.slug)) == item
  {
    TagsRoundTrip(item.tags.value);
  }

  /** The same for a project, except that the dashboard always sends
      `diagrams: []`: saving a project untouched deletes its diagrams. */
  lemma UnchangedProjectEdit(item: Project)
    requires item.longDescription.Some? && item.livePreviewUrl.Some? && item.youtubeUrl.Some?
    requires item.links.Some? && item.tags.Some? && AllTags(item.tags.value)
    ensures var form := ProjectFormOf(item).value;
      MergeProject(item, ProjectPayload(form, item.links.GetOr([]), item.slug)) == item.(diagrams := Some([]))
  {
    TagsRoundTrip(item.tags.value);
  }
}
