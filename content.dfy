/** The records kept in the JSON documents under `data/`, and the replies the
    route handlers send. A record read from a document or a request body is a
    JSON object whose keys may be absent, so every field that a handler copies
    without a default is optional (`None` is an absent key). */
module Content {
  import opened Wrappers
  import opened Text
  import opened Slug

  /** `{ label, href }`: a link of a work project or of a project (`label` is
      a reserved word in Dafny, so the field is called `caption`). */
  datatype Link = Link(caption: string, href: string)

  /** A project inside a work entry. */
  datatype WorkProject = WorkProject(title: string, links: seq<Link>, bullets: seq<string>)

  /** An entry of `data/work.json`, or the body of a request to `/api/work`. */
  datatype Work = Work(
    slug: Option<string>,
    title: Option<string>,
    href: Option<string>,
    logo: Option<string>,
    role: Option<string>,
    period: Option<string>,
    description: Option<string>,
    longDescription: Option<string>,
    tags: Option<seq<string>>,
    projects: Option<seq<WorkProject>>)

  /** An entry of `data/projects.json`, or the body of a request to `/api/projects`. */
  datatype Project = Project(
    slug: Option<string>,
    title: Option<string>,
    role: Option<string>,
    description: Option<string>,
    longDescription: Option<string>,
    href: Option<string>,
    tags: Option<seq<string>>,
    links: Option<seq<Link>>,
    livePreviewUrl: Option<string>,
    youtubeUrl: Option<string>,
    diagrams: Option<seq<string>>)

  /** An entry of `data/links.json`. */
  datatype LinkItem = LinkItem(title: Option<string>, href: Option<string>)

  /** The body of a request to `/api/links`. */
  datatype LinkBody = LinkBody(title: Option<string>, href: Option<string>, originalTitle: Option<string>)

  /** An entry of a category in `data/tools.json`. */
  datatype Tool = Tool(name: string, description: string)

  /** What a handler answers. `Crash` is an exception the handler does not
      catch, which the server turns into status 500. */
  datatype Reply<T> =
    | Ok(value: T)
    | Created(value: T)
    | Success
    | Failure(status: nat, error: string)
    | Crash
  {
    /** The HTTP status code. */
    function Status(): nat {
      match this
      case Ok(_) => 200
      case Created(_) => 201
      case Success => 200
      case Failure(s, _) => s
      case Crash => 500
    }
  }

  /** A key of `{ ...a, ...b }`: the value from `b` when `b` has the key. */
  function Override<T>(a: Option<T>, b: Option<T>): (r: Option<T>)
    ensures b.Some? ==> r == b
    ensures b.None? ==> r == a
  {
    if b.Some? then b else a
  }

  /** `{ ...item, ...body }` over the keys of a work entry. */
  function MergeWork(item: Work, body: Work): (r: Work)
  {
    Work(Override(item.slug, body.slug), Override(item.title, body.title), Override(item.href, body.href),
      Override(item.logo, body.logo), Override(item.role, body.role), Override(item.period, body.period),
      Override(item.description, body.description), Override(item.longDescription, body.longDescription),
      Override(item.tags, body.tags), Override(item.projects, body.projects))
  }

  /** `{ ...item, ...body }` over the keys of a project. */
  function MergeProject(item: Project, body: Project): (r: Project)
  {
    Project(Override(item.slug, body.slug), Override(item.title, body.title), Override(item.role, body.role),
      Override(item.description, body.description), Override(item.longDescription, body.longDescription),
      Override(item.href, body.href), Override(item.tags, body.tags), Override(item.links, body.links),
      Override(item.livePreviewUrl, body.livePreviewUrl), Override(item.youtubeUrl, body.youtubeUrl),
      Override(item.diagrams, body.diagrams))
  }

  const NoWorkFields := Work(None, None, None, None, None, None, None, None, None, None)
  const NoProjectFields := Project(None, None, None, None, None, None, None, None, None, None, None)

  /** A body with no keys leaves the entry as it was. */
  lemma MergeWorkEmpty(item: Work)
    ensures MergeWork(item, NoWorkFields) == item
  {
  }

  /** Sending the same update twice is the same as sending it once. */
  lemma MergeWorkTwice(item: Work, body: Work)
    ensures MergeWork(MergeWork(item, body), body) == MergeWork(item, body)
  {
  }

  /** A body that carries every key replaces the entry completely. */
  lemma MergeWorkComplete(item: Work, body: Work)
    requires body.slug.Some? && body.title.Some? && body.href.Some? && body.logo.Some? && body.role.Some?
    requires body.period.Some? && body.description.Some? && body.longDescription.Some?
    requires body.tags.Some? && body.projects.Some?
    ensures MergeWork(item, body) == body
  {
  }

  lemma MergeProjectEmpty(item: Project)
    ensures MergeProject(item, NoProjectFields) == item
  {
  }

  lemma MergeProjectTwice(item: Project, body: Project)
    ensures MergeProject(MergeProject(item, body), body) == MergeProject(item, body)
  {
  }

  /** The entry a work POST creates from its body (which must have a title). */
  function NewWork(body: Work): (r: Work)
    requires body.title.Some?
    ensures r.slug == Some(DeriveSlug(body.title.value)) && IsSlug(r.slug.value)
    ensures r.title == body.title
    ensures r.href.Some? && r.logo.Some? && r.tags.Some? && r.projects.Some?
    ensures Truthy(body.href) ==> r.href == body.href
    ensures !Truthy(body.href) ==> r.href == Some("")
    ensures Truthy(body.logo) ==> r.logo == body.logo
    ensures !Truthy(body.logo) ==> r.logo == Some("")
    ensures r.role == body.role && r.period == body.period && r.description == body.description
    ensures Truthy(body.longDescription) ==> r.longDescription == body.longDescription
    ensures !Truthy(body.longDescription) ==> r.longDescription == body.description
    ensures body.tags.None? ==> r.tags == Some([])
    ensures body.tags.Some? ==> r.tags == body.tags
    ensures body.projects.None? ==> r.projects == Some([])
    ensures body.projects.Some? ==> r.projects == body.projects
  {
    var title := body.title.value;
    Work(Some(DeriveSlug(title)), Some(title), Some(OrElse(body.href, "")), Some(OrElse(body.logo, "")),
      body.role, body.period, body.description,
      if Truthy(body.longDescription) then body.longDescription else body.description,
      Some(body.tags.GetOr([])), Some(body.projects.GetOr([])))
  }

  /** The entry a project POST creates from its body (which must have a title).
      Unlike a work entry, the long description does not fall back to the
      description. */
  function NewProject(body: Project): (r: Project)
    requires body.title.Some?
    ensures r.slug == Some(DeriveSlug(body.title.value)) && IsSlug(r.slug.value)
    ensures r.title == body.title && r.role == body.role && r.description == body.description
    ensures Truthy(body.longDescription) ==> r.longDescription == body.longDescription
    ensures !Truthy(body.longDescription) ==> r.longDescription == Some("")
    ensures Truthy(body.href) ==> r.href == body.href
    ensures !Truthy(body.href) ==> r.href == Some("")
    ensures Truthy(body.livePreviewUrl) ==> r.livePreviewUrl == body.livePreviewUrl
    ensures !Truthy(body.livePreviewUrl) ==> r.livePreviewUrl == Some("")
    ensures Truthy(body.youtubeUrl) ==> r.youtubeUrl == body.youtubeUrl
    ensures !Truthy(body.youtubeUrl) ==> r.youtubeUrl == Some("")
    ensures r.tags == Some(body.tags.GetOr([])) && r.links == Some(body.links.GetOr([]))
    ensures r.diagrams == Some(body.diagrams.GetOr([]))
  {
    var title := body.title.value;
    Project(Some(DeriveSlug(title)), Some(title), body.role, body.description,
      Some(OrElse(body.longDescription, "")), Some(OrElse(body.href, "")),
      Some(body.tags.GetOr([])), Some(body.links.GetOr([])),
      Some(OrElse(body.livePreviewUrl, "")), Some(OrElse(body.youtubeUrl, "")),
      Some(body.diagrams.GetOr([])))
  }
}
