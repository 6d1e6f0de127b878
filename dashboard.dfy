/** The admin dashboard component (`src/app/admin/dashboard/page.tsx`): its
    React state hooks are the fields of `Dashboard`, each handler a method
    that calls the setters in the order the source does. Network replies are
    parameters. */
module Dashboard {
  import opened Wrappers
  import opened Seqs
  import opened Content
  import opened Ordering
  import Blog
  import Text
  import opened ToolsApi
  import opened DashboardForms
  import WorkApi

  /** Which modal is open (`modalType`). */
  datatype Modal = NoModal | WorkModal | ProjectModal | LinkModal | ToolModal

  /** `editingItem`: the stored entry being edited. Only its slug is read. */
  datatype Editing = Editing(slug: Option<string>)

  /** The lists the dashboard shows. */
  datatype Data = Data(
    workItems: seq<Work>,
    blogItems: seq<Blog.Post>,
    projectItems: seq<Project>,
    linkItems: seq<LinkItem>,
    toolItems: Categories)

  /** The five responses of `fetchAllData`, once `Promise.all` has resolved;
      `None` where that response's `.json()` rejects or, for work and
      projects, where the body cannot be sorted. */
  datatype Fetched = Fetched(
    work: Option<seq<Work>>,
    blog: Option<seq<Blog.Post>>,
    projects: Option<seq<Project>>,
    links: Option<seq<LinkItem>>,
    tools: Option<Categories>)

  /** A request a submit sends: its verb and its JSON body. */
  datatype Outgoing<T> = Post(body: T) | Put(body: T)

  /** The body of a tool request: the tool form and `originalName`. */
  datatype ToolBody = ToolBody(name: string, description: string, category: string, originalName: Option<string>)

  /** Every state hook of the component that the model keeps. */
  datatype State = State(
    data: Data,
    isLoading: bool,
    modal: Modal,
    editingItem: Option<Editing>,
    workForm: WorkForm,
    workProjects: seq<WorkProject>,
    projectForm: ProjectForm,
    projectLinks: seq<Link>,
    linkForm: LinkForm,
    editingLinkTitle: Option<string>,
    toolForm: ToolForm,
    editingToolName: Option<string>)

  /** How many of the five setters of `fetchAllData` run before the first
      throw. `replies` is `None` when `Promise.all` rejects because one of the
      five requests failed: the `catch` is reached before any setter. Otherwise
      the setters run in order: work (its sort throws on two or more entries
      when one has no period), blog, projects (likewise for the role), links,
      tools. */
  function Stage(replies: Option<Fetched>): (n: nat)
    ensures n <= 5
    ensures replies.None? ==> n == 0
    ensures n >= 1 <==> replies.Some? && replies.value.work.Some? && !PeriodSortThrows(replies.value.work.value)
    ensures n >= 2 <==> n >= 1 && replies.value.blog.Some?
    ensures n >= 3 <==> n >= 2 && replies.value.projects.Some? && !RoleSortThrows(replies.value.projects.value)
    ensures n >= 4 <==> n >= 3 && replies.value.links.Some?
    ensures n == 5 <==> n >= 4 && replies.value.tools.Some?
  {
    match replies
    case None => 0
    case Some(f) =>
      if f.work.None? || PeriodSortThrows(f.work.value) then 0
      else if f.blog.None? then 1
      else if f.projects.None? || RoleSortThrows(f.projects.value) then 2
      else if f.links.None? then 3
      else if f.tools.None? then 4
      else 5
  }

  /** The lists after `fetchAllData`: every setter reached replaces its list;
      once one step throws, the later lists keep their old value. */
  function Refreshed(d: Data, replies: Option<Fetched>): (r: Data)
    ensures Stage(replies) >= 1 ==> Sorted(r.workItems, replies.value.work.value, PeriodValue)
    ensures Stage(replies) < 1 ==> r.workItems == d.workItems
    ensures Stage(replies) >= 2 ==> r.blogItems == replies.value.blog.value
    ensures Stage(replies) < 2 ==> r.blogItems == d.blogItems
    ensures Stage(replies) >= 3 ==> Sorted(r.projectItems, replies.value.projects.value, DashboardRoleValue)
    ensures Stage(replies) < 3 ==> r.projectItems == d.projectItems
    ensures Stage(replies) >= 4 ==> r.linkItems == replies.value.links.value
    ensures Stage(replies) < 4 ==> r.linkItems == d.linkItems
    ensures Stage(replies) == 5 ==> r.toolItems == replies.value.tools.value
    ensures Stage(replies) < 5 ==> r.toolItems == d.toolItems
  {
    var n := Stage(replies);
    if n == 0 then d
    else
      var f := replies.value;
      var d1 := d.(workItems := SortByPeriod(f.work.value).value);
      var d2 := if n >= 2 then d1.(blogItems := f.blog.value) else d1;
      var d3 := if n >= 3 then d2.(projectItems := DashboardSortByRole(f.projects.value).value) else d2;
      var d4 := if n >= 4 then d3.(linkItems := f.links.value) else d3;
      if n == 5 then d4.(toolItems := f.tools.value) else d4
  }

  /** A failed request leaves every list as it was, even those whose own
      request succeeded. */
  lemma FailedRequestKeepsLists(d: Data)
    ensures Refreshed(d, None) == d
  {
  }

  /** Loading twice from the same replies is loading once. */
  lemma RefreshTwice(d: Data, f: Option<Fetched>)
    ensures Refreshed(Refreshed(d, f), f) == Refreshed(d, f)
  {
  }

  /** A reload whose replies all arrive replaces every list, whatever the
      dashboard showed before. */
  lemma CompleteRefreshForgets(d: Data, e: Data, f: Option<Fetched>)
    requires Stage(f) == 5
    ensures Refreshed(d, f) == Refreshed(e, f)
  {
  }

  /** The state after `closeModal`: the modal, the edited entry, both nested
      link lists, the link form and the tool form are reset; the work form and
      the project form keep what was typed. */
  function Closed(s: State): (r: State)
    ensures r.modal == NoModal && r.editingItem.None? && r.workProjects == [] && r.projectLinks == []
    ensures r.editingLinkTitle.None? && r.linkForm == BlankLinkForm
    ensures r.editingToolName.None? && r.toolForm == BlankToolForm
    ensures r.workForm == s.workForm && r.projectForm == s.projectForm
    ensures r.data == s.data && r.isLoading == s.isLoading
  {
    s.(modal := NoModal, editingItem := None, workProjects := [], projectLinks := [],
      editingLinkTitle := None, linkForm := BlankLinkForm, editingToolName := None, toolForm := BlankToolForm)
  }

  lemma CloseTwice(s: State)
    ensures Closed(Closed(s)) == Closed(s)
  {
  }

  /** The state after `openWorkModal(item)`. An entry without tags throws at
      `item.tags.join` after `setEditingItem(item)`, and nothing else changes. */
  function WorkOpened(s: State, item: Option<Work>): State
  {
    match item
    case None => s.(editingItem := None, workForm := BlankWorkForm, workProjects := [], modal := WorkModal)
    case Some(w) =>
      match WorkFormOf(w)
      case None => s.(editingItem := Some(Editing(w.slug)))
      case Some(form) =>
        s.(editingItem := Some(Editing(w.slug)), workForm := form, workProjects := w.projects.GetOr([]), modal := WorkModal)
  }

  /** The state after `openProjectModal(item)`. */
  function ProjectOpened(s: State, item: Option<Project>): State
  {
    match item
    case None => s.(editingItem := None, projectForm := BlankProjectForm, projectLinks := [], modal := ProjectModal)
    case Some(p) =>
      match ProjectFormOf(p)
      case None => s.(editingItem := Some(Editing(p.slug)))
      case Some(form) =>
        s.(editingItem := Some(Editing(p.slug)), projectForm := form, projectLinks := p.links.GetOr([]),
          modal := ProjectModal)
  }

  /** A new entry never inherits what an earlier, closed modal left in the
      work form: opening the modal for a new entry resets it. */
  lemma NewWorkStartsBlank(s: State)
    ensures var r := WorkOpened(Closed(s), None);
      r.workForm == BlankWorkForm && r.workProjects == [] && r.editingItem.None? && r.modal == WorkModal
  {
  }

  /** The request `handleWorkSubmit` sends: a PUT carrying the edited entry's
      slug exactly when an entry is being edited, otherwise a POST without slug. */
  function WorkRequest(s: State): (r: Outgoing<Work>)
    ensures r.Put? <==> s.editingItem.Some?
    ensures s.editingItem.Some? ==> r.body.slug == s.editingItem.value.slug
    ensures s.editingItem.None? ==> r.body.slug.None?
    ensures r.body == WorkPayload(s.workForm, s.workProjects, r.body.slug)
  {
    match s.editingItem
    case Some(e) => Put(WorkPayload(s.workForm, s.workProjects, e.slug))
    case None => Post(WorkPayload(s.workForm, s.workProjects, None))
  }

  /** The request `handleProjectSubmit` sends. */
  function ProjectRequest(s: State): (r: Outgoing<Project>)
    ensures r.Put? <==> s.editingItem.Some?
    ensures s.editingItem.Some? ==> r.body.slug == s.editingItem.value.slug
    ensures s.editingItem.None? ==> r.body.slug.None?
    ensures r.body == ProjectPayload(s.projectForm, s.projectLinks, r.body.slug)
  {
    match s.editingItem
    case Some(e) => Put(ProjectPayload(s.projectForm, s.projectLinks, e.slug))
    case None => Post(ProjectPayload(s.projectForm, s.projectLinks, None))
  }

  /** The request `handleLinkSubmit` sends: a PUT exactly when the edited
      title is a non-empty string. */
  function LinkRequest(s: State): (r: Outgoing<LinkBody>)
    ensures r.Put? <==> Text.Truthy(s.editingLinkTitle)
    ensures r.body == LinkBody(s.linkForm.title, s.linkForm.href, s.editingLinkTitle)
  {
    var body := LinkBody(s.linkForm.title, s.linkForm.href, s.editingLinkTitle);
    if Text.Truthy(s.editingLinkTitle) then Put(body) else Post(body)
  }

  /** The request `handleToolSubmit` sends. */
  function ToolRequest(s: State): (r: Outgoing<ToolBody>)
    ensures r.Put? <==> Text.Truthy(s.editingToolName)
    ensures r.body == ToolBody(s.toolForm.name, s.toolForm.description, s.toolForm.category, s.editingToolName)
  {
    var body := ToolBody(s.toolForm.name, s.toolForm.description, s.toolForm.category, s.editingToolName);
    if Text.Truthy(s.editingToolName) then Put(body) else Post(body)
  }

  /** Opening a stored entry and submitting at once sends a PUT of its own
      slug; opening the modal for a new entry and submitting sends a POST. */
  lemma EditSubmitsPut(s: State, item: Work)
    requires item.tags.Some?
    ensures WorkRequest(WorkOpened(s, Some(item))).Put?
    ensures WorkRequest(WorkOpened(s, Some(item))).body.slug == item.slug
    ensures WorkRequest(WorkOpened(s, None)).Post?
  {
  }

  /** Submitting a new entry after an edit was closed sends a POST: closing
      the modal forgets the edited entry. */
  lemma ClosedSubmitsPost(s: State)
    ensures WorkRequest(Closed(s)).Post? && ProjectRequest(Closed(s)).Post?
    ensures LinkRequest(Closed(s)).Post? && ToolRequest(Closed(s)).Post?
  {
  }

  /** Opening the first stored entry with its slug and saving it untouched
      sends a PUT that the work API matches to that same entry and that leaves
      the stored list as it was. */
  lemma UnchangedEditKeepsStore(s: State, items: seq<Work>, i: nat)
    requires i < |items| && FindIndex(items, WorkApi.SameSlug(items[i].slug)) == Some(i)
    requires items[i].logo.Some? && items[i].projects.Some?
    requires items[i].tags.Some? && AllTags(items[i].tags.value)
    ensures var request := WorkRequest(WorkOpened(s, Some(items[i])));
      && request.Put?
      && FindIndex(items, WorkApi.SameSlug(request.body.slug)) == Some(i)
      && WorkApi.Updated(items, i, request.body) == items
  {
    var item := items[i];
    var editing := WorkOpened(s, Some(item));
    assert editing.editingItem == Some(Editing(item.slug));
    assert editing.workForm == WorkFormOf(item).value && editing.workProjects == item.projects.GetOr([]);
    var body := WorkPayload(WorkFormOf(item).value, item.projects.GetOr([]), item.slug);
    assert WorkRequest(editing) == Put(body);
    UnchangedWorkEdit(item);
    assert WorkApi.Updated(items, i, body) == items[i := item];
  }

  const NoData := Data([], [], [], [], map[])

  class AdminDashboard {
    var data: Data
    var isLoading: bool
    var modal: Modal
    var editingItem: Option<Editing>
    var workForm: WorkForm
    var workProjects: seq<WorkProject>
    var projectForm: ProjectForm
    var projectLinks: seq<Link>
    var linkForm: LinkForm
    var editingLinkTitle: Option<string>
    var toolForm: ToolForm
    var editingToolName: Option<string>

    /** All the state hooks as one value. */
    function Snapshot(): State
      reads this
    {
      State(data, isLoading, modal, editingItem, workForm, workProjects, projectForm, projectLinks,
        linkForm, editingLinkTitle, toolForm, editingToolName)
    }

    /** The initial value of every hook. */
    constructor()
      ensures Snapshot() == State(NoData, true, NoModal, None, BlankWorkForm, [], BlankProjectForm, [],
                                         BlankLinkForm, None, BlankToolForm, None)
    {
      data := NoData;
      isLoading := true;
      modal := NoModal;
      editingItem := None;
      workForm := BlankWorkForm;
      workProjects := [];
      projectForm := BlankProjectForm;
      projectLinks := [];
      linkForm := BlankLinkForm;
      editingLinkTitle := None;
      toolForm := BlankToolForm;
      editingToolName := None;
    }

    /** `fetchAllData`: nothing when `Promise.all` rejects, otherwise the
        setters in order, stopping at the first throw; `finally` always clears
        the loading flag. */
    method FetchAllData(replies: Option<Fetched>)
      modifies this
      ensures Snapshot() == old(Snapshot()).(data := Refreshed(old(data), replies), isLoading := false)
    {
      if replies.None? {
        isLoading := false;
        return;
      }
      var f := replies.value;
      if f.work.None? {
        isLoading := false;
        return;
      }
      var work := SortByPeriod(f.work.value);
      if work.None? {
        isLoading := false;
        return;
      }
      data := data.(workItems := work.value);
      if f.blog.None? {
        isLoading := false;
        return;
      }
      data := data.(blogItems := f.blog.value);
      if f.projects.None? {
        isLoading := false;
        return;
      }
      var projects := DashboardSortByRole(f.projects.value);
      if projects.None? {
        isLoading := false;
        return;
      }
      data := data.(projectItems := projects.value);
      if f.links.None? {
        isLoading := false;
        return;
      }
      data := data.(linkItems := f.links.value);
      if f.tools.None? {
        isLoading := false;
        return;
      }
      data := data.(toolItems := f.tools.value);
      isLoading := false;
    }

    /** `closeModal`. */
    method CloseModal()
      modifies this
      ensures Snapshot() == Closed(old(Snapshot()))
    {
      modal := NoModal;
      editingItem := None;
      workProjects := [];
      projectLinks := [];
      editingLinkTitle := None;
      linkForm := BlankLinkForm;
      editingToolName := None;
      toolForm := BlankToolForm;
    }

    /** `openWorkModal(item)`. */
    method OpenWorkModal(item: Option<Work>)
      modifies this
      ensures Snapshot() == WorkOpened(old(Snapshot()), item)
    {
      if item.Some? {
        editingItem := Some(Editing(item.value.slug));
        var form := WorkFormOf(item.value);
        if form.None? {
          return;
        }
        workForm := form.value;
        workProjects := item.value.projects.GetOr([]);
      } else {
        editingItem := None;
        workForm := BlankWorkForm;
        workProjects := [];
      }
      modal := WorkModal;
    }

    /** `openProjectModal(item)`. */
    method OpenProjectModal(item: Option<Project>)
      modifies this
      ensures Snapshot() == ProjectOpened(old(Snapshot()), item)
    {
      if item.Some? {
        editingItem := Some(Editing(item.value.slug));
        var form := ProjectFormOf(item.value);
        if form.None? {
          return;
        }
        projectForm := form.value;
        projectLinks := item.value.links.GetOr([]);
      } else {
        editingItem := None;
        projectForm := BlankProjectForm;
        projectLinks := [];
      }
      modal := ProjectModal;
    }

    /** `openLinkModal(item)`: editing exactly when an item is given. */
    method OpenLinkModal(item: Option<LinkItem>)
      modifies this
      ensures item.Some? ==>
                Snapshot() == old(Snapshot()).(editingLinkTitle := item.value.title,
                                         linkForm := LinkForm(item.value.title, item.value.href), modal := LinkModal)
      ensures item.None? ==>
                Snapshot() == old(Snapshot()).(editingLinkTitle := None, linkForm := BlankLinkForm, modal := LinkModal)
    {
      if item.Some? {
        editingLinkTitle := item.value.title;
        linkForm := LinkForm(item.value.title, item.value.href);
      } else {
        editingLinkTitle := None;
        linkForm := BlankLinkForm;
      }
      modal := LinkModal;
    }

    /** `openToolModal(category, item)`: editing only when both a tool and a
        non-empty category are given. */
    method OpenToolModal(category: Option<string>, item: Option<Tool>)
      modifies this
      ensures item.Some? && Text.Truthy(category) ==>
                Snapshot() == old(Snapshot()).(editingToolName := Some(item.value.name),
                                         toolForm := ToolForm(item.value.name, item.value.description, category.value),
                                         modal := ToolModal)
      ensures !(item.Some? && Text.Truthy(category)) ==>
                Snapshot() == old(Snapshot()).(editingToolName := None, toolForm := BlankToolForm, modal := ToolModal)
    {
      if item.Some? && Text.Truthy(category) {
        editingToolName := Some(item.value.name);
        toolForm := ToolForm(item.value.name, item.value.description, category.value);
      } else {
        editingToolName := None;
        toolForm := BlankToolForm;
      }
      modal := ToolModal;
    }

    /** `handleWorkSubmit`: sends the request, reloads from the replies
        `reloaded` and closes the modal, whatever the server answered. */
    method SubmitWork(reloaded: Option<Fetched>) returns (request: Outgoing<Work>)
      modifies this
      ensures request == WorkRequest(old(Snapshot()))
      ensures Snapshot() == Closed(old(Snapshot()).(data := Refreshed(old(data), reloaded), isLoading := false))
    {
      var slug := if editingItem.Some? then editingItem.value.slug else None;
      var payload := WorkPayload(workForm, workProjects, slug);
      request := if editingItem.Some? then Put(payload) else Post(payload);
      FetchAllData(reloaded);
      CloseModal();
    }

    /** `handleProjectSubmit`. */
    method SubmitProject(reloaded: Option<Fetched>) returns (request: Outgoing<Project>)
      modifies this
      ensures request == ProjectRequest(old(Snapshot()))
      ensures Snapshot() == Closed(old(Snapshot()).(data := Refreshed(old(data), reloaded), isLoading := false))
    {
      var slug := if editingItem.Some? then editingItem.value.slug else None;
      var payload := ProjectPayload(projectForm, projectLinks, slug);
      request := if editingItem.Some? then Put(payload) else Post(payload);
      FetchAllData(reloaded);
      CloseModal();
    }

    /** `handleLinkSubmit`. */
    method SubmitLink(reloaded: Option<Fetched>) returns (request: Outgoing<LinkBody>)
      modifies this
      ensures request == LinkRequest(old(Snapshot()))
      ensures Snapshot() == Closed(old(Snapshot()).(data := Refreshed(old(data), reloaded), isLoading := false))
    {
      var body := LinkBody(linkForm.title, linkForm.href, editingLinkTitle);
      request := if Text.Truthy(editingLinkTitle) then Put(body) else Post(body);
      FetchAllData(reloaded);
      CloseModal();
    }

    /** `handleToolSubmit`. */
    method SubmitTool(reloaded: Option<Fetched>) returns (request: Outgoing<ToolBody>)
      modifies this
      ensures request == ToolRequest(old(Snapshot()))
      ensures Snapshot() == Closed(old(Snapshot()).(data := Refreshed(old(data), reloaded), isLoading := false))
    {
      var body := ToolBody(toolForm.name, toolForm.description, toolForm.category, editingToolName);
      request := if Text.Truthy(editingToolName) then Put(body) else Post(body);
      FetchAllData(reloaded);
      CloseModal();
    }

    /** `addWorkProject`: appends one blank project. */
    method AddWorkProject()
      modifies this
      ensures Snapshot() == old(Snapshot()).(workProjects := old(workProjects) + [BlankWorkProject])
    {
      workProjects := workProjects + [BlankWorkProject];
    }

    /** `updateWorkProject(index, field, value)`: only that key of that project
        changes. */
    method UpdateWorkProject(index: nat, f: WorkProjectField)
      requires index < |workProjects|
      modifies this
      ensures Snapshot() == old(Snapshot()).(workProjects := old(workProjects)[index := WithField(old(workProjects)[index], f)])
    {
      var updated := workProjects;
      updated := updated[index := WithField(updated[index], f)];
      workProjects := updated;
    }

    /** `removeWorkProject(index)`: drops exactly that project. */
    method RemoveWorkProject(index: int)
      modifies this
      ensures Snapshot() == old(Snapshot()).(workProjects := RemoveAt(old(workProjects), index))
    {
      workProjects := RemoveAt(workProjects, index);
    }

    /** `addProjectLink(projectIndex)`: appends a blank link to that project. */
    method AddProjectLink(projectIndex: nat)
      requires projectIndex < |workProjects|
      modifies this
      ensures var p := old(workProjects)[projectIndex];
        Snapshot() == old(Snapshot()).(workProjects := old(workProjects)[projectIndex := p.(links := p.links + [BlankLink])])
    {
      var updated := workProjects;
      var p := updated[projectIndex];
      updated := updated[projectIndex := p.(links := p.links + [BlankLink])];
      workProjects := updated;
    }

    /** `updateProjectLink(projectIndex, linkIndex, field, value)`. */
    method UpdateProjectLink(projectIndex: nat, linkIndex: nat, f: LinkField, value: string)
      requires projectIndex < |workProjects| && linkIndex < |workProjects[projectIndex].links|
      modifies this
      ensures var p := old(workProjects)[projectIndex];
        var links := p.links[linkIndex := WithLinkField(p.links[linkIndex], f, value)];
        Snapshot() == old(Snapshot()).(workProjects := old(workProjects)[projectIndex := p.(links := links)])
    {
      var updated := workProjects;
      var p := updated[projectIndex];
      var links := p.links[linkIndex := WithLinkField(p.links[linkIndex], f, value)];
      updated := updated[projectIndex := p.(links := links)];
      workProjects := updated;
    }

    /** `removeProjectLink(projectIndex, linkIndex)`. */
    method RemoveProjectLink(projectIndex: nat, linkIndex: int)
      requires projectIndex < |workProjects|
      modifies this
      ensures var p := old(workProjects)[projectIndex];
        Snapshot() == old(Snapshot()).(workProjects := old(workProjects)[projectIndex := p.(links := RemoveAt(p.links, linkIndex))])
    {
      var updated := workProjects;
      var p := updated[projectIndex];
      updated := updated[projectIndex := p.(links := RemoveAt(p.links, linkIndex))];
      workProjects := updated;
    }

    /** `addProjLink`: appends a blank link to the project's links. */
    method AddProjLink()
      modifies this
      ensures Snapshot() == old(Snapshot()).(projectLinks := old(projectLinks) + [BlankLink])
    {
      projectLinks := projectLinks + [BlankLink];
    }

    /** `updateProjLink(index, field, value)`. */
    method UpdateProjLink(index: nat, f: LinkField, value: string)
      requires index < |projectLinks|
      modifies this
      ensures Snapshot() == old(Snapshot()).(projectLinks := old(projectLinks)[index := WithLinkField(old(projectLinks)[index], f, value)])
    {
      var updated := projectLinks;
      updated := updated[index := WithLinkField(updated[index], f, value)];
      projectLinks := updated;
    }

    /** `removeProjLink(index)`. */
    method RemoveProjLink(index: int)
      modifies this
      ensures Snapshot() == old(Snapshot()).(projectLinks := RemoveAt(old(projectLinks), index))
    {
      projectLinks := RemoveAt(projectLinks, index);
    }
  }

  /** The list editors keep the number of entries as the buttons say: an add
      makes one more, a remove of an existing index one fewer, an update none,
      and the entries other than the touched one stay where they were. */
  lemma ListEditsShape(s: seq<WorkProject>, index: nat, f: WorkProjectField)
    requires index < |s|
    ensures |s + [BlankWorkProject]| == |s| + 1 && (s + [BlankWorkProject])[|s|] == BlankWorkProject
    ensures |RemoveAt(s, index)| == |s| - 1
    ensures var u := s[index := WithField(s[index], f)];
      |u| == |s| && forall j :: 0 <= j < |s| && j != index ==> u[j] == s[j]
  {
  }
}
