/** `src/components/admin/project-form.tsx`: the project editor. Its state fields
    start from the project being edited (or from defaults), are changed by the
    handlers (the slug follows the title while creating; technologies and images
    are added and removed by value), and are checked and assembled into the form
    data that `createProject` or `updateProject` receives. */
module AdminProjectForm {
  import opened Wrappers
  import opened Lists
  import opened Strings
  import opened ProjectTypes
  import opened Technologies
  import opened AdminProjects

  const RequiredFieldsMessage: string := "Campos obrigat\U{00F3}rios"

  /** What the form fields are. */
  datatype Fields = Fields(
    title: string, slug: string, description: string, longDescription: string,
    category: Category, status: Status, technologies: seq<TechId>, techInput: string,
    githubUrl: string, liveUrl: string, thumbnailUrl: string,
    images: seq<string>, imageInput: string, featured: bool, order: int)

  /** The fields a form starts with: the edited project's values, with `""`, `[]`,
      `"web"`, `"draft"`, `false` and `0` for what it lacks. */
  function InitialFields(project: Option<Project>): (r: Fields)
    ensures project.None? ==>
      && r.title == "" && r.slug == "" && r.description == "" && r.longDescription == ""
      && r.category == Web && r.status == Draft && r.technologies == [] && r.images == []
      && r.githubUrl == "" && r.liveUrl == "" && r.thumbnailUrl == ""
      && !r.featured && r.order == 0
    ensures project.Some? ==>
      var d := project.value.data;
      && r.title == d.title && r.slug == d.slug && r.description == d.description
      && r.longDescription == d.longDescription.GetOr("")
      && r.category == d.category && r.status == d.status
      && r.technologies == d.technologies && r.images == d.images.GetOr([])
      && r.githubUrl == d.githubUrl.GetOr("") && r.liveUrl == d.liveUrl.GetOr("")
      && r.thumbnailUrl == d.thumbnailUrl.GetOr("")
      && r.featured == d.featured && r.order == d.order
    ensures r.techInput == "" && r.imageInput == ""
  {
    match project
    case None => Fields("", "", "", "", Web, Draft, [], "", "", "", "", [], "", false, 0)
    case Some(p) =>
      var d := p.data;
      Fields(d.title, d.slug, d.description, d.longDescription.GetOr(""), d.category, d.status,
             d.technologies, "", d.githubUrl.GetOr(""), d.liveUrl.GetOr(""), d.thumbnailUrl.GetOr(""),
             d.images.GetOr([]), "", d.featured, d.order)
  }

  // ---------------------------------------------------------------------------
  // The list handlers

  /** `handleAddTechnology` / `handleAddImage` as a change of the list and of its
      input box: the trimmed input is appended, and the box cleared, only when it is
      not empty and not already listed. */
  function AddEntry(list: seq<string>, input: string): (r: (seq<string>, string))
  {
    var v := Trim(input);
    if v != "" && v !in list then (list + [v], "") else (list, input)
  }

  /** Adding appends exactly the trimmed input, or changes nothing at all. */
  lemma AddEntryEffect(list: seq<string>, input: string)
    ensures var (l, i) := AddEntry(list, input);
      && (l == list + [Trim(input)] && i == "" <==> !IsBlank(input) && Trim(input) !in list)
      && (IsBlank(input) || Trim(input) in list ==> l == list && i == input)
  {
    var (l, i) := AddEntry(list, input);
    if l == list + [Trim(input)] {
      assert |l| == |list| + 1;
    }
  }

  /** What every entry of a technology or image list is: free of surrounding
      whitespace and not empty, and listed once. */
  predicate WellFormedList(list: seq<string>) {
    NoDuplicates(list) && forall i :: 0 <= i < |list| ==> list[i] != "" && Trim(list[i]) == list[i]
  }

  /** Adding keeps a list well formed. */
  lemma AddEntryKeepsWellFormed(list: seq<string>, input: string)
    requires WellFormedList(list)
    ensures WellFormedList(AddEntry(list, input).0)
  {
    var v := Trim(input);
    if v != "" && v !in list {
      TrimIdempotent(input);
      var l := list + [v];
      assert l[|list|] == v;
      forall i, j | 0 <= i < j < |l| ensures l[i] != l[j] {
        if j == |list| {
          assert l[i] in list;
        }
      }
    }
  }

  /** `handleRemoveTechnology` / `handleRemoveImage`: the value is gone, every
      other value is kept as often as before, and the order of the rest is kept. */
  lemma RemoveEntryEffect(list: seq<string>, x: string)
    ensures x !in Without(list, x)
    ensures forall y :: y != x ==> Count(Without(list, x), y) == Count(list, y)
    ensures IsSubsequence(Without(list, x), list)
  {
  }

  /** Removing keeps a list well formed. */
  lemma RemoveEntryKeepsWellFormed(list: seq<string>, x: string)
    requires WellFormedList(list)
    ensures WellFormedList(Without(list, x))
  {
    var r := Without(list, x);
    SubsequenceKeepsDistinct(r, list);
    SubsequenceIncluded(r, list);
    forall i | 0 <= i < |r| ensures r[i] != "" && Trim(r[i]) == r[i] {
      assert r[i] in list;
    }
  }

  /** Removing the entry just added gives the list back. */
  lemma RemoveUndoesAdd(list: seq<string>, input: string)
    requires !IsBlank(input) && Trim(input) !in list
    ensures Without(AddEntry(list, input).0, Trim(input)) == list
  {
    WithoutAppended(list, Trim(input));
  }

  // ---------------------------------------------------------------------------
  // Submission

  /** `value && value.trim()` kept as its trimmed text. */
  function TrimmedIfPresent(value: string): (r: Option<string>)
    ensures r.Some? <==> !IsBlank(value)
    ensures r.Some? ==> r.value == Trim(value)
  {
    if Trim(value) != "" then Some(Trim(value)) else None
  }

  /** `handleSubmit`'s check and its `formData`: refused when the trimmed title,
      slug or description is empty; otherwise those three trimmed, the optional
      texts only when not blank (trimmed), the images only when there are some. */
  function BuildFormData(f: Fields): (r: Result<ProjectFormData, string>)
    ensures r.Failure? <==> IsBlank(f.title) || IsBlank(f.slug) || IsBlank(f.description)
    ensures r.Failure? ==> r.error == RequiredFieldsMessage
  {
    if Trim(f.title) == "" || Trim(f.slug) == "" || Trim(f.description) == "" then Failure(RequiredFieldsMessage)
    else Success(ProjectFormData(
      Trim(f.title), Trim(f.slug), Trim(f.description), TrimmedIfPresent(f.longDescription),
      f.category, f.status, f.technologies,
      TrimmedIfPresent(f.githubUrl), TrimmedIfPresent(f.liveUrl), TrimmedIfPresent(f.thumbnailUrl),
      if |f.images| > 0 then Some(f.images) else None,
      f.featured, f.order, None, None))
  }

  /** Submitted data: required texts trimmed and not empty, and the lists as the
      form holds them. */
  lemma SubmittedRequiredFields(f: Fields)
    requires BuildFormData(f).Success?
    ensures var d := BuildFormData(f).value;
      && d.title != "" && d.slug != "" && d.description != ""
      && Trim(d.title) == d.title && Trim(d.slug) == d.slug && Trim(d.description) == d.description
      && d.technologies == f.technologies
  {
    var d := BuildFormData(f).value;
    assert d.title == Trim(f.title) && d.slug == Trim(f.slug) && d.description == Trim(f.description);
    TrimIdempotent(f.title);
    TrimIdempotent(f.slug);
    TrimIdempotent(f.description);
  }

  /** Submitted data: optional texts present exactly when not blank, and then
      trimmed; images present exactly when some are listed. */
  lemma SubmittedOptionalFields(f: Fields)
    requires BuildFormData(f).Success?
    ensures var d := BuildFormData(f).value;
      && (d.longDescription.Some? <==> !IsBlank(f.longDescription))
      && (d.githubUrl.Some? <==> !IsBlank(f.githubUrl))
      && (d.liveUrl.Some? <==> !IsBlank(f.liveUrl))
      && (d.thumbnailUrl.Some? <==> !IsBlank(f.thumbnailUrl))
      && (d.githubUrl.Some? ==> d.githubUrl.value != "" && Trim(d.githubUrl.value) == d.githubUrl.value)
      && (d.images.Some? <==> |f.images| > 0)
      && (d.images.Some? ==> d.images.value == f.images)
  {
    var d := BuildFormData(f).value;
    assert d.longDescription == TrimmedIfPresent(f.longDescription);
    assert d.githubUrl == TrimmedIfPresent(f.githubUrl);
    assert d.liveUrl == TrimmedIfPresent(f.liveUrl);
    assert d.thumbnailUrl == TrimmedIfPresent(f.thumbnailUrl);
    TrimIdempotent(f.githubUrl);
  }

  /** Saving an existing project with a blank long description, thumbnail or no
      images leaves the stored ones in place (the update does not carry them),
      while blank links are stored as empty strings. */
  lemma BlankFieldsOnUpdate(db: Db, id: ProjectId, f: Fields, now: int)
    requires id in db.projects && BuildFormData(f).Success?
    requires IsBlank(f.longDescription) && IsBlank(f.githubUrl) && f.images == []
    ensures var p := AfterUpdate(db, id, AsPatch(BuildFormData(f).value), now).projects[id].data;
      && p.longDescription == db.projects[id].data.longDescription
      && p.images == db.projects[id].data.images
      && p.githubUrl == Some("")
  {
    UpdateWritesSanitizedData(db, id, AsPatch(BuildFormData(f).value), now);
  }

  /** A submission from well-formed lists keeps every usage count equal to the
      number of projects listing the technology. */
  lemma SubmissionKeepsReconciled(db: Db, editing: Option<ProjectId>, f: Fields, newId: ProjectId, now: int)
    requires Reconciled(db) && WellFormedList(f.technologies) && BuildFormData(f).Success?
    requires editing.None? ==> newId !in db.projects
    ensures var d := BuildFormData(f).value;
      Reconciled(if editing.Some? then AfterUpdate(db, editing.value, AsPatch(d), now) else AfterCreate(db, d, newId, now))
  {
    var d := BuildFormData(f).value;
    if editing.Some? {
      UpdatePreservesReconciled(db, editing.value, AsPatch(d), now);
    } else {
      CreatePreservesReconciled(db, d, newId, now);
    }
  }

  // ---------------------------------------------------------------------------
  // The form

  class ProjectForm {
    var title: string
    var slug: string
    var description: string
    var longDescription: string
    var category: Category
    var status: Status
    var technologies: seq<TechId>
    var techInput: string
    var githubUrl: string
    var liveUrl: string
    var thumbnailUrl: string
    var images: seq<string>
    var imageInput: string
    var featured: bool
    var order: int
    /** The project being edited, `None` when creating one. */
    const editing: Option<(ProjectId, Project)>
    const service: ProjectService

    function State(): Fields
      reads this
    {
      Fields(title, slug, description, longDescription, category, status, technologies, techInput,
             githubUrl, liveUrl, thumbnailUrl, images, imageInput, featured, order)
    }

    constructor (editing: Option<(ProjectId, Project)>, service: ProjectService)
      ensures State() == InitialFields(if editing.Some? then Some(editing.value.1) else None)
      ensures this.editing == editing && this.service == service
    {
      var f := InitialFields(if editing.Some? then Some(editing.value.1) else None);
      this.editing := editing;
      this.service := service;
      title, slug, description, longDescription := f.title, f.slug, f.description, f.longDescription;
      category, status, technologies, techInput := f.category, f.status, f.technologies, f.techInput;
      githubUrl, liveUrl, thumbnailUrl := f.githubUrl, f.liveUrl, f.thumbnailUrl;
      images, imageInput, featured, order := f.images, f.imageInput, f.featured, f.order;
    }

    /** Typing the title; while creating, a non-empty title also sets the slug to
        `generateSlug(title)`. */
    method EditTitle(value: string)
      modifies this
      ensures title == value
      ensures slug == if editing.None? && value != "" then GenerateSlug(value) else old(slug)
      ensures State() == old(State()).(title := title, slug := slug)
    {
      title := value;
      if editing.None? && title != "" {
        slug := GenerateSlug(title);
      }
    }

    method EditSlug(value: string)
      modifies this
      ensures State() == old(State()).(slug := value)
    {
      slug := value;
    }

    method EditTechInput(value: string)
      modifies this
      ensures State() == old(State()).(techInput := value)
    {
      techInput := value;
    }

    method EditImageInput(value: string)
      modifies this
      ensures State() == old(State()).(imageInput := value)
    {
      imageInput := value;
    }

    /** `handleAddTechnology`. */
    method AddTechnology()
      modifies this
      ensures (technologies, techInput) == AddEntry(old(technologies), old(techInput))
      ensures State() == old(State()).(technologies := technologies, techInput := techInput)
      ensures old(WellFormedList(technologies)) ==> WellFormedList(technologies)
    {
      if WellFormedList(technologies) {
        AddEntryKeepsWellFormed(technologies, techInput);
      }
      var v := Trim(techInput);
      if v != "" && v !in technologies {
        technologies := technologies + [v];
        techInput := "";
      }
    }

    /** `handleRemoveTechnology(tech)`. */
    method RemoveTechnology(tech: TechId)
      modifies this
      ensures technologies == Without(old(technologies), tech)
      ensures State() == old(State()).(technologies := technologies)
      ensures old(WellFormedList(technologies)) ==> WellFormedList(technologies)
    {
      if WellFormedList(technologies) {
        RemoveEntryKeepsWellFormed(technologies, tech);
      }
      technologies := Without(technologies, tech);
    }

    /** `handleAddImage`. */
    method AddImage()
      modifies this
      ensures (images, imageInput) == AddEntry(old(images), old(imageInput))
      ensures State() == old(State()).(images := images, imageInput := imageInput)
      ensures old(WellFormedList(images)) ==> WellFormedList(images)
    {
      if WellFormedList(images) {
        AddEntryKeepsWellFormed(images, imageInput);
      }
      var v := Trim(imageInput);
      if v != "" && v !in images {
        images := images + [v];
        imageInput := "";
      }
    }

    /** `handleRemoveImage(image)`. */
    method RemoveImage(image: string)
      modifies this
      ensures images == Without(old(images), image)
      ensures State() == old(State()).(images := images)
      ensures old(WellFormedList(images)) ==> WellFormedList(images)
    {
      if WellFormedList(images) {
        RemoveEntryKeepsWellFormed(images, image);
      }
      images := Without(images, image);
    }

    /** `handleSubmit`: refused without a store call, or `updateProject(id, data)`
        for the edited project, or `createProject(data)` (stored under `newId`, the
        id the store generates, at server time `now`). `stored` says whether the
        store call succeeds; a failed one is shown with its message and changes
        nothing. */
    method Submit(newId: ProjectId, now: int, stored: bool) returns (r: Outcome<string>)
      requires editing.None? ==> newId !in service.projects
      modifies service, service.catalog
      ensures BuildFormData(old(State())).Failure? ==>
        r == Fail(BuildFormData(old(State())).error) && service.State() == old(service.State())
      ensures BuildFormData(old(State())).Success? && editing.Some? ==>
        && service.State() == (if stored then AfterUpdate(old(service.State()), editing.value.0, AsPatch(BuildFormData(old(State())).value), now)
                               else old(service.State()))
        && r == (if stored && editing.value.0 in old(service.projects) then Pass else Fail(AdminProjects.UpdateFailedMessage))
      ensures BuildFormData(old(State())).Success? && editing.None? ==>
        && service.State() == (if stored then AfterCreate(old(service.State()), BuildFormData(old(State())).value, newId, now)
                               else old(service.State()))
        && r == (if stored then Pass else Fail(AdminProjects.CreateFailedMessage))
    {
      var d := BuildFormData(State());
      if d.Failure? {
        return Fail(d.error);
      }
      var data := d.value;
      if editing.Some? {
        r := service.UpdateProject(editing.value.0, AsPatch(data), now, stored);
      } else {
        var created := service.CreateProject(data, newId, now, stored);
        r := if created.Success? then Pass else Fail(created.error);
      }
    }
  }
}
