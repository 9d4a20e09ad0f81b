/** `src/lib/firebase/services/admin-projects.ts`: the project mutations and the
    usage-count reconciliation they perform on the technology catalog, the lookup
    by id, and slug derivation. */
module AdminProjects {
  import opened Wrappers
  import opened Lists
  import opened Strings
  import opened SlugRules
  import opened ProjectTypes
  import opened Technologies
  import Validators

  /** The projects collection, by document id. */
  type Projects = map<ProjectId, Project>

  /** The two collections a project mutation writes. */
  datatype Db = Db(projects: Projects, technologies: Catalog)

  /** The messages `createProject`, `updateProject` and `deleteProject` throw with. */
  const CreateFailedMessage: string := "Falha ao criar projeto"
  const UpdateFailedMessage: string := "Falha ao atualizar projeto"
  const DeleteFailedMessage: string := "Falha ao deletar projeto"

  // ---------------------------------------------------------------------------
  // The reconciliation invariant

  /** The stored projects whose `technologies` list contains `t`. */
  function ProjectsUsing(projects: Projects, t: TechId): set<ProjectId> {
    set id | id in projects && t in projects[id].data.technologies
  }

  /** Every technology's count is the number of stored projects that list it. */
  ghost predicate CountsMatch(db: Db) {
    forall t :: UsageOf(db.technologies, t) == |ProjectsUsing(db.projects, t)|
  }

  /** No stored project lists a technology twice. */
  ghost predicate ListsDistinct(projects: Projects) {
    forall id :: id in projects ==> NoDuplicates(projects[id].data.technologies)
  }

  ghost predicate Reconciled(db: Db) {
    CountsMatch(db) && ListsDistinct(db.projects)
  }

  // ---------------------------------------------------------------------------
  // What each mutation does to the two collections

  /** `createProject(data)` under the generated id `id` at time `now`: the document
      is added, then every listed technology is incremented. */
  function AfterCreate(db: Db, data: ProjectFormData, id: ProjectId, now: int): Db {
    Db(db.projects[id := Project(data, now, now)], AddUsageAll(db.technologies, data.technologies, 1))
  }

  /** The technologies of `oldTechs` that `newTechs` no longer lists. */
  function RemovedTechnologies(oldTechs: seq<TechId>, newTechs: seq<TechId>): seq<TechId> {
    Difference(oldTechs, newTechs)
  }

  /** The technologies of `newTechs` that `oldTechs` did not list. */
  function AddedTechnologies(oldTechs: seq<TechId>, newTechs: seq<TechId>): seq<TechId> {
    Difference(newTechs, oldTechs)
  }

  /** The diff-based reconciliation of an update: decrement the removed, then
      increment the added. */
  function Reconcile(docs: Catalog, oldTechs: seq<TechId>, newTechs: seq<TechId>): Catalog {
    AddUsageAll(AddUsageAll(docs, RemovedTechnologies(oldTechs, newTechs), -1),
                AddedTechnologies(oldTechs, newTechs), 1)
  }

  /** `sanitizedData`: a missing `githubUrl` or `liveUrl` becomes the empty string. */
  function SanitizeUrls(p: ProjectPatch): ProjectPatch {
    p.(githubUrl := Some(p.githubUrl.GetOr("")), liveUrl := Some(p.liveUrl.GetOr("")))
  }

  /** `updateProject(id, patch)` at time `now`. The store refuses to update a
      document that does not exist, so then nothing changes (and the call fails).
      Otherwise the sanitized data is merged into the document, and the counts
      are reconciled only when the update carries a technologies list. */
  function AfterUpdate(db: Db, id: ProjectId, patch: ProjectPatch, now: int): Db {
    if id !in db.projects then db
    else
      var prev := db.projects[id];
      var written := Project(ApplyPatch(prev.data, SanitizeUrls(patch)), prev.createdAt, now);
      var docs := if patch.technologies.Some? then Reconcile(db.technologies, prev.data.technologies, patch.technologies.value)
                  else db.technologies;
      Db(db.projects[id := written], docs)
  }

  /** `deleteProject(id)`: the document is read, deleted, and each technology it
      listed is decremented. Deleting a missing document changes nothing. */
  function AfterDelete(db: Db, id: ProjectId): Db {
    if id !in db.projects then db
    else Db(db.projects - {id}, AddUsageAll(db.technologies, db.projects[id].data.technologies, -1))
  }

  // ---------------------------------------------------------------------------
  // Per-technology effects

  /** Creating a project adds one to a technology's count per occurrence in its
      list; an empty list, or a technology it does not list, keeps its count. */
  lemma CreateCounts(db: Db, data: ProjectFormData, id: ProjectId, now: int, t: TechId)
    ensures UsageOf(AfterCreate(db, data, id, now).technologies, t)
            == UsageOf(db.technologies, t) + Count(data.technologies, t)
  {
    AddUsageAllUsage(db.technologies, data.technologies, 1, t);
  }

  /** The update diff: a technology the new list dropped loses what the old list
      held of it, one the new list introduced gains what the new list holds of it,
      and one that both lists or neither list name is not written at all. */
  lemma UpdateCounts(db: Db, id: ProjectId, patch: ProjectPatch, now: int, t: TechId)
    requires id in db.projects && patch.technologies.Some?
    ensures var o := db.projects[id].data.technologies;
      var n := patch.technologies.value;
      var after := AfterUpdate(db, id, patch, now).technologies;
      && UsageOf(after, t) == UsageOf(db.technologies, t)
           - (if t in n then 0 else Count(o, t)) + (if t in o then 0 else Count(n, t))
      && ((t in o <==> t in n) ==>
            (t in after <==> t in db.technologies) && (t in after ==> after[t] == db.technologies[t]))
  {
    var o := db.projects[id].data.technologies;
    var n := patch.technologies.value;
    var removed := RemovedTechnologies(o, n);
    var added := AddedTechnologies(o, n);
    var mid := AddUsageAll(db.technologies, removed, -1);
    AddUsageAllUsage(db.technologies, removed, -1, t);
    AddUsageAllUsage(mid, added, 1, t);
    if t in o <==> t in n {
      assert t !in removed && t !in added;
      AddUsageAllKeys(db.technologies, removed, -1);
      AddUsageAllKeys(mid, added, 1);
      var after := AddUsageAll(mid, added, 1);
      if t in after {
        AddUsageAllDoc(db.technologies, removed, -1, t);
        AddUsageAllDoc(mid, added, 1, t);
      }
    }
  }

  /** Two concrete cases of the diff: an unchanged list writes nothing, and for
      old `[a, b, c]` and new `[b, c, d]` only `a` is removed and only `d` added. */
  lemma UpdateDiffExamples(ts: seq<TechId>)
    ensures RemovedTechnologies(ts, ts) == [] && AddedTechnologies(ts, ts) == []
    ensures RemovedTechnologies(["a", "b", "c"], ["b", "c", "d"]) == ["a"]
    ensures AddedTechnologies(["a", "b", "c"], ["b", "c", "d"]) == ["d"]
  {
    var o: seq<TechId> := ["a", "b", "c"];
    var n: seq<TechId> := ["b", "c", "d"];
    assert o[0] !in n && o[1..] == n[..2];
    assert Difference(n[..2], n) == [];
    assert n[2] !in o && n[..2] == o[1..] && n[3..] == [];
    assert Difference(n[2..], o) == [n[2]] + Difference(n[3..], o);
  }

  /** Without a technologies list, or for a missing project, an update leaves
      every count as it was. */
  lemma UpdateWithoutReconciliation(db: Db, id: ProjectId, patch: ProjectPatch, now: int)
    requires patch.technologies.None? || id !in db.projects
    ensures AfterUpdate(db, id, patch, now).technologies == db.technologies
  {
  }

  /** The document an update writes: every carried field as given, except that a
      missing `githubUrl`/`liveUrl` is stored as the empty string; every field the
      update does not carry keeps its stored value. The creation time survives,
      `updatedAt` is `now`, and no other project document is touched. */
  lemma UpdateWritesSanitizedData(db: Db, id: ProjectId, patch: ProjectPatch, now: int)
    requires id in db.projects
    ensures var prev := db.projects[id];
      var p := AfterUpdate(db, id, patch, now).projects[id];
      && p.data.githubUrl == Some(patch.githubUrl.GetOr(""))
      && p.data.liveUrl == Some(patch.liveUrl.GetOr(""))
      && p.data.title == Override(patch.title, prev.data.title)
      && p.data.slug == Override(patch.slug, prev.data.slug)
      && p.data.description == Override(patch.description, prev.data.description)
      && p.data.category == Override(patch.category, prev.data.category)
      && p.data.status == Override(patch.status, prev.data.status)
      && p.data.technologies == Override(patch.technologies, prev.data.technologies)
      && p.data.featured == Override(patch.featured, prev.data.featured)
      && p.data.order == Override(patch.order, prev.data.order)
      && p.data.longDescription == OverrideOptional(patch.longDescription, prev.data.longDescription)
      && p.data.thumbnailUrl == OverrideOptional(patch.thumbnailUrl, prev.data.thumbnailUrl)
      && p.data.images == OverrideOptional(patch.images, prev.data.images)
      && p.data.metaTitle == OverrideOptional(patch.metaTitle, prev.data.metaTitle)
      && p.data.metaDescription == OverrideOptional(patch.metaDescription, prev.data.metaDescription)
      && p.createdAt == prev.createdAt && p.updatedAt == now
    ensures forall other :: other in db.projects && other != id ==>
      other in AfterUpdate(db, id, patch, now).projects
      && AfterUpdate(db, id, patch, now).projects[other] == db.projects[other]
    ensures AfterUpdate(db, id, patch, now).projects.Keys == db.projects.Keys
  {
  }

  /** Deleting a project subtracts one per occurrence in the list it had before
      deletion; deleting a missing project changes nothing. */
  lemma DeleteCounts(db: Db, id: ProjectId, t: TechId)
    ensures id !in db.projects ==> AfterDelete(db, id) == db
    ensures id in db.projects ==>
      && id !in AfterDelete(db, id).projects
      && UsageOf(AfterDelete(db, id).technologies, t)
           == UsageOf(db.technologies, t) - Count(db.projects[id].data.technologies, t)
  {
    if id in db.projects {
      AddUsageAllUsage(db.technologies, db.projects[id].data.technologies, -1, t);
    }
  }

  // ---------------------------------------------------------------------------
  // The invariant is preserved

  lemma ProjectsUsingWithout(projects: Projects, id: ProjectId, t: TechId)
    ensures ProjectsUsing(projects - {id}, t) == ProjectsUsing(projects, t) - {id}
    ensures |ProjectsUsing(projects - {id}, t)|
            == |ProjectsUsing(projects, t)| - (if id in projects && t in projects[id].data.technologies then 1 else 0)
  {
    var s := ProjectsUsing(projects, t);
    if id in s {
      assert |s - {id}| == |s| - 1;
    } else {
      assert s - {id} == s;
    }
  }

  lemma ProjectsUsingWith(projects: Projects, id: ProjectId, p: Project, t: TechId)
    ensures |ProjectsUsing(projects[id := p], t)|
            == |ProjectsUsing(projects - {id}, t)| + (if t in p.data.technologies then 1 else 0)
  {
    var rest := ProjectsUsing(projects - {id}, t);
    if t in p.data.technologies {
      assert ProjectsUsing(projects[id := p], t) == rest + {id};
      assert id !in rest;
    } else {
      assert ProjectsUsing(projects[id := p], t) == rest;
    }
  }

  /** For duplicate-free lists, creating a project keeps every count equal to
      the number of projects listing that technology. */
  lemma {:induction false} CreatePreservesReconciled(db: Db, data: ProjectFormData, id: ProjectId, now: int)
    requires Reconciled(db) && id !in db.projects && NoDuplicates(data.technologies)
    ensures Reconciled(AfterCreate(db, data, id, now))
  {
    var after := AfterCreate(db, data, id, now);
    forall t ensures UsageOf(after.technologies, t) == |ProjectsUsing(after.projects, t)| {
      CreateCounts(db, data, id, now, t);
      CountNoDuplicates(data.technologies, t);
      ProjectsUsingWith(db.projects, id, Project(data, now, now), t);
      ProjectsUsingWithout(db.projects, id, t);
    }
  }

  /** For duplicate-free lists, an update keeps the counts equal to the number of
      projects listing each technology. */
  lemma {:induction false} UpdatePreservesReconciled(db: Db, id: ProjectId, patch: ProjectPatch, now: int)
    requires Reconciled(db)
    requires patch.technologies.Some? ==> NoDuplicates(patch.technologies.value)
    ensures Reconciled(AfterUpdate(db, id, patch, now))
  {
    if id in db.projects {
      var after := AfterUpdate(db, id, patch, now);
      var o := db.projects[id].data.technologies;
      var p := after.projects[id];
      forall t ensures UsageOf(after.technologies, t) == |ProjectsUsing(after.projects, t)| {
        ProjectsUsingWith(db.projects, id, p, t);
        ProjectsUsingWithout(db.projects, id, t);
        if patch.technologies.Some? {
          var n := patch.technologies.value;
          UpdateCounts(db, id, patch, now, t);
          CountNoDuplicates(o, t);
          CountNoDuplicates(n, t);
        }
      }
    }
  }

  /** For duplicate-free lists, deleting a project keeps the counts equal to the
      number of projects listing each technology. */
  lemma {:induction false} DeletePreservesReconciled(db: Db, id: ProjectId)
    requires Reconciled(db)
    ensures Reconciled(AfterDelete(db, id))
  {
    if id in db.projects {
      var after := AfterDelete(db, id);
      forall t ensures UsageOf(after.technologies, t) == |ProjectsUsing(after.projects, t)| {
        DeleteCounts(db, id, t);
        CountNoDuplicates(db.projects[id].data.technologies, t);
        ProjectsUsingWithout(db.projects, id, t);
      }
    }
  }

  // ---------------------------------------------------------------------------
  // The in-memory store

  /** The projects collection, beside the technology catalog it reconciles. */
  class ProjectService {
    var projects: Projects
    const catalog: TechnologyCatalog

    constructor (catalog: TechnologyCatalog, initial: Projects)
      ensures this.catalog == catalog && projects == initial
    {
      this.catalog := catalog;
      projects := initial;
    }

    function State(): Db
      reads this, catalog
    {
      Db(projects, catalog.docs)
    }

    /** `getProjectByIdAdmin(id)`: the document, or null when it does not exist. */
    method GetProjectByIdAdmin(id: ProjectId) returns (r: Option<Project>)
      ensures r.Some? <==> id in projects
      ensures r.Some? ==> r.value == projects[id]
    {
      r := if id in projects then Some(projects[id]) else None;
    }

    /** Applies `delta` to each listed technology, one write after the other. */
    method FanOut(ids: seq<TechId>, delta: int)
      requires delta == 1 || delta == -1
      modifies catalog
      ensures catalog.docs == AddUsageAll(old(catalog.docs), ids, delta)
    {
      for i := 0 to |ids|
        invariant catalog.docs == AddUsageAll(old(catalog.docs), ids[..i], delta)
      {
        assert ids[..i + 1][..i] == ids[..i];
        if delta == 1 {
          catalog.IncrementTechnologyUsage(ids[i], true);
        } else {
          catalog.DecrementTechnologyUsage(ids[i], true);
        }
      }
      assert ids[..|ids|] == ids;
    }

    /** `createProject(data)`; `newId` is the id the store generates for the new
        document and `now` the server time. `stored` says whether `addDoc` succeeds:
        when it is rejected nothing is written and the call fails. */
    method CreateProject(data: ProjectFormData, newId: ProjectId, now: int, stored: bool)
      returns (r: Result<ProjectId, string>)
      requires newId !in projects
      modifies this, catalog
      ensures r == if stored then Success(newId) else Failure(CreateFailedMessage)
      ensures State() == if stored then AfterCreate(old(State()), data, newId, now) else old(State())
      ensures old(Reconciled(State())) && NoDuplicates(data.technologies) ==> Reconciled(State())
    {
      if !stored {
        return Failure(CreateFailedMessage);
      }
      projects := projects[newId := Project(data, now, now)];
      if |data.technologies| > 0 {
        FanOut(data.technologies, 1);
      }
      r := Success(newId);
      if old(Reconciled(State())) && NoDuplicates(data.technologies) {
        CreatePreservesReconciled(old(State()), data, newId, now);
      }
    }

    /** `updateProject(id, patch)` at server time `now`. `stored` says whether the
        store serves the read of the old document and accepts the write; the write
        is also rejected when the document does not exist. */
    method UpdateProject(id: ProjectId, patch: ProjectPatch, now: int, stored: bool) returns (r: Outcome<string>)
      modifies this, catalog
      ensures r == if stored && id in old(projects) then Pass else Fail(UpdateFailedMessage)
      ensures State() == if stored then AfterUpdate(old(State()), id, patch, now) else old(State())
      ensures old(Reconciled(State())) && (patch.technologies.Some? ==> NoDuplicates(patch.technologies.value))
              ==> Reconciled(State())
    {
      if !stored {
        return Fail(UpdateFailedMessage);
      }
      if Reconciled(State()) && (patch.technologies.Some? ==> NoDuplicates(patch.technologies.value)) {
        UpdatePreservesReconciled(State(), id, patch, now);
      }
      var oldProject := GetProjectByIdAdmin(id);
      var sanitized := SanitizeUrls(patch);
      if oldProject.None? {
        return Fail(UpdateFailedMessage);
      }
      var prev := oldProject.value;
      projects := projects[id := Project(ApplyPatch(prev.data, sanitized), prev.createdAt, now)];
      if patch.technologies.Some? {
        var oldTechs := prev.data.technologies;
        var newTechs := patch.technologies.value;
        FanOut(RemovedTechnologies(oldTechs, newTechs), -1);
        FanOut(AddedTechnologies(oldTechs, newTechs), 1);
      }
      r := Pass;
    }

    /** `deleteProject(id)`. `stored` says whether the store serves the read of the
        document and accepts `deleteDoc`; otherwise nothing changes and the call
        fails. Deleting a document that does not exist succeeds. */
    method DeleteProject(id: ProjectId, stored: bool) returns (r: Outcome<string>)
      modifies this, catalog
      ensures r == if stored then Pass else Fail(DeleteFailedMessage)
      ensures State() == if stored then AfterDelete(old(State()), id) else old(State())
      ensures old(Reconciled(State())) ==> Reconciled(State())
    {
      if !stored {
        return Fail(DeleteFailedMessage);
      }
      if Reconciled(State()) {
        DeletePreservesReconciled(State(), id);
      }
      var project := GetProjectByIdAdmin(id);
      projects := projects - {id};
      if project.Some? && |project.value.data.technologies| > 0 {
        FanOut(project.value.data.technologies, -1);
      }
      r := Pass;
    }
  }

  // ---------------------------------------------------------------------------
  // Slugs

  /** `generateSlug(title)`: lowercase, decompose, drop the combining marks, keep
      `[a-z0-9\s-]`, trim, turn whitespace runs into a hyphen, collapse hyphen runs.
      The result holds only `[a-z0-9-]`, so no whitespace at either end, and never
      two hyphens in a row. */
  function GenerateSlug(title: string): (r: string)
    ensures IsSlugText(r)
    ensures forall i :: 0 <= i < |r| ==> !IsWhitespace(r[i])
  {
    var kept := KeepSlugChars(RemoveMarks(Decompose(Lowercase(title))));
    var trimmed := Trim(kept);
    TrimChars(kept);
    var hyphenated := HyphenateWhitespace(trimmed);
    CollapseHyphens(hyphenated)
  }

  /** A slug character is not whitespace. */
  lemma SlugCharsAreNotWhitespace(s: string)
    requires forall i :: 0 <= i < |s| ==> IsSlugChar(s[i])
    ensures forall i :: 0 <= i < |s| ==> !IsWhitespace(s[i])
  {
  }

  /** Lowercasing leaves slug characters alone. */
  lemma LowercaseFixesSlugText(s: string)
    requires forall i :: 0 <= i < |s| ==> IsSlugChar(s[i])
    ensures Lowercase(s) == s
  {
    forall i | 0 <= i < |s| ensures Lowercase(s)[i] == s[i] {
      assert IsSlugChar(s[i]);
    }
  }

  /** Decomposing leaves slug characters alone. */
  lemma DecomposeFixesSlugText(s: string)
    requires forall i :: 0 <= i < |s| ==> IsSlugChar(s[i])
    ensures Decompose(s) == s
  {
    forall i | 0 <= i < |s| ensures s[i] as int < 0x80 {
      SlugCharIsAscii(s[i]);
    }
  }

  lemma SlugCharIsAscii(c: char)
    requires IsSlugChar(c)
    ensures c as int < 0x80
  {
  }

  /** Removing marks leaves slug characters alone. */
  lemma RemoveMarksFixesSlugText(s: string)
    requires forall i :: 0 <= i < |s| ==> IsSlugChar(s[i])
    ensures RemoveMarks(s) == s
  {
    assert forall i :: 0 <= i < |s| ==> !IsCombiningMark(s[i]);
  }

  /** Filtering leaves slug characters alone. */
  lemma KeepFixesSlugText(s: string)
    requires forall i :: 0 <= i < |s| ==> IsSlugChar(s[i])
    ensures KeepSlugChars(s) == s
  {
    assert forall i :: 0 <= i < |s| ==> IsKeptChar(s[i]);
  }

  /** Trimming and hyphenating leave a string without whitespace alone. */
  lemma WhitespaceStepsFixSlugText(s: string)
    requires forall i :: 0 <= i < |s| ==> !IsWhitespace(s[i])
    ensures Trim(s) == s && HyphenateWhitespace(s) == s
  {
    assert TrimStart(s) == s;
    assert TrimEnd(s) == s;
  }

  /** A derived slug is left as it is by a second derivation. */
  lemma SlugTextIsFixed(s: string)
    requires IsSlugText(s)
    ensures GenerateSlug(s) == s
  {
    LowercaseFixesSlugText(s);
    DecomposeFixesSlugText(s);
    RemoveMarksFixesSlugText(s);
    KeepFixesSlugText(s);
    SlugCharsAreNotWhitespace(s);
    WhitespaceStepsFixSlugText(s);
  }

  /** `generateSlug` is idempotent. */
  lemma GenerateSlugIdempotent(title: string)
    ensures GenerateSlug(GenerateSlug(title)) == GenerateSlug(title)
  {
    SlugTextIsFixed(GenerateSlug(title));
  }

  /** A derived slug of 3 to 100 characters passes the project form's slug rule. */
  lemma GeneratedSlugIsValid(title: string)
    requires 3 <= |GenerateSlug(title)| <= 100
    ensures Validators.IsProjectSlug(GenerateSlug(title))
  {
    Validators.SlugLength(GenerateSlug(title));
  }

  /** `generateTechnologySlug` computes the same slug as `generateSlug`. */
  lemma TechnologySlugIsProjectSlug(name: string)
    ensures GenerateTechnologySlug(name) == GenerateSlug(name)
  {
  }

  /** A derived technology slug of 2 to 50 characters passes the technology slug rule. */
  lemma GeneratedTechnologySlugIsValid(name: string)
    requires 2 <= |GenerateTechnologySlug(name)| <= 50
    ensures Validators.IsTechnologySlug(GenerateTechnologySlug(name))
  {
    Validators.SlugLength(GenerateTechnologySlug(name));
  }
}
