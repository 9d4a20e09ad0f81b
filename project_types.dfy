/** The project records of `src/lib/firebase/types.ts`: the form data a project is
    created from, the partial data an update carries, and the stored document. */
module ProjectTypes {
  import opened Wrappers

  /** A project document's identifier, assigned by the store. */
  type ProjectId = string
  /** An entry of a project's `technologies` list, which names a technology document. */
  type TechId = string

  datatype Category = Web | Mobile | Desktop | Api | Library | OtherCategory
  datatype Status = Draft | Published | Archived

  /** `ProjectFormData`: absent optional fields are `None`. */
  datatype ProjectFormData = ProjectFormData(
    title: string,
    slug: string,
    description: string,
    longDescription: Option<string>,
    category: Category,
    status: Status,
    technologies: seq<TechId>,
    githubUrl: Option<string>,
    liveUrl: Option<string>,
    thumbnailUrl: Option<string>,
    images: Option<seq<string>>,
    featured: bool,
    order: int,
    metaTitle: Option<string>,
    metaDescription: Option<string>)

  /** `Partial<ProjectFormData>`: `None` is a field the update does not carry. */
  datatype ProjectPatch = ProjectPatch(
    title: Option<string>,
    slug: Option<string>,
    description: Option<string>,
    longDescription: Option<string>,
    category: Option<Category>,
    status: Option<Status>,
    technologies: Option<seq<TechId>>,
    githubUrl: Option<string>,
    liveUrl: Option<string>,
    thumbnailUrl: Option<string>,
    images: Option<seq<string>>,
    featured: Option<bool>,
    order: Option<int>,
    metaTitle: Option<string>,
    metaDescription: Option<string>)

  /** A stored project document (the `Project` interface without its `id`, which is
      the document's key): the written data and the two server timestamps. */
  datatype Project = Project(data: ProjectFormData, createdAt: int, updatedAt: int)

  /** A full form submission seen as an update: every field it holds is carried. */
  function AsPatch(d: ProjectFormData): (p: ProjectPatch)
    ensures p.technologies == Some(d.technologies)
    ensures p.githubUrl == d.githubUrl && p.liveUrl == d.liveUrl
  {
    ProjectPatch(
      Some(d.title), Some(d.slug), Some(d.description), d.longDescription,
      Some(d.category), Some(d.status), Some(d.technologies),
      d.githubUrl, d.liveUrl, d.thumbnailUrl, d.images,
      Some(d.featured), Some(d.order), d.metaTitle, d.metaDescription)
  }

  /** A carried field replaces the stored one; an absent field keeps it. */
  function Override<T>(carried: Option<T>, stored: T): T {
    if carried.Some? then carried.value else stored
  }

  function OverrideOptional<T>(carried: Option<T>, stored: Option<T>): Option<T> {
    if carried.Some? then carried else stored
  }

  /** The document fields after `updateDoc(ref, patch)`: a field-wise merge. */
  function ApplyPatch(d: ProjectFormData, p: ProjectPatch): (r: ProjectFormData)
    // required fields: a carried value is stored, an absent one keeps the stored value
    ensures r.title == (if p.title.Some? then p.title.value else d.title)
    ensures r.slug == (if p.slug.Some? then p.slug.value else d.slug)
    ensures r.description == (if p.description.Some? then p.description.value else d.description)
    ensures r.category == (if p.category.Some? then p.category.value else d.category)
    ensures r.status == (if p.status.Some? then p.status.value else d.status)
    ensures r.technologies == (if p.technologies.Some? then p.technologies.value else d.technologies)
    ensures r.featured == (if p.featured.Some? then p.featured.value else d.featured)
    ensures r.order == (if p.order.Some? then p.order.value else d.order)
    // optional fields: carried replaces, absent keeps; an update never removes a field
    ensures r.longDescription == (if p.longDescription.Some? then p.longDescription else d.longDescription)
    ensures r.githubUrl == (if p.githubUrl.Some? then p.githubUrl else d.githubUrl)
    ensures r.liveUrl == (if p.liveUrl.Some? then p.liveUrl else d.liveUrl)
    ensures r.thumbnailUrl == (if p.thumbnailUrl.Some? then p.thumbnailUrl else d.thumbnailUrl)
    ensures r.images == (if p.images.Some? then p.images else d.images)
    ensures r.metaTitle == (if p.metaTitle.Some? then p.metaTitle else d.metaTitle)
    ensures r.metaDescription == (if p.metaDescription.Some? then p.metaDescription else d.metaDescription)
    ensures d.longDescription.Some? ==> r.longDescription.Some?
    ensures d.images.Some? ==> r.images.Some?
  {
    ProjectFormData(
      Override(p.title, d.title),
      Override(p.slug, d.slug),
      Override(p.description, d.description),
      OverrideOptional(p.longDescription, d.longDescription),
      Override(p.category, d.category),
      Override(p.status, d.status),
      Override(p.technologies, d.technologies),
      OverrideOptional(p.githubUrl, d.githubUrl),
      OverrideOptional(p.liveUrl, d.liveUrl),
      OverrideOptional(p.thumbnailUrl, d.thumbnailUrl),
      OverrideOptional(p.images, d.images),
      Override(p.featured, d.featured),
      Override(p.order, d.order),
      OverrideOptional(p.metaTitle, d.metaTitle),
      OverrideOptional(p.metaDescription, d.metaDescription))
  }
}
