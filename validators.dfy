/** `src/lib/firebase/validators.ts`: the zod schemas, as predicates over the JSON
    value a schema is asked to parse. A zod object schema checks the keys it lists
    and ignores the others. URL and e-mail syntax (zod's `.url()` and `.email()`)
    are parameters: `isUrl` and `isEmail`. */
module Validators {
  import opened Json
  import opened Strings
  import opened SlugRules
  import opened ProjectTypes

  /** The three locale keys every multilingual text carries. */
  const LocaleKeys: set<string> := {"en-US", "pt-BR", "es-ES"}

  /** `z.string().min(lo).max(hi)`, with JavaScript's UTF-16 length. */
  predicate IsStringWithin(v: Value, lo: nat, hi: nat) {
    v.Str? && lo <= Utf16Length(v.s) <= hi
  }

  /** `multilingualTextSchema`: an object whose three locale keys hold non-empty strings. */
  predicate IsMultilingualText(v: Value) {
    v.Obj? && forall k :: k in LocaleKeys ==> k in v.fields && v.fields[k].Str? && |v.fields[k].s| >= 1
  }

  /** The object `{"en-US": en, "pt-BR": pt, "es-ES": es}`. */
  function MultilingualValue(en: string, pt: string, es: string): Value {
    Obj(map["en-US" := Str(en), "pt-BR" := Str(pt), "es-ES" := Str(es)])
  }

  /** A text of three strings is valid exactly when none of them is empty. */
  lemma MultilingualValueValid(en: string, pt: string, es: string)
    ensures IsMultilingualText(MultilingualValue(en, pt, es)) <==> en != "" && pt != "" && es != ""
  {
    var v := MultilingualValue(en, pt, es);
    if IsMultilingualText(v) {
      assert "en-US" in LocaleKeys && "pt-BR" in LocaleKeys && "es-ES" in LocaleKeys;
    }
  }

  /** The names `projectCategorySchema` admits, one per `Category`. */
  function CategoryName(c: Category): string {
    match c
    case Web => "web"
    case Mobile => "mobile"
    case Desktop => "desktop"
    case Api => "api"
    case Library => "library"
    case OtherCategory => "other"
  }

  /** The names `projectStatusSchema` admits, one per `Status`. */
  function StatusName(s: Status): string {
    match s
    case Draft => "draft"
    case Published => "published"
    case Archived => "archived"
  }

  /** `projectCategorySchema`. */
  predicate IsCategory(v: Value) {
    v.Str? && v.s in {"web", "mobile", "desktop", "api", "library", "other"}
  }

  /** `projectStatusSchema`. */
  predicate IsStatus(v: Value) {
    v.Str? && v.s in {"draft", "published", "archived"}
  }

  /** The category enumeration is exactly the names of `Category`, and so is the
      status enumeration for `Status`. */
  lemma EnumerationsMatchTypes(v: Value)
    ensures IsCategory(v) <==> exists c: Category :: v == Str(CategoryName(c))
    ensures IsStatus(v) <==> exists s: Status :: v == Str(StatusName(s))
  {
    if IsCategory(v) {
      var c := if v.s == "web" then Web else if v.s == "mobile" then Mobile
               else if v.s == "desktop" then Desktop else if v.s == "api" then Api
               else if v.s == "library" then Library else OtherCategory;
      assert v == Str(CategoryName(c));
    }
    if IsStatus(v) {
      var s := if v.s == "draft" then Draft else if v.s == "published" then Published else Archived;
      assert v == Str(StatusName(s));
    }
  }

  /** The project slug rule: `min(3)`, `max(100)` and `/^[a-z0-9-]+$/`. */
  predicate IsProjectSlug(s: string) {
    3 <= Utf16Length(s) <= 100 && forall i :: 0 <= i < |s| ==> IsSlugChar(s[i])
  }

  /** The technology slug rule: `min(2)`, `max(50)` and `/^[a-z0-9-]+$/`. */
  predicate IsTechnologySlug(s: string) {
    2 <= Utf16Length(s) <= 50 && forall i :: 0 <= i < |s| ==> IsSlugChar(s[i])
  }

  /** A slug rule's length bounds are plain character counts, since every slug
      character is ASCII. */
  lemma SlugLength(s: string)
    requires forall i :: 0 <= i < |s| ==> IsSlugChar(s[i])
    ensures Utf16Length(s) == |s|
  {
    Utf16LengthOfBmp(s);
  }

  /** The project slug rule holds exactly for 3 to 100 characters of `[a-z0-9-]`. */
  lemma ProjectSlugRule(s: string)
    ensures IsProjectSlug(s) <==> 3 <= |s| <= 100 && forall i :: 0 <= i < |s| ==> IsSlugChar(s[i])
  {
    if forall i :: 0 <= i < |s| ==> IsSlugChar(s[i]) {
      SlugLength(s);
    }
  }

  /** `z.string().url().optional().or(z.literal(""))`. */
  predicate IsOptionalUrl(fields: map<string, Value>, key: string, isUrl: string -> bool) {
    key !in fields || (fields[key].Str? && (fields[key].s == "" || isUrl(fields[key].s)))
  }

  /** `z.number().int().min(0)`. */
  predicate IsNonNegativeInteger(v: Value) {
    v.Num? && v.n.Floor as real == v.n && v.n >= 0.0
  }

  predicate AllStrings(items: seq<Value>) {
    forall i :: 0 <= i < |items| ==> items[i].Str?
  }

  predicate AllUrls(items: seq<Value>, isUrl: string -> bool) {
    forall i :: 0 <= i < |items| ==> items[i].Str? && isUrl(items[i].s)
  }

  /** `projectFormSchema`. */
  predicate IsProjectForm(v: Value, isUrl: string -> bool) {
    && v.Obj?
    && var f := v.fields;
    && "title" in f && IsMultilingualText(f["title"])
    && "slug" in f && f["slug"].Str? && IsProjectSlug(f["slug"].s)
    && "shortDescription" in f && IsMultilingualText(f["shortDescription"])
    && "longDescription" in f && IsMultilingualText(f["longDescription"])
    && "category" in f && IsCategory(f["category"])
    && "status" in f && IsStatus(f["status"])
    && "technologies" in f && f["technologies"].Arr? && |f["technologies"].items| >= 1
    && AllStrings(f["technologies"].items)
    && IsOptionalUrl(f, "githubUrl", isUrl)
    && IsOptionalUrl(f, "liveUrl", isUrl)
    && ("hasSourceCode" !in f || f["hasSourceCode"].Bool?)
    && IsOptionalUrl(f, "thumbnailUrl", isUrl)
    && ("images" !in f || (f["images"].Arr? && AllUrls(f["images"].items, isUrl)))
    && ("featured" !in f || f["featured"].Bool?)
    && ("order" !in f || IsNonNegativeInteger(f["order"]))
    && ("metaTitle" !in f || IsMultilingualText(f["metaTitle"]))
    && ("metaDescription" !in f || IsMultilingualText(f["metaDescription"]))
  }

  /** The fields `projectFormSchema` fills in with `.default(...)` when absent. */
  datatype ProjectFormDefaults = ProjectFormDefaults(hasSourceCode: bool, featured: bool, order: int)

  /** The values of `hasSourceCode`, `featured` and `order` after parsing a valid
      project form: the given ones, or true, false and 0. */
  function ParsedDefaults(v: Value, isUrl: string -> bool): (d: ProjectFormDefaults)
    requires IsProjectForm(v, isUrl)
    ensures "hasSourceCode" !in v.fields ==> d.hasSourceCode
    ensures "featured" !in v.fields ==> !d.featured
    ensures "order" !in v.fields ==> d.order == 0
    ensures d.order >= 0
  {
    var f := v.fields;
    ProjectFormDefaults(
      if "hasSourceCode" in f then f["hasSourceCode"].b else true,
      if "featured" in f then f["featured"].b else false,
      if "order" in f then f["order"].n.Floor else 0)
  }

  /** A project form with no technologies is rejected, whatever else it holds. */
  lemma EmptyTechnologiesRejected(v: Value, isUrl: string -> bool)
    requires v.Obj? && "technologies" in v.fields && v.fields["technologies"] == Arr([])
    ensures !IsProjectForm(v, isUrl)
  {
  }

  /** `technologyFormSchema`. */
  predicate IsTechnologyForm(v: Value) {
    && v.Obj?
    && var f := v.fields;
    && "name" in f && IsStringWithin(f["name"], 2, 50)
    && "slug" in f && f["slug"].Str? && IsTechnologySlug(f["slug"].s)
    && ("category" !in f || f["category"].Str?)
    && ("icon" !in f || f["icon"].Str?)
  }

  /** A technology with just a name and a slug is valid exactly when the name has 2
      to 50 UTF-16 units and the slug 2 to 50 characters of `[a-z0-9-]`. */
  lemma TechnologyFormRule(name: string, slug: string)
    ensures IsTechnologyForm(Obj(map["name" := Str(name), "slug" := Str(slug)]))
        <==> 2 <= Utf16Length(name) <= 50 && 2 <= |slug| <= 50 && forall i :: 0 <= i < |slug| ==> IsSlugChar(slug[i])
  {
    if forall i :: 0 <= i < |slug| ==> IsSlugChar(slug[i]) {
      SlugLength(slug);
    }
  }

  /** One entry of `customLinks`. */
  predicate IsCustomLink(v: Value, isUrl: string -> bool) {
    && v.Obj?
    && "url" in v.fields && v.fields["url"].Str? && isUrl(v.fields["url"].s)
    && "label" in v.fields && IsMultilingualText(v.fields["label"])
  }

  /** `portfolioSettingsSchema`. */
  predicate IsPortfolioSettings(v: Value, isUrl: string -> bool, isEmail: string -> bool) {
    && v.Obj?
    && var f := v.fields;
    && "name" in f && f["name"].Str? && Utf16Length(f["name"].s) >= 2
    && IsOptionalUrl(f, "photo", isUrl)
    && "bio" in f && IsMultilingualText(f["bio"])
    && "role" in f && IsMultilingualText(f["role"])
    && "email" in f && f["email"].Str? && isEmail(f["email"].s)
    && "github" in f && f["github"].Str? && isUrl(f["github"].s)
    && "linkedin" in f && f["linkedin"].Str? && isUrl(f["linkedin"].s)
    && ("customLinks" !in f || (f["customLinks"].Arr?
         && forall i :: 0 <= i < |f["customLinks"].items| ==> IsCustomLink(f["customLinks"].items[i], isUrl)))
    && ("metaTitle" !in f || IsMultilingualText(f["metaTitle"]))
    && ("metaDescription" !in f || IsMultilingualText(f["metaDescription"]))
  }
}
