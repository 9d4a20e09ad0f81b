# Portfolio admin core, modelled in Dafny

This project models the administrative core of a portfolio site that keeps its data
in a document store (Firestore). It covers:

- **Projects and technologies.** A project lists the technology ids it uses. Every
  technology document keeps a `usageCount`. `createProject`, `updateProject` and
  `deleteProject` keep that count in step by incrementing and decrementing it. An
  update increments or decrements only the technologies its list added or
  dropped. The count is written as an upsert (`setDoc(…, {usageCount:
  increment(±1)}, {merge: true})`).
- **Slug derivation.** `generateSlug` and `generateTechnologySlug` lowercase the
  title, decompose it, strip the accents, keep only `[a-z0-9\s-]`, trim it,
  hyphenate it and collapse runs of hyphens.
- **The zod schemas** for projects, technologies and portfolio settings.
- **The settings service**: one document, written by merging, and seeded with
  defaults when it is absent.
- **The two admin forms**:
  - the project editor: slug follows the title, technology and image lists,
    submission;
  - the settings editor: load, per-locale edits, the checks on submit.
- **The client i18n provider**: the locale chosen from the cookie, then the
  stored value, then the browser language; saving the locale; the dotted-key
  lookup `t`; per-locale texts with English fallback.
- **The administrator check and the Google sign-in rule.**

The code that changes state becomes classes:

- `TechnologyCatalog` and `ProjectService` for the two collections;
- `SettingsService` for the settings document;
- `ProjectForm` and `SettingsForm` for the forms' state;
- `I18nProvider` for the provider with the browser's cookie jar and storage.

Every one of their methods is specified by a pure function of the old state, for
example `AfterCreate`, `AfterUpdate`, `AfterDelete`, `MergeWrite`, `Loaded` or
`BuildFormData`. The properties are proved about those functions.

The central property is the reconciliation invariant `AdminProjects.Reconciled`:
every technology's count equals the number of stored projects that list it. It
holds while no list holds an id twice. Creating, updating and deleting a project
each preserve it. The project form only ever builds duplicate-free lists.

Things outside the code become parameters:

- whether a store read or write succeeds;
- the id the store generates and the server time;
- the configured administrator address;
- the popup's and the sign-out's results;
- URL and e-mail syntax.

Files:

| file | models |
|---|---|
| `wrappers.dfy` | `Option`, `Result`, `Outcome` |
| `strings.dfy` | `trim`, whitespace, `toLowerCase`, `startsWith`, `split`/`join`, UTF-16 length |
| `lists.dfy` | occurrence counts, `filter` by value and by list |
| `json.dfy` | JSON values |
| `project_types.dfy` | `src/lib/firebase/types.ts` project records, the field-wise merge of `updateDoc` |
| `slug_rules.dfy` | the steps of the slug chain |
| `technologies.dfy` | `src/lib/firebase/services/technologies.ts` |
| `admin_projects.dfy` | `src/lib/firebase/services/admin-projects.ts` |
| `validators.dfy` | `src/lib/firebase/validators.ts` |
| `settings.dfy` | `src/lib/firebase/services/settings.ts` |
| `auth.dfy` | `src/lib/firebase/auth.ts` |
| `i18n_client.dfy` | `src/i18n/client.ts` |
| `project_form.dfy` | `src/components/admin/project-form.tsx` |
| `settings_form.dfy` | `src/components/admin/settings-form.tsx` |

Two behaviours of the code worth knowing:

- **Updating a project id that does not exist.** `updateDoc` rejects a missing
  document (admin-projects.ts:110-113), so `updateProject` throws "Falha ao
  atualizar projeto" (:129-132) and nothing changes.
- **A settings document without `bio` or `role`.** The settings route of the admin
  API stores its request body as given, and `mapDocToSettings` adds no defaults.
  The settings form then holds an undefined text and its submit handler throws
  at `Object.values` before any store call; the model reads such texts as `None`.

## Model

| member | source | states |
|---|---|---|
| Technologies.AddUsage | src/lib/firebase/services/technologies.ts:125-153 | the upsert adds `delta` to the count (absent counts as 0), creates an absent document holding only the count, keeps the document's other fields and every other document |
| Technologies.AddUsageAllKeys | src/lib/firebase/services/admin-projects.ts:81-85 | a fan-out writes exactly the documents its list names, creating the absent ones |
| Technologies.AddUsageAllUsage | src/lib/firebase/services/admin-projects.ts:81-85 | after a fan-out each count has changed by `delta` times the number of occurrences of its id in the list |
| Technologies.AddUsageAllDoc | src/lib/firebase/services/technologies.ts:128-134 | after a fan-out a document keeps its form fields and creation time; one it created holds only the count |
| Technologies.AddUsageAllOrderIrrelevant | src/lib/firebase/services/admin-projects.ts:82-84 | the writes of `Promise.all` commute: any order of the same entries gives the same catalog |
| Technologies.IncrementThenDecrement | src/lib/firebase/services/technologies.ts:125-153 | an increment followed by a decrement of the same id restores every count |
| Technologies.TechnologyCatalog.IncrementTechnologyUsage | src/lib/firebase/services/technologies.ts:125-138 | the count of `id` gains one if the write succeeds; a failure is swallowed; other counts are untouched |
| Technologies.TechnologyCatalog.DecrementTechnologyUsage | src/lib/firebase/services/technologies.ts:140-153 | the count of `id` loses one if the write succeeds, with no clamp at zero; a failure is swallowed; other counts are untouched |
| Technologies.TechnologyCatalog.CreateTechnology | src/lib/firebase/services/technologies.ts:85-100 | on success the new document holds the form data, count 0 and the creation time, under the generated id; a rejected `addDoc` fails with "Falha ao criar tecnologia" and writes nothing; no count changes either way |
| Technologies.TechnologyCatalog.GetTechnologyById | src/lib/firebase/services/technologies.ts:67-83 | the document exactly when it exists, else null |
| Technologies.MostUsed | src/lib/firebase/services/technologies.ts:60 | `slice(0, limit)`: a prefix of the query result, of length `min(limit, n)`, with JavaScript's rule for a negative end |
| Technologies.MostUsedIsTopRanked | src/lib/firebase/services/technologies.ts:46-65 | the most-used list has at most `limit` entries (ten by default), all with positive counts, stored in the catalog, ordered by count descending and then by name |
| Technologies.GenerateTechnologySlug | src/lib/firebase/services/technologies.ts:155-164 | the technology slug holds only `[a-z0-9-]` and never two hyphens in a row |
| ProjectTypes.ApplyPatch | src/lib/firebase/services/admin-projects.ts:109-113 | for each of the fifteen fields, `updateDoc` stores the carried value and keeps the stored one when the field is absent; an update never removes an optional field |
| Lists.Difference | src/lib/firebase/services/admin-projects.ts:119 | `filter(!others.includes)`: each value occurs as often as in the source list unless `others` holds it, then not at all; order is kept |
| Lists.Without | src/components/admin/project-form.tsx:73 | `filter((t) => t !== x)`: `x` is gone, every other value keeps its number of occurrences, order is kept |
| AdminProjects.CreateCounts | src/lib/firebase/services/admin-projects.ts:73-92 | creating a project adds to each technology's count its number of occurrences in the new list |
| AdminProjects.UpdateCounts | src/lib/firebase/services/admin-projects.ts:115-128 | the diff: a dropped technology loses its old occurrences, an introduced one gains its new ones, one named by both lists or neither is not written at all |
| AdminProjects.UpdateDiffExamples | src/lib/firebase/services/admin-projects.ts:119-127 | an unchanged list writes nothing; from `[a,b,c]` to `[b,c,d]` only `a` is dropped and only `d` added |
| AdminProjects.UpdateWithoutReconciliation | src/lib/firebase/services/admin-projects.ts:115 | without a technologies list, or for a missing project, no count changes |
| AdminProjects.UpdateWritesSanitizedData | src/lib/firebase/services/admin-projects.ts:101-113 | a missing `githubUrl`/`liveUrl` is stored as `""`; every other carried field is stored as given and every absent one keeps its value; creation time kept, `updatedAt` is the server time; other project documents untouched |
| AdminProjects.DeleteCounts | src/lib/firebase/services/admin-projects.ts:135-151 | deleting removes the document and subtracts each technology's occurrences in its list; deleting a missing id changes nothing |
| AdminProjects.CreatePreservesReconciled | src/lib/firebase/services/admin-projects.ts:73-92 | creating a project with a duplicate-free list keeps every count equal to the number of projects listing it |
| AdminProjects.UpdatePreservesReconciled | src/lib/firebase/services/admin-projects.ts:94-133 | an update with a duplicate-free list, or none, keeps every count equal to the number of projects listing it |
| AdminProjects.DeletePreservesReconciled | src/lib/firebase/services/admin-projects.ts:135-151 | deleting keeps every count equal to the number of projects listing it |
| AdminProjects.ProjectService.GetProjectByIdAdmin | src/lib/firebase/services/admin-projects.ts:153-186 | the stored project exactly when it exists, else null |
| AdminProjects.ProjectService.FanOut | src/lib/firebase/services/admin-projects.ts:81-85 | the loop of usage writes leaves the catalog as the fan-out of the whole list |
| AdminProjects.ProjectService.CreateProject | src/lib/firebase/services/admin-projects.ts:73-92 | on success returns the generated id and the new state is `AfterCreate`; a rejected `addDoc` fails with "Falha ao criar projeto" and nothing changes; the reconciliation invariant is kept |
| AdminProjects.ProjectService.UpdateProject | src/lib/firebase/services/admin-projects.ts:94-133 | fails with "Falha ao atualizar projeto" exactly when the store fails or the project is missing, and then nothing changes; otherwise the new state is `AfterUpdate`; the invariant is kept |
| AdminProjects.ProjectService.DeleteProject | src/lib/firebase/services/admin-projects.ts:135-151 | on success the new state is `AfterDelete` (a missing id changes nothing); a failed read or `deleteDoc` fails with "Falha ao deletar projeto" and nothing changes; the invariant is kept |
| AdminProjects.GenerateSlug | src/lib/firebase/services/admin-projects.ts:190-199 | the slug holds only `[a-z0-9-]`, no whitespace, and never two hyphens in a row |
| AdminProjects.SlugTextIsFixed | src/lib/firebase/services/admin-projects.ts:190-199 | a string of slug characters without `--` is its own slug |
| AdminProjects.GenerateSlugIdempotent | src/lib/firebase/services/admin-projects.ts:190-199 | deriving a slug from a slug gives it back |
| AdminProjects.GeneratedSlugIsValid | src/lib/firebase/validators.ts:15-19 | a derived slug of 3 to 100 characters passes the project slug rule |
| AdminProjects.TechnologySlugIsProjectSlug | src/lib/firebase/services/technologies.ts:155-164 | the technology slug is the project slug of the same text |
| AdminProjects.GeneratedTechnologySlugIsValid | src/lib/firebase/validators.ts:38-42 | a derived technology slug of 2 to 50 characters passes the technology slug rule |
| SlugRules.Decompose | src/lib/firebase/services/admin-projects.ts:193 | `normalize("NFD")` leaves ASCII text unchanged |
| SlugRules.RemoveMarks | src/lib/firebase/services/admin-projects.ts:194 | removing U+0300 to U+036F leaves a text without such marks unchanged |
| SlugRules.KeepSlugChars | src/lib/firebase/services/admin-projects.ts:195 | only `[a-z0-9\s-]` remain, and a text of those is unchanged |
| SlugRules.HyphenateWhitespace | src/lib/firebase/services/admin-projects.ts:197 | no whitespace remains, every character is a hyphen or comes from the input, and a text without whitespace is unchanged |
| SlugRules.CollapseHyphens | src/lib/firebase/services/admin-projects.ts:198 | no two hyphens in a row, the first character kept, characters from the input only, a text without `--` unchanged |
| Validators.MultilingualValueValid | src/lib/firebase/validators.ts:3-7 | a three-locale text passes exactly when none of the three strings is empty |
| Validators.EnumerationsMatchTypes | src/lib/firebase/validators.ts:9-11 | the category and status enumerations admit exactly the names of `Category` and `Status` |
| Validators.SlugLength | src/lib/firebase/validators.ts:17-19 | for slug characters the UTF-16 length bound is the character count |
| Validators.ProjectSlugRule | src/lib/firebase/validators.ts:15-19 | the project slug rule holds exactly for 3 to 100 characters of `[a-z0-9-]` |
| Validators.ParsedDefaults | src/lib/firebase/validators.ts:27-31 | an absent `hasSourceCode`, `featured` or `order` parses as true, false or 0; `order` is never negative |
| Validators.EmptyTechnologiesRejected | src/lib/firebase/validators.ts:24 | a project form with an empty technologies array is rejected |
| Validators.TechnologyFormRule | src/lib/firebase/validators.ts:36-45 | a name-and-slug technology passes exactly when the name has 2 to 50 UTF-16 units and the slug is 2 to 50 characters of `[a-z0-9-]` |
| Settings.MergeTexts | src/lib/firebase/services/settings.ts:49-57 | a merge write of a nested map keeps the stored keys it does not carry and takes the carried ones |
| Settings.MergeWrite | src/lib/firebase/services/settings.ts:45-62 | the supplied fields overwrite, `bio`/`role` merge per locale (into nothing when the document has none), an absent photo keeps the stored one, both timestamps are the write time |
| Settings.MergeWriteIdempotent | src/lib/firebase/services/settings.ts:45-62 | writing the same settings twice at the same time is writing them once |
| Settings.MergeWriteLastWins | src/lib/firebase/services/settings.ts:49-57 | a second write that supplies every field the first did makes the first invisible |
| Settings.CreatedAtIsLastWrite | src/lib/firebase/services/settings.ts:54 | an update overwrites the creation time |
| Settings.DefaultsAreComplete | src/lib/firebase/services/settings.ts:70-85 | the default `bio` and `role` have all three locales, none empty, and pass the multilingual schema |
| Settings.CompleteTextsValid | src/lib/firebase/validators.ts:3-7 | a text with all three locales non-empty passes the multilingual schema |
| Settings.InputPassesSchema | src/lib/firebase/validators.ts:47-65 | settings with a name of two or more characters, complete texts, an e-mail, URLs and an absent or URL photo pass the settings schema |
| Settings.DefaultsPassSchema | src/lib/firebase/services/settings.ts:70-85 | the defaults pass the settings schema, given that their addresses are an e-mail and URLs |
| Settings.ReadSettings | src/lib/firebase/services/settings.ts:28-41 | the document exactly when the read succeeds and it exists, else null |
| Settings.InitializeOnce | src/lib/firebase/services/settings.ts:64-91 | existing settings are kept; absent ones are seeded with complete texts; a second initialisation changes nothing |
| Settings.InitializeAfterFailedRead | src/lib/firebase/services/settings.ts:66-87 | after a failed read the defaults are merged over the stored document: name, e-mail, both links and the three locales of `bio` and `role` take the default values; the photo and any other locale keys survive; both timestamps are the write time |
| Settings.SettingsService.GetPortfolioSettings | src/lib/firebase/services/settings.ts:28-41 | returns `ReadSettings` of the stored document |
| Settings.SettingsService.UpdatePortfolioSettings | src/lib/firebase/services/settings.ts:45-62 | on success the document becomes `MergeWrite`; on failure it is unchanged and the error is "Falha ao atualizar configurações" |
| Settings.SettingsService.InitializeDefaultSettings | src/lib/firebase/services/settings.ts:64-91 | the document becomes `AfterInitialize`, with every failure swallowed |
| AdminSettingsForm.Submission | src/components/admin/settings-form.tsx:83-112 | accepted exactly when name and e-mail are non-empty, `bio` and `role` are defined and none of their values is blank; each refusal (an undefined text throws); the data sent, with an empty photo sent as none |
| AdminSettingsForm.WhitespaceNamePasses | src/components/admin/settings-form.tsx:87-90 | a name and e-mail of one space pass, since they are not trimmed |
| AdminSettingsForm.AcceptedTextsAreFilled | src/components/admin/settings-form.tsx:92-99 | after an accepted save every submitted locale is stored non-blank; a form with empty texts is refused |
| AdminSettingsForm.Loaded | src/components/admin/settings-form.tsx:48-68 | found settings replace the fields: name, photo, e-mail and both links, with a missing one as `""`; texts copied whole, a missing one staying undefined; no settings leave the form as it was |
| AdminSettingsForm.LoadedWithoutTextsRefused | src/components/admin/settings-form.tsx:59-60 | a stored document without `bio` or `role` loads as an undefined text, and the next submission with a name and an e-mail throws before any store call |
| AdminSettingsForm.LoadSaveRoundTrip | src/components/admin/settings-form.tsx:48-114 | any accepted form (an empty photo included) saved to an empty store and loaded back gives the same fields; saving again rewrites the same document at the new time |
| AdminSettingsForm.SettingsForm.constructor | src/components/admin/settings-form.tsx:26-42 | every field empty, each text with its three locales empty |
| AdminSettingsForm.SettingsForm.LoadSettings | src/components/admin/settings-form.tsx:48-68 | the fields become `Loaded` of what the read returned |
| AdminSettingsForm.SettingsForm.EditRole | src/components/admin/settings-form.tsx:225 | only the edited locale of `role` changes; an undefined `role` becomes that one locale |
| AdminSettingsForm.SettingsForm.EditBio | src/components/admin/settings-form.tsx:257 | only the edited locale of `bio` changes; an undefined `bio` becomes that one locale |
| AdminSettingsForm.SettingsForm.HandleSubmit | src/components/admin/settings-form.tsx:83-122 | a refused form returns its message with no store call; otherwise the store takes `MergeWrite`, or on failure "Erro ao salvar configurações" and no change |
| AdminProjectForm.InitialFields | src/components/admin/project-form.tsx:43-57 | each of the edited project's fields, with `""` or `[]` for a missing optional one; for a new project `""`, `[]`, web, draft, false and 0; both input boxes empty |
| AdminProjectForm.AddEntryEffect | src/components/admin/project-form.tsx:65-81 | the trimmed input is appended and the box cleared exactly when it is not blank and not listed; otherwise nothing changes |
| AdminProjectForm.AddEntryKeepsWellFormed | src/components/admin/project-form.tsx:65-81 | adding keeps a list duplicate-free with trimmed, non-empty entries |
| AdminProjectForm.RemoveEntryEffect | src/components/admin/project-form.tsx:72-85 | removing drops every copy of the value and keeps the rest, in order |
| AdminProjectForm.RemoveEntryKeepsWellFormed | src/components/admin/project-form.tsx:72-85 | removing keeps a list well formed |
| AdminProjectForm.RemoveUndoesAdd | src/components/admin/project-form.tsx:65-74 | removing the entry just added gives the list back |
| AdminProjectForm.TrimmedIfPresent | src/components/admin/project-form.tsx:111-114 | an optional text is sent exactly when not blank, and then trimmed |
| AdminProjectForm.BuildFormData | src/components/admin/project-form.tsx:87-115 | refused with "Campos obrigatórios" exactly when the trimmed title, slug or description is empty |
| AdminProjectForm.SubmittedRequiredFields | src/components/admin/project-form.tsx:100-109 | the sent title, slug and description are non-empty and trimmed; the technologies are the form's list |
| AdminProjectForm.SubmittedOptionalFields | src/components/admin/project-form.tsx:111-115 | optional texts are sent exactly when not blank, trimmed; images exactly when the list is non-empty |
| AdminProjectForm.BlankFieldsOnUpdate | src/components/admin/project-form.tsx:111-118 | saving an edit with blank long description and no images keeps the stored ones, while a blank GitHub link is stored as `""` |
| AdminProjectForm.SubmissionKeepsReconciled | src/components/admin/project-form.tsx:117-127 | a submission from a well-formed technology list keeps the reconciliation invariant, for a create and for an update |
| AdminProjectForm.ProjectForm.constructor | src/components/admin/project-form.tsx:43-57 | the fields start as `InitialFields` of the edited project |
| AdminProjectForm.ProjectForm.EditTitle | src/components/admin/project-form.tsx:59-63 | the title changes; while creating, a non-empty title sets the slug to `generateSlug(title)` |
| AdminProjectForm.ProjectForm.EditSlug | src/components/admin/project-form.tsx:156 | only the slug changes |
| AdminProjectForm.ProjectForm.EditTechInput | src/components/admin/project-form.tsx:256 | only the technology input changes |
| AdminProjectForm.ProjectForm.EditImageInput | src/components/admin/project-form.tsx:327 | only the image input changes |
| AdminProjectForm.ProjectForm.AddTechnology | src/components/admin/project-form.tsx:65-70 | list and input become `AddEntry` of the old ones; a well-formed list stays well formed |
| AdminProjectForm.ProjectForm.RemoveTechnology | src/components/admin/project-form.tsx:72-74 | the list becomes `Without(list, tech)`; well-formedness kept |
| AdminProjectForm.ProjectForm.AddImage | src/components/admin/project-form.tsx:76-81 | list and input become `AddEntry` of the old ones; well-formedness kept |
| AdminProjectForm.ProjectForm.RemoveImage | src/components/admin/project-form.tsx:83-85 | the list becomes `Without(list, image)`; well-formedness kept |
| AdminProjectForm.ProjectForm.Submit | src/components/admin/project-form.tsx:87-138 | a refused form makes no store call; an edit performs `AfterUpdate` and a new project `AfterCreate`; a failed store call returns the service's message ("Falha ao atualizar projeto" or "Falha ao criar projeto") and changes nothing |
| Auth.IsAdmin | src/lib/firebase/auth.ts:14-17 | admin only with an address and a configured administrator address |
| Auth.IsAdminCases | src/lib/firebase/auth.ts:14-17 | false without either address; otherwise true exactly when the lowercased addresses are equal |
| Auth.AdminIsAdmin | src/lib/firebase/auth.ts:14-17 | the configured address is accepted |
| Auth.IsAdminIgnoresCase | src/lib/firebase/auth.ts:16 | uppercasing either address does not change the answer |
| Auth.SignInWithGoogle | src/lib/firebase/auth.ts:19-34 | a user is returned exactly when the popup succeeded and the user is admin; popup errors pass through; anyone else gets the sign-out error or the access-denied message |
| Auth.SignInIgnoresCase | src/lib/firebase/auth.ts:19-29 | the administrator signing in with the address in other letter case is accepted |
| I18nClient.ParseLocale | src/i18n/client.ts:35 | a locale exactly for the three tags, and the one whose tag it is |
| I18nClient.ParseCode | src/i18n/client.ts:35 | every locale's tag parses back to it |
| I18nClient.SetCookieValue | src/i18n/client.ts:49 | after writing a cookie its name reads back the new value; other names read as before |
| I18nClient.FindStartingWith | src/i18n/client.ts:31 | `find(startsWith)`: a listed entry with the prefix, or none when no entry has it |
| I18nClient.PairStartsWithPrefix | src/i18n/client.ts:31 | an entry starts with `NEXT_LOCALE=` exactly when its name is `NEXT_LOCALE` |
| I18nClient.FindLocaleEntry | src/i18n/client.ts:30-31 | the entry found is `NEXT_LOCALE=` followed by the jar's value for that name |
| I18nClient.SplitCookieString | src/i18n/client.ts:30 | splitting `document.cookie` at `"; "` gives the jar's entries |
| I18nClient.SplitLocaleEntry | src/i18n/client.ts:34 | `split("=")` of the locale entry gives the name and the tag |
| I18nClient.CookieLocaleOfJar | src/i18n/client.ts:30-38 | a jar holding `NEXT_LOCALE=<tag>` is read as that locale |
| I18nClient.CookieLocaleSource | src/i18n/client.ts:30-38 | a cookie locale comes from an entry with the prefix whose second `=`-piece is the tag |
| I18nClient.DetectBrowserLocale | src/i18n/client.ts:17-25 | pt-BR exactly for a browser language starting `pt`, es-ES exactly for one starting `es` but not `pt`, en-US on the server and otherwise; a non-English result shares its tag's first two letters with the language |
| I18nClient.InitialLocalePreference | src/i18n/client.ts:27-46 | cookie first, then storage, then browser language; values that are not tags are passed over |
| I18nClient.SetCookieKeepsValid | src/i18n/client.ts:49 | writing a well-formed cookie keeps the jar well formed |
| I18nClient.InitialLocaleFromJar | src/i18n/client.ts:27-52 | a browser whose jar holds the saved locale starts in it, whatever its storage and language |
| I18nClient.Descend | src/i18n/client.ts:74-78 | the walk descends into an object only through an own key; it stops on anything that is not an object or array |
| I18nClient.ResolveStopped | src/i18n/client.ts:73-79 | a walk that stopped stays stopped |
| I18nClient.ResolveThroughString | src/i18n/client.ts:74 | a walk that reached a string stops at the next segment |
| I18nClient.TranslatePath | src/i18n/client.ts:69-82 | a key made of dot-free segments translates to the string the walk reaches, or to itself |
| I18nClient.TranslateUnloaded | src/i18n/client.ts:56-82 | before the bundle loads every key translates to itself |
| I18nClient.TranslateExamples | src/i18n/client.ts:69-82 | the walk on a small bundle: a leaf, a missing key, past a string, array indices |
| I18nClient.GetMultilingualText | src/i18n/client.ts:108-114 | `undefined` gives `""`, a plain string itself |
| I18nClient.MultilingualFallback | src/i18n/client.ts:113 | the locale's non-empty text, else English, else `""`, and never a third locale's text |
| I18nClient.TextsOf | src/i18n/client.ts:98 | a JSON text object gives one entry per locale key holding a string |
| I18nClient.ValidTextNeedsNoFallback | src/i18n/client.ts:108-114 | a text that passes the multilingual schema shows the current locale's own non-empty text |
| I18nClient.I18nProvider.constructor | src/i18n/client.ts:55-56 | the locale is `getInitialLocale()` of the browser; no bundle yet |
| I18nClient.I18nProvider.LoadMessages | src/i18n/client.ts:58-62 | the bundle is set; the locale and browser state are unchanged |
| I18nClient.I18nProvider.SaveLocale | src/i18n/client.ts:48-52 | cookie and storage take the tag; the next initial locale is the saved one |
| I18nClient.I18nProvider.SetLocale | src/i18n/client.ts:64-67 | the locale changes and is saved, so the next visit starts in it; the old bundle stays until the new one loads |
| I18nClient.I18nProvider.T | src/i18n/client.ts:69-82 | the loop's result is `Translate(messages, key)` |

## Left out

- Reads of whole collections (`getAllProjects`, `getAllTechnologies`) and the
  store's sorting and filtering inside queries. `MostUsedIsTopRanked` assumes the
  query returned what its `where`/`orderBy` promise, and proves only the `slice`.
- `updateTechnology` and `deleteTechnology`: plain pass-through writes. Deleting a
  technology leaves projects listing it, which the invariant does not cover.
- Per-technology write failures inside a project operation. `FanOut` assumes
  every usage write succeeds. A failed write is swallowed, so with one the counts
  drift and the invariant is not claimed.
- Concurrency: the writes of `Promise.all` run one after the other.
  `AddUsageAllOrderIrrelevant` shows that their order does not matter; two edits
  racing each other are not modelled.
- Error-handling of the store beyond success and failure of a call: the kind of
  error is not modelled, only the message each service rethrows. A failed read of
  the old document in `updateProject`/`deleteProject` and a failed write are one
  `stored` flag, since either throws before anything is written.
- `null` values carried in an update patch: `None` means the field is absent.
- The timestamp serialisation of `getProjectByIdAdmin` and `mapDocToSettings`.
  Timestamps are integers.
- Unicode: lowercasing and canonical decomposition are modelled for ASCII and
  the Latin-1 Supplement. Other code points pass through unchanged.
- URL and e-mail syntax: parameters of the schemas.
- Cookie attributes (`path`, `max-age`), expiry, and same-name cookies set on
  other paths. JSON keys inherited through the prototype (`__proto__`,
  `constructor`) are treated as absent, since they never lead to a string.
- `photo: undefined` in the settings write: modelled as the field not written,
  as the store does when it is set to ignore undefined properties. That setting
  lives in the store's configuration, `src/lib/firebase/config.ts`, which is not
  part of this model; without it the store rejects the write.
- Rendering the settings form with an undefined `bio` or `role` also throws
  (`bio[lang.code]`). Only the handlers are modelled, so `EditBio`/`EditRole` on
  an undefined text follow `{...undefined, [lang]: value}`.
- Loading the message bundle: `LoadMessages` takes the bundle as a parameter;
  the dynamic import is left out.
- `loadSettings`'s error toast: `getPortfolioSettings` catches every error and
  returns null, so that branch is unreachable and not modelled.
- `signOut`, `onAuthChange`, the photo-upload handler, the toasts, the router,
  the loading and saving flags and all rendering.
- AI description generation, analytics, storage uploads and configuration files.
