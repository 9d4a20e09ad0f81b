/** `src/lib/firebase/services/settings.ts`: the portfolio settings, one document
    (`settings/main`) read whole, written by merging, and seeded with defaults
    when it is absent. Whether a read or a write succeeds, and the server time of
    a write, are parameters. */
module Settings {
  import opened Wrappers
  import opened Strings
  import opened Json
  import Validators

  /** The id of the one settings document. */
  const SettingsDocId: string := "main"

  /** A text per locale key (`MultilingualText`); a key may be missing. */
  type Texts = map<string, string>

  /** The stored settings document. Fields the writers always supply can still be
      missing from a document written elsewhere (the settings route of the admin
      API passes its request body through unchecked), so they are optional. */
  datatype SettingsDoc = SettingsDoc(
    name: Option<string>,
    photo: Option<string>,
    bio: Option<Texts>,
    role: Option<Texts>,
    email: Option<string>,
    github: Option<string>,
    linkedin: Option<string>,
    createdAt: int,
    updatedAt: int)

  /** `PortfolioSettingsInput` as it reaches the store; `photo` `None` is a field
      the write does not carry. */
  datatype SettingsInput = SettingsInput(
    name: string,
    photo: Option<string>,
    bio: Texts,
    role: Texts,
    email: string,
    github: string,
    linkedin: string)

  const UpdateFailedMessage: string := "Falha ao atualizar configura\U{00E7}\U{00F5}es"

  /** A nested map merged by `set(…, {merge: true})`: the written keys take the
      written values, the other stored keys are kept. */
  function MergeTexts(stored: Texts, written: Texts): (r: Texts)
    ensures r.Keys == stored.Keys + written.Keys
    ensures forall k :: k in written ==> r[k] == written[k]
    ensures forall k :: k in stored && k !in written ==> r[k] == stored[k]
  {
    stored + written
  }

  /** The document after `updatePortfolioSettings(input)` at server time `now`:
      the supplied fields overwrite, the per-locale texts merge key by key (into
      nothing when the stored document has none), a photo not supplied keeps the
      stored one, and both timestamps become `now`. */
  function MergeWrite(stored: Option<SettingsDoc>, input: SettingsInput, now: int): (r: SettingsDoc)
    ensures r.name == Some(input.name) && r.email == Some(input.email)
    ensures r.github == Some(input.github) && r.linkedin == Some(input.linkedin)
    ensures input.photo.Some? ==> r.photo == input.photo
    ensures input.photo.None? ==> r.photo == (if stored.Some? then stored.value.photo else None)
    ensures r.bio.Some? && r.role.Some?
    ensures forall k :: k in input.bio ==> k in r.bio.value && r.bio.value[k] == input.bio[k]
    ensures forall k :: k in input.role ==> k in r.role.value && r.role.value[k] == input.role[k]
    ensures stored.None? || stored.value.bio.None? ==> r.bio == Some(input.bio)
    ensures stored.None? || stored.value.role.None? ==> r.role == Some(input.role)
    ensures stored.Some? && stored.value.bio.Some? ==>
      var old_ := stored.value.bio.value;
      forall k :: k in old_ && k !in input.bio ==> k in r.bio.value && r.bio.value[k] == old_[k]
    ensures stored.Some? && stored.value.role.Some? ==>
      var old_ := stored.value.role.value;
      forall k :: k in old_ && k !in input.role ==> k in r.role.value && r.role.value[k] == old_[k]
    ensures stored.Some? ==> r.bio.value.Keys == stored.value.bio.GetOr(map[]).Keys + input.bio.Keys
    ensures stored.Some? ==> r.role.value.Keys == stored.value.role.GetOr(map[]).Keys + input.role.Keys
    ensures r.createdAt == now && r.updatedAt == now
  {
    var base := if stored.Some? then stored.value else SettingsDoc(None, None, None, None, None, None, None, now, now);
    SettingsDoc(
      Some(input.name),
      if input.photo.Some? then input.photo else base.photo,
      Some(if base.bio.Some? then MergeTexts(base.bio.value, input.bio) else input.bio),
      Some(if base.role.Some? then MergeTexts(base.role.value, input.role) else input.role),
      Some(input.email),
      Some(input.github),
      Some(input.linkedin),
      now, now)
  }

  /** Writing the same settings again at the same time changes nothing. */
  lemma MergeWriteIdempotent(stored: Option<SettingsDoc>, input: SettingsInput, now: int)
    ensures MergeWrite(Some(MergeWrite(stored, input, now)), input, now) == MergeWrite(stored, input, now)
  {
    var once := MergeWrite(stored, input, now);
    assert MergeTexts(once.bio.value, input.bio) == once.bio.value;
    assert MergeTexts(once.role.value, input.role) == once.role.value;
  }

  /** A later write wins field by field: two writes equal one write of the second
      input over the first, for every field the second supplies. */
  lemma MergeWriteLastWins(stored: Option<SettingsDoc>, first: SettingsInput, second: SettingsInput, t1: int, t2: int)
    requires first.bio.Keys <= second.bio.Keys && first.role.Keys <= second.role.Keys && second.photo.Some?
    ensures MergeWrite(Some(MergeWrite(stored, first, t1)), second, t2) == MergeWrite(stored, second, t2)
  {
    var twice := MergeWrite(Some(MergeWrite(stored, first, t1)), second, t2);
    var once := MergeWrite(stored, second, t2);
    assert twice.bio.value == once.bio.value;
    assert twice.role.value == once.role.value;
  }

  /** The creation time does not survive an update: it is the time of the last write. */
  lemma CreatedAtIsLastWrite(stored: SettingsDoc, input: SettingsInput, now: int)
    requires stored.createdAt < now
    ensures MergeWrite(Some(stored), input, now).createdAt != stored.createdAt
  {
  }

  /** The defaults `initializeDefaultSettings` writes. */
  const DefaultSettings: SettingsInput := SettingsInput(
    "Nelson Christovam Neto",
    None,
    map[
      "en-US" := "Full Stack Developer creating modern and functional digital experiences.",
      "pt-BR" := "Desenvolvedor Full Stack criando experi\U{00EA}ncias digitais modernas e funcionais.",
      "es-ES" := "Desarrollador Full Stack creando experiencias digitales modernas y funcionales."],
    map[
      "en-US" := "Full Stack Developer",
      "pt-BR" := "Desenvolvedor Full Stack",
      "es-ES" := "Desarrollador Full Stack"],
    "contact@example.com",
    "https://github.com",
    "https://linkedin.com")

  /** A per-locale text that has a non-empty text for every locale. */
  predicate IsComplete(texts: Texts) {
    forall k :: k in Validators.LocaleKeys ==> k in texts && texts[k] != ""
  }

  /** The default `bio` and `role` are complete, and as JSON pass the
      multilingual text schema. */
  lemma DefaultsAreComplete()
    ensures IsComplete(DefaultSettings.bio) && IsComplete(DefaultSettings.role)
    ensures Validators.IsMultilingualText(Validators.MultilingualValue(
      DefaultSettings.bio["en-US"], DefaultSettings.bio["pt-BR"], DefaultSettings.bio["es-ES"]))
    ensures Validators.IsMultilingualText(Validators.MultilingualValue(
      DefaultSettings.role["en-US"], DefaultSettings.role["pt-BR"], DefaultSettings.role["es-ES"]))
  {
    var b := DefaultSettings.bio;
    var r := DefaultSettings.role;
    Validators.MultilingualValueValid(b["en-US"], b["pt-BR"], b["es-ES"]);
    Validators.MultilingualValueValid(r["en-US"], r["pt-BR"], r["es-ES"]);
  }

  /** A per-locale text as the JSON object the schema checks. */
  function TextsValue(texts: Texts): (v: Value)
    ensures v.Obj? && v.fields.Keys == texts.Keys
    ensures forall k :: k in texts ==> v.fields[k] == Str(texts[k])
  {
    Obj(map k | k in texts :: Str(texts[k]))
  }

  /** Settings input as the JSON object the schema checks; no photo is no key. */
  function InputValue(input: SettingsInput): Value {
    var fields := map[
      "name" := Str(input.name), "bio" := TextsValue(input.bio), "role" := TextsValue(input.role),
      "email" := Str(input.email), "github" := Str(input.github), "linkedin" := Str(input.linkedin)];
    Obj(if input.photo.Some? then fields["photo" := Str(input.photo.value)] else fields)
  }

  /** A complete per-locale text passes `multilingualTextSchema`. */
  lemma CompleteTextsValid(texts: Texts)
    requires IsComplete(texts)
    ensures Validators.IsMultilingualText(TextsValue(texts))
  {
  }

  /** Settings input with a name of at least two characters, complete texts,
      an e-mail, profile URLs and a photo that is absent or a URL passes
      `portfolioSettingsSchema`. */
  lemma InputPassesSchema(input: SettingsInput, isUrl: string -> bool, isEmail: string -> bool)
    requires |input.name| >= 2 && IsComplete(input.bio) && IsComplete(input.role)
    requires isEmail(input.email) && isUrl(input.github) && isUrl(input.linkedin)
    requires input.photo.Some? ==> isUrl(input.photo.value)
    ensures Validators.IsPortfolioSettings(InputValue(input), isUrl, isEmail)
  {
    CompleteTextsValid(input.bio);
    CompleteTextsValid(input.role);
  }

  /** The defaults pass `portfolioSettingsSchema`, given that their e-mail and
      profile addresses are an e-mail and URLs. */
  lemma DefaultsPassSchema(isUrl: string -> bool, isEmail: string -> bool)
    requires isUrl(DefaultSettings.github) && isUrl(DefaultSettings.linkedin) && isEmail(DefaultSettings.email)
    ensures Validators.IsPortfolioSettings(InputValue(DefaultSettings), isUrl, isEmail)
  {
    DefaultsAreComplete();
    InputPassesSchema(DefaultSettings, isUrl, isEmail);
  }

  /** What `getPortfolioSettings()` returns: the document, or `null` when it is
      absent or the read fails. */
  function ReadSettings(main: Option<SettingsDoc>, readSucceeds: bool): (r: Option<SettingsDoc>)
    ensures r.Some? <==> readSucceeds && main.Some?
    ensures r.Some? ==> r == main
  {
    if readSucceeds then main else None
  }

  /** The document after `initializeDefaultSettings()`: unchanged when the read
      found one (or when the write fails, which is swallowed); otherwise the
      defaults merged in, over whatever a failed read did not see. */
  function AfterInitialize(main: Option<SettingsDoc>, readSucceeds: bool, writeSucceeds: bool, now: int): Option<SettingsDoc> {
    if ReadSettings(main, readSucceeds).Some? || !writeSucceeds then main
    else Some(MergeWrite(main, DefaultSettings, now))
  }

  /** Existing settings are left alone; absent ones are seeded with complete
      per-locale texts; and initialising twice is initialising once. */
  lemma InitializeOnce(main: Option<SettingsDoc>, now: int, later: int, writeSucceeds: bool)
    ensures main.Some? ==> AfterInitialize(main, true, writeSucceeds, now) == main
    ensures main.None? ==> AfterInitialize(main, true, true, now).Some?
                           && IsComplete(AfterInitialize(main, true, true, now).value.bio.value)
                           && IsComplete(AfterInitialize(main, true, true, now).value.role.value)
    ensures var once := AfterInitialize(main, true, true, now);
            AfterInitialize(once, true, writeSucceeds, later) == once
  {
    DefaultsAreComplete();
    if main.None? {
      assert forall k :: k in Validators.LocaleKeys ==> k in DefaultSettings.bio;
      assert forall k :: k in Validators.LocaleKeys ==> k in DefaultSettings.role;
    }
  }

  /** When the read fails the defaults are written over the existing document:
      its name, e-mail and links, and the three locales of its `bio` and `role`,
      are replaced; its photo and any other locale keys of its texts survive. */
  lemma InitializeAfterFailedRead(stored: SettingsDoc, now: int)
    ensures AfterInitialize(Some(stored), false, true, now) == Some(MergeWrite(Some(stored), DefaultSettings, now))
    ensures var r := AfterInitialize(Some(stored), false, true, now).value;
      && r.name == Some(DefaultSettings.name) && r.email == Some(DefaultSettings.email)
      && r.github == Some(DefaultSettings.github) && r.linkedin == Some(DefaultSettings.linkedin)
      && (forall k :: k in Validators.LocaleKeys ==>
            && k in r.bio.value && r.bio.value[k] == DefaultSettings.bio[k]
            && k in r.role.value && r.role.value[k] == DefaultSettings.role[k])
      && r.photo == stored.photo
      && (stored.bio.Some? ==> forall k :: k in stored.bio.value && k !in Validators.LocaleKeys ==>
            k in r.bio.value && r.bio.value[k] == stored.bio.value[k])
      && (stored.role.Some? ==> forall k :: k in stored.role.value && k !in Validators.LocaleKeys ==>
            k in r.role.value && r.role.value[k] == stored.role.value[k])
      && r.createdAt == now && r.updatedAt == now
  {
    assert DefaultSettings.bio.Keys == Validators.LocaleKeys;
    assert DefaultSettings.role.Keys == Validators.LocaleKeys;
  }

  /** The settings store. */
  class SettingsService {
    var main: Option<SettingsDoc>

    constructor (initial: Option<SettingsDoc>)
      ensures main == initial
    {
      main := initial;
    }

    /** `getPortfolioSettings()`; `readSucceeds` is whether the store answered. */
    method GetPortfolioSettings(readSucceeds: bool) returns (r: Option<SettingsDoc>)
      ensures r == ReadSettings(main, readSucceeds)
    {
      if !readSucceeds {
        return None;
      }
      r := main;
    }

    /** `updatePortfolioSettings(input)` at server time `now`. */
    method UpdatePortfolioSettings(input: SettingsInput, now: int, writeSucceeds: bool) returns (r: Outcome<string>)
      modifies this
      ensures r == if writeSucceeds then Pass else Fail(UpdateFailedMessage)
      ensures main == if writeSucceeds then Some(MergeWrite(old(main), input, now)) else old(main)
    {
      if !writeSucceeds {
        return Fail(UpdateFailedMessage);
      }
      main := Some(MergeWrite(main, input, now));
      r := Pass;
    }

    /** `initializeDefaultSettings()`: every failure is swallowed. */
    method InitializeDefaultSettings(readSucceeds: bool, writeSucceeds: bool, now: int)
      modifies this
      ensures main == AfterInitialize(old(main), readSucceeds, writeSucceeds, now)
    {
      var settings := GetPortfolioSettings(readSucceeds);
      if settings.Some? {
        return;
      }
      var _ := UpdatePortfolioSettings(DefaultSettings, now, writeSucceeds);
    }
  }
}
