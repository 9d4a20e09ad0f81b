/** `src/components/admin/settings-form.tsx`: the settings editor. Its state fields
    are loaded from the settings store, edited one locale at a time, validated on
    submit and written back. */
module AdminSettingsForm {
  import opened Wrappers
  import opened Strings
  import opened Settings

  const RequiredFieldsMessage: string := "Preencha todos os campos obrigat\U{00F3}rios"
  const MultilingualMessage: string := "Preencha a bio e cargo em todos os idiomas"
  const SaveFailedMessage: string := "Erro ao salvar configura\U{00E7}\U{00F5}es"
  /** The `TypeError` that `Object.values(undefined)` raises when `bio` or `role`
      is undefined: the handler stops before any store call and shows nothing. */
  const MissingTextsError: string := "Cannot convert undefined or null to object"

  /** The per-locale text a new form starts with: the three locales, all empty. */
  const EmptyTexts: Texts := map["en-US" := "", "pt-BR" := "", "es-ES" := ""]

  /** Some value of the per-locale text is blank after trimming
      (`Object.values(texts).some((v) => !v.trim())`). */
  predicate HasBlankValue(texts: Texts) {
    exists k :: k in texts && IsBlank(texts[k])
  }

  /** What the form fields are; `bio` and `role` are `None` (undefined) after
      loading a document that has none. */
  datatype Fields = Fields(
    photoUrl: string, name: string, email: string, github: string, linkedin: string,
    bio: Option<Texts>, role: Option<Texts>)

  /** The submit-time checks and the data they let through: `name` and `email`
      must not be empty (they are not trimmed), an undefined `bio` or `role` makes
      the handler throw, no value of `bio` or `role` may be blank, and an empty
      photo address is sent as no photo. */
  function Submission(f: Fields): (r: Result<SettingsInput, string>)
    ensures r.Failure? ==> r.error in {RequiredFieldsMessage, MissingTextsError, MultilingualMessage}
    ensures r.Success? <==> && f.name != "" && f.email != "" && f.bio.Some? && f.role.Some?
                            && !HasBlankValue(f.bio.value) && !HasBlankValue(f.role.value)
    ensures f.name == "" || f.email == "" ==> r == Failure(RequiredFieldsMessage)
    ensures f.name != "" && f.email != "" && (f.bio.None? || f.role.None?) ==> r == Failure(MissingTextsError)
    ensures r.Success? ==> r.value == SettingsInput(
      f.name, if f.photoUrl == "" then None else Some(f.photoUrl),
      f.bio.value, f.role.value, f.email, f.github, f.linkedin)
  {
    if f.name == "" || f.email == "" then Failure(RequiredFieldsMessage)
    else if f.bio.None? || f.role.None? then Failure(MissingTextsError)
    else if HasBlankValue(f.bio.value) || HasBlankValue(f.role.value) then Failure(MultilingualMessage)
    else Success(SettingsInput(
      f.name, if f.photoUrl == "" then None else Some(f.photoUrl),
      f.bio.value, f.role.value, f.email, f.github, f.linkedin))
  }

  /** A name or e-mail of only spaces passes the required-field check. */
  lemma WhitespaceNamePasses(f: Fields)
    requires f.name == " " && f.email == " " && f.bio.Some? && f.role.Some?
    requires !HasBlankValue(f.bio.value) && !HasBlankValue(f.role.value)
    ensures Submission(f).Success? && Submission(f).value.name == " "
  {
  }

  /** An accepted submission stores every locale of `bio` and `role` with a text
      that is not blank; a form that was never loaded is refused. */
  lemma AcceptedTextsAreFilled(f: Fields, before: Option<SettingsDoc>, now: int)
    requires Submission(f).Success?
    ensures var d := MergeWrite(before, Submission(f).value, now);
      forall k :: k in f.bio.value ==> k in d.bio.value && !IsBlank(d.bio.value[k])
    ensures Submission(f.(bio := Some(EmptyTexts))).Failure?
  {
    assert IsBlank(EmptyTexts["en-US"]);
  }

  /** The form's fields after `loadSettings()` found `settings`: missing texts
      become empty, the per-locale texts are copied whole (missing ones stay
      undefined). */
  function Loaded(f: Fields, settings: Option<SettingsDoc>): (r: Fields)
    ensures settings.None? ==> r == f
    ensures settings.Some? ==> r.bio == settings.value.bio && r.role == settings.value.role
    ensures settings.Some? ==>
      && r.name == settings.value.name.GetOr("") && r.photoUrl == settings.value.photo.GetOr("")
      && r.email == settings.value.email.GetOr("")
      && r.github == settings.value.github.GetOr("") && r.linkedin == settings.value.linkedin.GetOr("")
  {
    match settings
    case None => f
    case Some(s) => Fields(s.photo.GetOr(""), s.name.GetOr(""), s.email.GetOr(""),
                           s.github.GetOr(""), s.linkedin.GetOr(""), s.bio, s.role)
  }

  /** A stored document without `bio` or `role` loads as undefined texts, and the
      next submission with a name and an e-mail throws before any store call. */
  lemma LoadedWithoutTextsRefused(f: Fields, settings: SettingsDoc)
    requires settings.bio.None? || settings.role.None?
    requires settings.name.GetOr("") != "" && settings.email.GetOr("") != ""
    ensures Submission(Loaded(f, Some(settings))) == Failure(MissingTextsError)
  {
  }

  /** Saving a form to an empty store, loading the result back and saving it
      again unchanged rewrites the same settings (at the new time). */
  lemma LoadSaveRoundTrip(f: Fields, t1: int, t2: int)
    requires Submission(f).Success?
    ensures var saved := MergeWrite(None, Submission(f).value, t1);
      && Loaded(f, Some(saved)) == f
      && MergeWrite(Some(saved), Submission(f).value, t2) == saved.(createdAt := t2, updatedAt := t2)
  {
    var input := Submission(f).value;
    FirstSave(input, t1);
    ResaveUnchanged(input, t1, t2);
  }

  lemma FirstSave(input: SettingsInput, now: int)
    ensures MergeWrite(None, input, now) == SettingsDoc(Some(input.name), input.photo, Some(input.bio), Some(input.role),
                                                        Some(input.email), Some(input.github), Some(input.linkedin), now, now)
  {
    assert map[] + input.bio == input.bio && map[] + input.role == input.role;
  }

  lemma ResaveUnchanged(input: SettingsInput, t1: int, t2: int)
    ensures var saved := MergeWrite(None, input, t1);
      MergeWrite(Some(saved), input, t2) == saved.(createdAt := t2, updatedAt := t2)
  {
    FirstSave(input, t1);
    assert input.bio + input.bio == input.bio && input.role + input.role == input.role;
  }

  class SettingsForm {
    var photoUrl: string
    var name: string
    var email: string
    var github: string
    var linkedin: string
    var bio: Option<Texts>
    var role: Option<Texts>
    const service: SettingsService

    function State(): Fields
      reads this
    {
      Fields(photoUrl, name, email, github, linkedin, bio, role)
    }

    /** A new form: every field empty, the three locales of each text empty. */
    constructor (service: SettingsService)
      ensures State() == Fields("", "", "", "", "", Some(EmptyTexts), Some(EmptyTexts))
      ensures this.service == service
    {
      this.service := service;
      photoUrl, name, email, github, linkedin := "", "", "", "", "";
      bio, role := Some(EmptyTexts), Some(EmptyTexts);
    }

    /** `loadSettings()`; a failed read shows as no settings. */
    method LoadSettings(readSucceeds: bool)
      modifies this
      ensures State() == Loaded(old(State()), ReadSettings(service.main, readSucceeds))
    {
      var settings := service.GetPortfolioSettings(readSucceeds);
      if settings.Some? {
        var s := settings.value;
        photoUrl := s.photo.GetOr("");
        name := s.name.GetOr("");
        email := s.email.GetOr("");
        github := s.github.GetOr("");
        linkedin := s.linkedin.GetOr("");
        bio := s.bio;
        role := s.role;
      }
    }

    /** The role field of one locale (`{...role, [lang]: value}`): only that key
        changes; spreading an undefined text gives an empty one. */
    method EditRole(locale: string, value: string)
      modifies this
      ensures role == Some(old(role).GetOr(map[])[locale := value])
      ensures State() == old(State()).(role := role)
    {
      role := Some(role.GetOr(map[])[locale := value]);
    }

    /** The bio field of one locale: only that key changes. */
    method EditBio(locale: string, value: string)
      modifies this
      ensures bio == Some(old(bio).GetOr(map[])[locale := value])
      ensures State() == old(State()).(bio := bio)
    {
      bio := Some(bio.GetOr(map[])[locale := value]);
    }

    /** `handleSubmit`: refused with a message and no store call, or written to
        the store at server time `now`. */
    method HandleSubmit(now: int, writeSucceeds: bool) returns (r: Outcome<string>)
      modifies service
      ensures var s := Submission(State());
        && (s.Failure? ==> r == Fail(s.error) && service.main == old(service.main))
        && (s.Success? ==> r == (if writeSucceeds then Pass else Fail(SaveFailedMessage))
                           && service.main == (if writeSucceeds then Some(MergeWrite(old(service.main), s.value, now))
                                               else old(service.main)))
    {
      if name == "" || email == "" {
        return Fail(RequiredFieldsMessage);
      }
      if bio.None? || role.None? {
        return Fail(MissingTextsError);
      }
      if HasBlankValue(bio.value) || HasBlankValue(role.value) {
        return Fail(MultilingualMessage);
      }
      var data := SettingsInput(name, if photoUrl == "" then None else Some(photoUrl), bio.value, role.value, email, github, linkedin);
      var saved := service.UpdatePortfolioSettings(data, now, writeSucceeds);
      r := if saved.Pass? then Pass else Fail(SaveFailedMessage);
    }
  }
}
