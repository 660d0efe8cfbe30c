/** The profile page (`src/app/profile/page.tsx`): it fills its form from the
    user's document `users/{uid}` with fallbacks to the authentication
    profile, saves part of the form back, keeps the authentication display
    name in step with the saved name, and stores a cropped avatar. */
module ProfilePage {
  import opened Wrappers
  import opened WatchlistStore

  /** The fields of the signed-in user the page reads: `null` is `None`. */
  datatype AuthUser = AuthUser(uid: UserId, displayName: Option<string>, email: Option<string>, photoURL: Option<string>)

  /** The document `users/{uid}`: its string fields by name. */
  type UserFields = map<string, string>

  /** `data[key]`: the field, or `undefined` when the document lacks it. */
  function Field(d: UserFields, key: string): (r: Option<string>)
    ensures r.Some? <==> key in d
    ensures r.Some? ==> r.value == d[key]
  {
    if key in d then Some(d[key]) else None
  }

  /** `a || b || ""`: the first non-empty one of two optional strings, else
      the empty string. */
  function FirstGiven(a: Option<string>, b: Option<string>): (r: string)
    ensures Given(a) ==> r == a.value
    ensures !Given(a) && Given(b) ==> r == b.value
    ensures !Given(a) && !Given(b) ==> r == ""
  {
    if Given(a) then a.value else if Given(b) then b.value else ""
  }

  /** The form's fields. */
  datatype Form = Form(name: string, email: string, bio: string, dob: string, gender: string)

  /** What the page holds: the form and the avatar's address. */
  datatype Page = Page(form: Form, avatar: string)

  /** What reading the user's document gives: a failure, or a snapshot that
      may show no document. */
  datatype DocRead = ReadFailed | Snapshot(doc: Option<UserFields>)

  /** `fetchProfile`. Without a user, or when the read fails, nothing
      changes. With a document, every form field and the avatar are replaced:
      name and email fall back to the authentication profile, then to empty;
      bio, birth date and gender fall back to empty; the avatar falls back to
      the profile photo, then to empty. Without a document only name, email
      and avatar are set, from the authentication profile; the rest of the
      form keeps its values. */
  function FetchProfile(user: Option<AuthUser>, read: DocRead, page: Page): (r: Page)
    ensures user.None? || read.ReadFailed? ==> r == page
    ensures user.Some? && read.Snapshot? && read.doc.Some? ==>
      var d, u := read.doc.value, user.value;
      && r.form.name == FirstGiven(Field(d, "name"), u.displayName)
      && r.form.email == FirstGiven(Field(d, "email"), u.email)
      && r.form.bio == FirstGiven(Field(d, "bio"), None)
      && r.form.dob == FirstGiven(Field(d, "dob"), None)
      && r.form.gender == FirstGiven(Field(d, "gender"), None)
      && r.avatar == FirstGiven(Field(d, "image"), u.photoURL)
    ensures user.Some? && read.Snapshot? && read.doc.None? ==>
      var u := user.value;
      && r.form.name == FirstGiven(u.displayName, None)
      && r.form.email == FirstGiven(u.email, None)
      && r.form.(name := page.form.name, email := page.form.email) == page.form
      && r.avatar == FirstGiven(u.photoURL, None)
  {
    match user
    case None => page
    case Some(u) =>
      match read
      case ReadFailed => page
      case Snapshot(None) =>
        Page(page.form.(name := FirstGiven(u.displayName, None), email := FirstGiven(u.email, None)),
             FirstGiven(u.photoURL, None))
      case Snapshot(Some(d)) =>
        Page(Form(FirstGiven(Field(d, "name"), u.displayName),
                  FirstGiven(Field(d, "email"), u.email),
                  FirstGiven(Field(d, "bio"), None),
                  FirstGiven(Field(d, "dob"), None),
                  FirstGiven(Field(d, "gender"), None)),
             FirstGiven(Field(d, "image"), u.photoURL))
  }

  /** Rerunning the effect on the same answer changes nothing more: what it
      sets depends only on the user and the document. */
  lemma FetchProfileIdempotent(user: Option<AuthUser>, read: DocRead, page: Page)
    ensures FetchProfile(user, read, FetchProfile(user, read, page)) == FetchProfile(user, read, page)
  {
  }

  /** A document's non-empty field always wins over the authentication
      profile, and a missing or empty bio, birth date or gender shows as
      empty. */
  lemma DocumentWins(u: AuthUser, d: UserFields, page: Page, key: string)
    requires key in {"name", "email", "bio", "dob", "gender"}
    ensures var f := FetchProfile(Some(u), Snapshot(Some(d)), page).form;
      var shown := if key == "name" then f.name else if key == "email" then f.email
                   else if key == "bio" then f.bio else if key == "dob" then f.dob else f.gender;
      (key in d && d[key] != "" ==> shown == d[key])
      && (key in {"bio", "dob", "gender"} && !(key in d && d[key] != "") ==> shown == "")
  {
  }

  datatype Notice = SuccessNotice(text: string) | ErrorNotice(text: string)

  const SavedText: string := "Profile updated successfully"
  const SaveFailedText: string := "Failed to update profile"

  /** The fields `handleSave` writes into the document. */
  const SavedFields: set<string> := {"name", "dob", "bio"}

  /** What a save leaves behind: the document, the authentication user, the
      notice shown, and whether the display name was sent to the
      authentication service. */
  datatype SaveOutcome = SaveOutcome(doc: Option<UserFields>, user: Option<AuthUser>, notice: Option<Notice>,
                                     profileAsked: bool)

  /** `handleSave`. Without a user nothing happens. Otherwise the document's
      name, birth date and bio are overwritten with the form's (the document
      update fails when the write fails or the document does not exist);
      then, only if the form's name differs from the authentication display
      name (`null` differs from every string), the display name is updated.
      Either failure shows the failure notice; a document written before the
      display name update failed stays written. */
  function HandleSave(user: Option<AuthUser>, form: Form, doc: Option<UserFields>,
                      writeOk: bool, profileOk: bool): (r: SaveOutcome)
    ensures user.None? ==> r == SaveOutcome(doc, None, None, false)
    ensures user.Some? ==> r.notice.Some? && r.user.Some? && r.user.value.(displayName := user.value.displayName) == user.value
    // the write set: name, dob and bio, nothing else
    ensures r.doc.Some? <==> doc.Some?
    ensures r.doc.Some? ==> forall k :: k !in SavedFields ==> Field(r.doc.value, k) == Field(doc.value, k)
    ensures r.doc != doc ==> user.Some? && writeOk
    ensures user.Some? && writeOk && doc.Some? ==>
      && Field(r.doc.value, "name") == Some(form.name)
      && Field(r.doc.value, "dob") == Some(form.dob)
      && Field(r.doc.value, "bio") == Some(form.bio)
    // the display name is sent only after the write, and only when it differs
    ensures r.profileAsked <==>
      user.Some? && writeOk && doc.Some? && user.value.displayName != Some(form.name)
    ensures user.Some? ==>
      r.user.value.displayName == if r.profileAsked && profileOk then Some(form.name) else user.value.displayName
    ensures r.notice == Some(SuccessNotice(SavedText)) <==>
      user.Some? && writeOk && doc.Some? && (r.profileAsked ==> profileOk)
    ensures r.notice.Some? && r.notice != Some(SuccessNotice(SavedText)) ==> r.notice == Some(ErrorNotice(SaveFailedText))
  {
    match user
    case None => SaveOutcome(doc, None, None, false)
    case Some(u) =>
      if !writeOk || doc.None? then SaveOutcome(doc, user, Some(ErrorNotice(SaveFailedText)), false)
      else
        var written := doc.value["name" := form.name]["dob" := form.dob]["bio" := form.bio];
        if u.displayName == Some(form.name) then
          SaveOutcome(Some(written), user, Some(SuccessNotice(SavedText)), false)
        else if profileOk then
          SaveOutcome(Some(written), Some(u.(displayName := Some(form.name))), Some(SuccessNotice(SavedText)), true)
        else
          SaveOutcome(Some(written), user, Some(ErrorNotice(SaveFailedText)), true)
  }

  /** The form's email and gender play no part in a save. */
  lemma SaveIgnoresEmailAndGender(user: Option<AuthUser>, form: Form, email: string, gender: string,
                                  doc: Option<UserFields>, writeOk: bool, profileOk: bool)
    ensures HandleSave(user, form.(email := email, gender := gender), doc, writeOk, profileOk)
         == HandleSave(user, form, doc, writeOk, profileOk)
  {
  }

  /** A save followed by a fresh load round-trips: when the save succeeds,
      reading the document back shows the saved name, birth date and bio
      (even an empty name, since the display name was brought in step), and
      the email, gender and avatar that loading the old document showed. */
  lemma {:induction false} SaveThenFetch(u: AuthUser, form: Form, d: UserFields, profileOk: bool, page: Page, before: Page)
    requires HandleSave(Some(u), form, Some(d), true, profileOk).notice == Some(SuccessNotice(SavedText))
    ensures var r := HandleSave(Some(u), form, Some(d), true, profileOk);
      var earlier := FetchProfile(Some(u), Snapshot(Some(d)), before);
      var now := FetchProfile(r.user, Snapshot(r.doc), page);
      now.form == earlier.form.(name := form.name, dob := form.dob, bio := form.bio)
      && now.avatar == earlier.avatar
  {
    var r := HandleSave(Some(u), form, Some(d), true, profileOk);
    var nd := r.doc.value;
    var nu := r.user.value;
    assert Field(nd, "name") == Some(form.name);
    assert Field(nd, "dob") == Some(form.dob) && Field(nd, "bio") == Some(form.bio);
    assert Field(nd, "email") == Field(d, "email");
    assert Field(nd, "gender") == Field(d, "gender");
    assert Field(nd, "image") == Field(d, "image");
    assert nu.displayName == Some(form.name);
    assert nu.email == u.email && nu.photoURL == u.photoURL;
  }

  /** The outcome of `getCroppedImg`: the cropped image's address, nothing
      (no picture chosen or no crop area), or a failure. */
  datatype Crop = Cropped(url: string) | NoImage | CropFailed

  /** A crop that yields an image: an empty address counts as none. */
  predicate HasImage(crop: Crop) {
    crop.Cropped? && crop.url != ""
  }

  const CropSavedText: string := "Profile picture updated!"
  const CropFailedText: string := "Failed to crop image"

  /** The page after `handleCropSave`: the avatar, the document, whether the
      crop dialog stays open, and the notice shown. */
  datatype CropOutcome = CropOutcome(avatar: string, doc: Option<UserFields>, dialogOpen: bool, notice: Option<Notice>)

  /** `handleCropSave`. Without a user nothing happens. A cropped image
      becomes the avatar at once and is then written to the document's
      `image` field; the dialog closes only when the write succeeds, and the
      avatar is not rolled back when it fails. */
  function HandleCropSave(user: Option<AuthUser>, crop: Crop, avatar: string, doc: Option<UserFields>,
                          dialogOpen: bool, writeOk: bool): (r: CropOutcome)
    ensures user.None? || (crop.Cropped? && !HasImage(crop)) || crop.NoImage? ==>
      r == CropOutcome(avatar, doc, dialogOpen, None)
    ensures user.Some? && crop.CropFailed? ==> r == CropOutcome(avatar, doc, dialogOpen, Some(ErrorNotice(CropFailedText)))
    ensures user.Some? && HasImage(crop) ==> r.avatar == crop.url
    ensures r.doc != doc ==> user.Some? && HasImage(crop) && writeOk && doc.Some?
    ensures r.doc.Some? && r.doc != doc ==>
      Field(r.doc.value, "image") == Some(crop.url)
      && forall k :: k != "image" ==> Field(r.doc.value, k) == Field(doc.value, k)
    ensures r.notice == Some(SuccessNotice(CropSavedText)) <==> user.Some? && HasImage(crop) && writeOk && doc.Some?
    ensures r.notice == Some(SuccessNotice(CropSavedText)) ==> !r.dialogOpen
    ensures user.Some? && HasImage(crop) && !(writeOk && doc.Some?) ==>
      r.dialogOpen == dialogOpen && r.doc == doc && r.notice == Some(ErrorNotice(CropFailedText))
  {
    match user
    case None => CropOutcome(avatar, doc, dialogOpen, None)
    case Some(_) =>
      match crop
      case NoImage => CropOutcome(avatar, doc, dialogOpen, None)
      case CropFailed => CropOutcome(avatar, doc, dialogOpen, Some(ErrorNotice(CropFailedText)))
      case Cropped(url) =>
        if url == "" then CropOutcome(avatar, doc, dialogOpen, None)
        else if !writeOk || doc.None? then CropOutcome(url, doc, dialogOpen, Some(ErrorNotice(CropFailedText)))
        else CropOutcome(url, Some(doc.value["image" := url]), false, Some(SuccessNotice(CropSavedText)))
  }

  /** A stored avatar is what the next load shows: after a successful crop
      save, fetching the document gives the cropped image as the avatar. */
  lemma CroppedAvatarLoads(u: AuthUser, url: string, avatar: string, d: UserFields, dialogOpen: bool, page: Page)
    requires url != ""
    ensures var r := HandleCropSave(Some(u), Cropped(url), avatar, Some(d), dialogOpen, true);
      FetchProfile(Some(u), Snapshot(r.doc), page).avatar == r.avatar
  {
    var r := HandleCropSave(Some(u), Cropped(url), avatar, Some(d), dialogOpen, true);
    assert Field(r.doc.value, "image") == Some(url);
  }
}
