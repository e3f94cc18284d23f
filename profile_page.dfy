/**
 * The profile settings page: the checks on an avatar file before it is
 * uploaded, the checks on a new username before the profile is saved, and
 * the two handlers with the state they leave behind (the page's fields,
 * the signed-in user held by the auth context, the toasts shown, and the
 * uploads and profile updates requested, in order).
 */
module ProfilePage {
  import opened Common

  /** 5 MiB: the largest avatar accepted, in bytes. */
  const MaxAvatarBytes: nat := 5 * 1024 * 1024

  const AllowedAvatarTypes: seq<string> := ["image/png", "image/jpeg", "image/webp"]

  const MinUsernameLength: nat := 3
  const MaxUsernameLength: nat := 32

  datatype AvatarFile = AvatarFile(size: nat, mimeType: string)

  /** The signed-in user as the auth context holds it. */
  datatype AuthUser = AuthUser(id: string, username: string, avatarUrl: Option<string>)

  /** A toast; `description` is absent when the thrown value had no message. */
  datatype Toast = Toast(title: string, description: Option<string>, destructive: bool)

  /**
   * The profile row the update hands back (`select().single()`); an absent
   * column is a null in the row.
   */
  datatype ProfileRow = ProfileRow(username: Option<string>, bio: Option<string>, avatarUrl: Option<string>)

  /** `value || ''` on a nullable text column. */
  function OrEmpty(v: Option<string>): (s: string)
    ensures v.None? ==> s == ""
    ensures v.Some? ==> s == v.value
  {
    if v.Some? then v.value else ""
  }

  /** The fields sent to the profile update. */
  datatype ProfileUpdate =
    | AvatarOnly(avatarUrl: string)
    | Details(username: string, bio: string, avatarUrl: string)

  /** The file checks, size first: the message of the first one that fails. */
  function AvatarProblem(f: AvatarFile): (err: Option<string>)
    ensures f.size > MaxAvatarBytes ==> err == Some("File size must be less than 5MB")
    ensures err.None? <==> f.size <= MaxAvatarBytes && f.mimeType in AllowedAvatarTypes
  {
    if f.size > MaxAvatarBytes then Some("File size must be less than 5MB")
    else if f.mimeType !in AllowedAvatarTypes then Some("Only PNG, JPG, and WebP are allowed")
    else None
  }

  /** The username checks of `handleSave`, in order: blank, length in UTF-16 code units, characters. */
  function UsernameProblem(username: string): (err: Option<string>)
    ensures IsBlank(username) ==> err == Some("Username is required")
  {
    if IsBlank(username) then Some("Username is required")
    else if Utf16Length(username) < MinUsernameLength || Utf16Length(username) > MaxUsernameLength then
      Some("Username must be 3-32 characters")
    else if !IsNameToken(username) then Some("Username can only contain letters, numbers, _ and -")
    else None
  }

  /** Letters, digits, '_' and '-' are not whitespace, so a name token is never blank. */
  lemma NameTokenIsNotBlank(s: string)
    requires IsNameToken(s)
    ensures !IsBlank(s)
  {
    assert IsNameChar(s[0]);
  }

  /** A username passes exactly when it is a name token of 3 to 32 characters. */
  lemma UsernameAcceptedExactly(username: string)
    ensures UsernameProblem(username).None? <==>
      IsNameToken(username) && MinUsernameLength <= |username| <= MaxUsernameLength
  {
    if IsNameToken(username) {
      NameTokenIsNotBlank(username);
      forall i | 0 <= i < |username|
        ensures username[i] < '\U{10000}'
      {
        assert IsNameChar(username[i]);
      }
    }
  }

  /**
   * The length is checked on the text as typed, before trimming: padding
   * a short name with spaces gets past the length check, and the
   * character check then refuses it.
   */
  lemma PaddedShortNameFailsOnCharacters()
    ensures UsernameProblem("  ab") == Some("Username can only contain letters, numbers, _ and -")
  {
    assert !IsBlank("  ab") by { assert !IsJsWhitespace("  ab"[2]); }
    assert Utf16Length("  ab") == 4;
    assert !IsNameChar("  ab"[0]);
  }

  class ProfileEditor {
    var user: Option<AuthUser>
    var username: string
    var bio: string
    var avatarUrl: string
    var usernameError: string
    var saving: bool
    var uploading: bool
    var toasts: seq<Toast>
    /** Files handed to the avatar upload, with the id of the user uploading them. */
    var uploads: seq<(string, AvatarFile)>
    var updates: seq<ProfileUpdate>

    constructor (user: Option<AuthUser>, username: string, bio: string, avatarUrl: string)
      ensures this.user == user && this.username == username && this.bio == bio && this.avatarUrl == avatarUrl
      ensures usernameError == "" && !saving && !uploading && toasts == [] && uploads == [] && updates == []
    {
      this.user, this.username, this.bio, this.avatarUrl := user, username, bio, avatarUrl;
      usernameError, saving, uploading := "", false, false;
      toasts, uploads, updates := [], [], [];
    }

    /** Typing in the username input replaces the username and nothing else. */
    method TypeUsername(text: string)
      modifies this
      ensures username == text
      ensures user == old(user) && bio == old(bio) && avatarUrl == old(avatarUrl) && usernameError == old(usernameError)
      ensures saving == old(saving) && uploading == old(uploading)
      ensures toasts == old(toasts) && uploads == old(uploads) && updates == old(updates)
    {
      username := text;
    }

    /** Typing in the bio box replaces the bio and nothing else. */
    method TypeBio(text: string)
      modifies this
      ensures bio == text
      ensures user == old(user) && username == old(username) && avatarUrl == old(avatarUrl) && usernameError == old(usernameError)
      ensures saving == old(saving) && uploading == old(uploading)
      ensures toasts == old(toasts) && uploads == old(uploads) && updates == old(updates)
    {
      bio := text;
    }

    /**
     * `handleAvatarUpload`: nothing without a file or a user; a file that
     * fails a check is refused with a toast before any upload; otherwise
     * the file is uploaded (`upload` is the stored URL or the failure) and
     * the profile updated with the URL (`saved` is the row the update
     * hands back), and only when both succeed do the page and the
     * signed-in user show the new avatar. A successful update replaces
     * the hook's profile, and the page's effect then refills the three
     * fields from that row, so the fields end up as the row's values.
     */
    method HandleAvatarUpload(file: Option<AvatarFile>, upload: Fetch<string>, saved: Fetch<ProfileRow>)
      modifies this
      ensures file.None? || old(user).None? ==>
        toasts == old(toasts) && uploads == old(uploads) && updates == old(updates) && avatarUrl == old(avatarUrl) && user == old(user)
      ensures file.Some? && old(user).Some? && AvatarProblem(file.value).Some? ==>
        && toasts == old(toasts) + [Toast("Error", AvatarProblem(file.value), true)]
        && uploads == old(uploads) && updates == old(updates) && avatarUrl == old(avatarUrl) && user == old(user)
      ensures file.Some? && old(user).Some? && AvatarProblem(file.value).None? ==>
        uploads == old(uploads) + [(old(user).value.id, file.value)]
      ensures file.Some? && old(user).Some? && AvatarProblem(file.value).None? && upload.Failed? ==>
        && toasts == old(toasts) + [Toast("Error", upload.message, true)]
        && updates == old(updates) && avatarUrl == old(avatarUrl) && user == old(user)
      ensures file.Some? && old(user).Some? && AvatarProblem(file.value).None? && upload.Fetched? ==>
        updates == old(updates) + [AvatarOnly(upload.value)]
      ensures file.Some? && old(user).Some? && AvatarProblem(file.value).None? && upload.Fetched? && saved.Failed? ==>
        toasts == old(toasts) + [Toast("Error", saved.message, true)] && avatarUrl == old(avatarUrl) && user == old(user)
      ensures file.Some? && old(user).Some? && AvatarProblem(file.value).None? && upload.Fetched? && saved.Fetched? ==>
        && toasts == old(toasts) + [Toast("Success", Some("Avatar uploaded"), false)]
        && user == Some(old(user).value.(avatarUrl := Some(upload.value)))
        && username == OrEmpty(saved.value.username) && bio == OrEmpty(saved.value.bio)
        && avatarUrl == OrEmpty(saved.value.avatarUrl)
      ensures !(file.Some? && old(user).Some? && AvatarProblem(file.value).None? && upload.Fetched? && saved.Fetched?) ==>
        username == old(username) && bio == old(bio)
      ensures !uploading || uploading == old(uploading)
      ensures usernameError == old(usernameError) && saving == old(saving)
    {
      if file.None? || user.None? {
        return;
      }
      var problem := AvatarProblem(file.value);
      if problem.Some? {
        toasts := toasts + [Toast("Error", problem, true)];
        return;
      }
      uploading := true;
      uploads := uploads + [(user.value.id, file.value)];
      match upload {
        case Failed(message) =>
          toasts := toasts + [Toast("Error", message, true)];
        case Fetched(url) =>
          updates := updates + [AvatarOnly(url)];
          match saved {
            case Failed(message) =>
              toasts := toasts + [Toast("Error", message, true)];
            case Fetched(row) =>
              avatarUrl := url;
              user := Some(user.value.(avatarUrl := Some(url)));
              toasts := toasts + [Toast("Success", Some("Avatar uploaded"), false)];
              username, bio, avatarUrl := OrEmpty(row.username), OrEmpty(row.bio), OrEmpty(row.avatarUrl);
          }
      }
      uploading := false;
    }

    /**
     * `handleSave`: a username that fails a check only sets the username
     * error. Otherwise the error is cleared and the profile update is
     * requested (`saved` is its outcome). On success the signed-in user
     * takes the new username and avatar and a toast confirms; a failure
     * whose message mentions "taken" becomes the username error, any other
     * failure a toast. A failure without a message makes the handler
     * itself throw while reading it, so nothing is shown. As with the
     * avatar, a successful update refills the fields from the row it
     * hands back (`saved`).
     */
    method HandleSave(saved: Fetch<ProfileRow>)
      modifies this
      ensures UsernameProblem(old(username)).Some? ==>
        usernameError == UsernameProblem(old(username)).value && updates == old(updates) && toasts == old(toasts) &&
        user == old(user)
      ensures UsernameProblem(old(username)).None? ==> updates == old(updates) + [Details(old(username), old(bio), old(avatarUrl))]
      ensures UsernameProblem(old(username)).None? && saved.Fetched? ==>
        && usernameError == "" && toasts == old(toasts) + [Toast("Success", Some("Profile updated"), false)]
        && user == (if old(user).Some? then Some(old(user).value.(username := old(username), avatarUrl := Some(old(avatarUrl)))) else None)
      ensures UsernameProblem(old(username)).None? && saved.Failed? && saved.message.Some? && Includes(saved.message.value, "taken") ==>
        usernameError == "This username is already taken" && toasts == old(toasts) && user == old(user)
      ensures UsernameProblem(old(username)).None? && saved.Failed? && saved.message.Some? && !Includes(saved.message.value, "taken") ==>
        usernameError == "" && toasts == old(toasts) + [Toast("Error", saved.message, true)] && user == old(user)
      ensures UsernameProblem(old(username)).None? && saved == Failed(None) ==>
        usernameError == "" && toasts == old(toasts) && user == old(user)
      ensures !saving || saving == old(saving)
      ensures UsernameProblem(old(username)).None? && saved.Fetched? ==>
        && username == OrEmpty(saved.value.username) && bio == OrEmpty(saved.value.bio)
        && avatarUrl == OrEmpty(saved.value.avatarUrl)
      ensures UsernameProblem(old(username)).Some? || saved.Failed? ==>
        username == old(username) && bio == old(bio) && avatarUrl == old(avatarUrl)
      ensures uploads == old(uploads) && uploading == old(uploading)
    {
      var problem := UsernameProblem(username);
      if problem.Some? {
        usernameError := problem.value;
        return;
      }
      saving := true;
      usernameError := "";
      updates := updates + [Details(username, bio, avatarUrl)];
      match saved {
        case Fetched(row) =>
          if user.Some? {
            user := Some(user.value.(username := username, avatarUrl := Some(avatarUrl)));
          }
          toasts := toasts + [Toast("Success", Some("Profile updated"), false)];
          username, bio, avatarUrl := OrEmpty(row.username), OrEmpty(row.bio), OrEmpty(row.avatarUrl);
        case Failed(message) =>
          if message.Some? {
            if Includes(message.value, "taken") {
              usernameError := "This username is already taken";
            } else {
              toasts := toasts + [Toast("Error", message, true)];
            }
          }
      }
      saving := false;
    }
  }
}
