// server/routes/publicAccess.js: public access by short id, with the owner's first name
// as the password. The database lookups are parameters: the user with the given id, and
// the transcription with the given id joined with its owner. The audit log, the token's
// signature and expiry, and the transcription list of /user are not modelled.

module PublicAccess {
  import opened StrUtil
  import opened ShortId
  import Auth

  /** A user as the lookups return it. */
  datatype Owner = Owner(id: string, username: string, firstName: string, lastName: string)

  /** A transcription joined with its owner. */
  datatype Mp3Row = Mp3Row(mp3Filename: string, text: string, hasSummary: Option<bool>, owner: Owner)

  datatype Kind = UserKind | Mp3Kind

  datatype Reply =
    | Fail(status: int, error: string)
    | CheckedUser(name: string)
    | CheckedMp3(mp3Filename: string, author: string)
    | Verified(kind: Kind, claims: Auth.Claims, user: Owner)
    | UserPage(userId: string, name: string)
    | Mp3Page(mp3Filename: string, text: string, hasSummary: bool, author: string, editMode: bool)

  /** `${first_name} ${last_name}`.trim(). */
  function FullName(o: Owner): string
  {
    Trim(o.firstName + " " + o.lastName)
  }

  /** The password check of every route: a truthy password equal to the owner's first
      name once both are lower-cased. */
  predicate PasswordMatches(password: Option<string>, o: Owner)
  {
    password.Some? && password.value != [] && Lower(password.value) == Lower(o.firstName)
  }

  /** The owner's first name is accepted in any letter case, lower-cased included; an
      empty first name accepts no password at all. */
  lemma FirstNameOpens(o: Owner)
    ensures PasswordMatches(Some(o.firstName), o) <==> o.firstName != []
    ensures o.firstName != [] ==> PasswordMatches(Some(Lower(o.firstName)), o)
  {
    LowerIdempotent(o.firstName);
  }

  /** GET /api/public/check/:id: the format first, then the kind the first character
      names, then the lookup of that kind. The final "Ungültige ID." branch is never
      taken for an id of valid format (see ShortId.ExactlyOneKind). */
  method Check(id: string, user: Option<Owner>, mp3: Option<Mp3Row>) returns (r: Reply)
    ensures !IsValidIdFormat(id) ==>
      r == Fail(400, "Ung\U{00FC}ltige ID. IDs m\U{00FC}ssen 6 alphanumerische Zeichen sein.")
    ensures IsValidIdFormat(id) && IsUserIdPattern(id) && user.None? ==>
      r == Fail(404, "Benutzer nicht gefunden.")
    ensures IsValidIdFormat(id) && !IsUserIdPattern(id) && IsMp3IdPattern(id) && mp3.None? ==>
      r == Fail(404, "MP3-Transkription nicht gefunden.")
    ensures r.CheckedUser? <==> IsValidIdFormat(id) && IsUserIdPattern(id) && user.Some?
    ensures r.CheckedUser? ==> r.name == FullName(user.value)
    ensures r.CheckedMp3? <==> IsValidIdFormat(id) && !IsUserIdPattern(id) && IsMp3IdPattern(id) && mp3.Some?
    ensures r.CheckedMp3? ==> r.mp3Filename == mp3.value.mp3Filename && r.author == FullName(mp3.value.owner)
    ensures r == Fail(400, "Ung\U{00FC}ltige ID.") ==> !IsUserIdPattern(id) && !IsMp3IdPattern(id)
  {
    if !IsValidIdFormat(id) {
      return Fail(400, "Ung\U{00FC}ltige ID. IDs m\U{00FC}ssen 6 alphanumerische Zeichen sein.");
    }
    if IsUserIdPattern(id) {
      if user.None? {
        return Fail(404, "Benutzer nicht gefunden.");
      }
      return CheckedUser(FullName(user.value));
    } else if IsMp3IdPattern(id) {
      if mp3.None? {
        return Fail(404, "MP3-Transkription nicht gefunden.");
      }
      return CheckedMp3(mp3.value.mp3Filename, FullName(mp3.value.owner));
    } else {
      return Fail(400, "Ung\U{00FC}ltige ID.");
    }
  }

  /** The owner whose first name a verification compares against: the user itself for a
      user id, the transcription's owner for an MP3 id. */
  function OwnerOf(id: string, user: Option<Owner>, mp3: Option<Mp3Row>): Option<Owner>
  {
    if IsUserIdPattern(id) then user
    else if IsMp3IdPattern(id) then (if mp3.Some? then Some(mp3.value.owner) else None)
    else None
  }

  /** POST /api/public/verify/:id: a missing password is refused before the id is
      looked at; then the format, the lookup, and the password. A success issues a
      public, non-admin token for the owner, also when the id names a transcription. */
  method Verify(id: string, password: Option<string>, user: Option<Owner>, mp3: Option<Mp3Row>)
    returns (r: Reply)
    ensures password.None? || password.value == [] ==> r == Fail(400, "Passwort erforderlich.")
    ensures password.Some? && password.value != [] && !IsValidIdFormat(id) ==>
      r == Fail(400, "Ung\U{00FC}ltige ID.")
    ensures password.Some? && password.value != [] && IsValidIdFormat(id) && IsUserIdPattern(id) && user.None? ==>
      r == Fail(404, "Benutzer nicht gefunden.")
    ensures password.Some? && password.value != [] && IsValidIdFormat(id)
            && !IsUserIdPattern(id) && IsMp3IdPattern(id) && mp3.None? ==>
      r == Fail(404, "MP3-Transkription nicht gefunden.")
    ensures IsValidIdFormat(id) && OwnerOf(id, user, mp3).Some? && password.Some? && password.value != []
            && !PasswordMatches(password, OwnerOf(id, user, mp3).value) ==>
      r == Fail(401, "Falsches Passwort.")
    ensures r.Verified? <==>
      IsValidIdFormat(id) && OwnerOf(id, user, mp3).Some? && PasswordMatches(password, OwnerOf(id, user, mp3).value)
    ensures r.Verified? ==>
      r.user == OwnerOf(id, user, mp3).value && r.claims == Auth.Claims(r.user.id, false, true)
      && (r.kind == UserKind <==> IsUserIdPattern(id))
  {
    if password.None? || password.value == [] {
      return Fail(400, "Passwort erforderlich.");
    }
    if !IsValidIdFormat(id) {
      return Fail(400, "Ung\U{00FC}ltige ID.");
    }
    var owner: Owner;
    if IsUserIdPattern(id) {
      if user.None? {
        return Fail(404, "Benutzer nicht gefunden.");
      }
      owner := user.value;
    } else if IsMp3IdPattern(id) {
      if mp3.None? {
        return Fail(404, "MP3-Transkription nicht gefunden.");
      }
      owner := mp3.value.owner;
    } else {
      return Fail(400, "Ung\U{00FC}ltige ID.");
    }
    if Lower(password.value) != Lower(owner.firstName) {
      return Fail(401, "Falsches Passwort.");
    }
    var kind := if IsUserIdPattern(id) then UserKind else Mp3Kind;
    return Verified(kind, Auth.Claims(owner.id, false, true), owner);
  }

  /** For an MP3 id the token names the transcription's owner, never the id itself. */
  lemma Mp3TokenForOwner(id: string, user: Option<Owner>, mp3: Mp3Row)
    requires IsValidIdFormat(id) && IsMp3IdPattern(id)
    ensures OwnerOf(id, user, Some(mp3)) == Some(mp3.owner)
  {
    ExactlyOneKind(id);
  }

  /** GET /api/public/user/:id: only a user id of valid format, then the lookup, then
      the password again from the query. */
  method UserPageOf(id: string, pw: Option<string>, user: Option<Owner>) returns (r: Reply)
    ensures !(IsValidIdFormat(id) && IsUserIdPattern(id)) ==> r == Fail(400, "Ung\U{00FC}ltige Benutzer-ID.")
    ensures IsValidIdFormat(id) && IsUserIdPattern(id) && user.None? ==> r == Fail(404, "Benutzer nicht gefunden.")
    ensures IsValidIdFormat(id) && IsUserIdPattern(id) && user.Some? && !PasswordMatches(pw, user.value) ==>
      r == Fail(401, "Passwort erforderlich oder falsch.")
    ensures r.UserPage? <==> IsValidIdFormat(id) && IsUserIdPattern(id) && user.Some? && PasswordMatches(pw, user.value)
    ensures r.UserPage? ==> r.userId == user.value.id && r.name == FullName(user.value)
  {
    if !IsValidIdFormat(id) || !IsUserIdPattern(id) {
      return Fail(400, "Ung\U{00FC}ltige Benutzer-ID.");
    }
    if user.None? {
      return Fail(404, "Benutzer nicht gefunden.");
    }
    if pw.None? || pw.value == [] || Lower(pw.value) != Lower(user.value.firstName) {
      return Fail(401, "Passwort erforderlich oder falsch.");
    }
    return UserPage(user.value.id, FullName(user.value));
  }

  /** GET /api/public/mp3/:id: only an MP3 id of valid format, then the lookup, then the
      password against the owner's first name; the transcription is always read-only. */
  method Mp3PageOf(id: string, pw: Option<string>, mp3: Option<Mp3Row>) returns (r: Reply)
    ensures !(IsValidIdFormat(id) && IsMp3IdPattern(id)) ==> r == Fail(400, "Ung\U{00FC}ltige MP3-ID.")
    ensures IsValidIdFormat(id) && IsMp3IdPattern(id) && mp3.None? ==> r == Fail(404, "MP3-Transkription nicht gefunden.")
    ensures IsValidIdFormat(id) && IsMp3IdPattern(id) && mp3.Some? && !PasswordMatches(pw, mp3.value.owner) ==>
      r == Fail(401, "Passwort erforderlich oder falsch.")
    ensures r.Mp3Page? <==> IsValidIdFormat(id) && IsMp3IdPattern(id) && mp3.Some? && PasswordMatches(pw, mp3.value.owner)
    ensures r.Mp3Page? ==>
      r.mp3Filename == mp3.value.mp3Filename && r.text == mp3.value.text
      && r.hasSummary == (mp3.value.hasSummary == Some(true))
      && r.author == FullName(mp3.value.owner) && !r.editMode
  {
    if !IsValidIdFormat(id) || !IsMp3IdPattern(id) {
      return Fail(400, "Ung\U{00FC}ltige MP3-ID.");
    }
    if mp3.None? {
      return Fail(404, "MP3-Transkription nicht gefunden.");
    }
    var m := mp3.value;
    if pw.None? || pw.value == [] || Lower(pw.value) != Lower(m.owner.firstName) {
      return Fail(401, "Passwort erforderlich oder falsch.");
    }
    return Mp3Page(m.mp3Filename, m.text, m.hasSummary == Some(true), FullName(m.owner), false);
  }
}
