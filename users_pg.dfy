// server/routes/users-pg.js: validation, the UPDATE builder and the ownership rules of
// the user routes. Lookups (does the user exist, is a name or address taken), the
// generated id and the password hash are parameters; the queries themselves and the
// audit log are not modelled. A body field is None when it is absent.

module UsersPg {
  import opened StrUtil
  import opened SqlUpdate
  import Auth

  /** A JavaScript truthy string: present and not empty. */
  predicate Truthy(s: Option<string>) { s.Some? && s.value != [] }

  // ---------------------------------------------------------------------
  // The email test /^[^\s@]+@[^\s@]+\.[^\s@]+$/

  /** `[^\s@]`. */
  predicate EmailChar(c: char) { c != '@' && !White(JsSpace, c) }

  /** `[^\s@]+`. */
  predicate Plain(s: string) { s != [] && forall i :: 0 <= i < |s| ==> EmailChar(s[i]) }

  /** The pattern read literally: some '@' at `a` and some '.' at `k` cut the address
      into three non-empty runs of characters that are neither white space nor '@'. */
  predicate EmailPattern(e: string)
  {
    exists a, k :: 0 < a < k < |e| - 1 && e[a] == '@' && e[k] == '.'
      && Plain(e[..a]) && Plain(e[a + 1..k]) && Plain(e[k + 1..])
  }

  /** The test as a direct check: no white space, a single '@' with something before
      it, and a '.' in the domain that is neither its first nor its last character. */
  predicate ValidEmail(e: string)
  {
    (forall i :: 0 <= i < |e| ==> !White(JsSpace, e[i]))
    && match LastIndexOf(e, '@')
       case None => false
       case Some(a) =>
         var d := e[a + 1..];
         0 < a && '@' !in e[..a] && |d| >= 3 && '.' in d[1..|d| - 1]
  }

  /** The direct check accepts exactly the addresses the pattern matches. */
  lemma ValidEmailIsPattern(e: string)
    ensures ValidEmail(e) <==> EmailPattern(e)
  {
    if ValidEmail(e) {
      ValidEmailMatches(e);
    }
    if EmailPattern(e) {
      var a, k :| 0 < a < k < |e| - 1 && e[a] == '@' && e[k] == '.'
        && Plain(e[..a]) && Plain(e[a + 1..k]) && Plain(e[k + 1..]);
      PatternValid(e, a, k);
    }
  }

  lemma ValidEmailMatches(e: string)
    requires ValidEmail(e)
    ensures EmailPattern(e)
  {
    var a := LastIndexOf(e, '@').value;
    LastIndexOfAfter(e, '@');
    var d := e[a + 1..];
    assert 0 < a && '@' !in e[..a] && |d| >= 3 && '.' in d[1..|d| - 1];
    var inner := d[1..|d| - 1];
    var m :| 0 <= m < |inner| && inner[m] == '.';
    var k := a + 2 + m;
    assert inner[m] == e[k];
    forall i | 0 <= i < a ensures EmailChar(e[..a][i]) {
      assert e[..a][i] in e[..a];
    }
    var host, tld := e[a + 1..k], e[k + 1..];
    forall i | 0 <= i < |host| ensures EmailChar(host[i]) {
      assert host[i] == e[a + 1 + i];
    }
    forall i | 0 <= i < |tld| ensures EmailChar(tld[i]) {
      assert tld[i] == e[k + 1 + i];
    }
  }

  lemma PatternValid(e: string, a: nat, k: nat)
    requires 0 < a < k < |e| - 1 && e[a] == '@' && e[k] == '.'
    requires Plain(e[..a]) && Plain(e[a + 1..k]) && Plain(e[k + 1..])
    ensures ValidEmail(e)
  {
    forall i | 0 <= i < |e| ensures EmailChar(e[i]) || i == a || i == k {
      if i < a {
        assert e[i] == e[..a][i];
      } else if a < i < k {
        assert e[i] == e[a + 1..k][i - a - 1];
      } else if k < i {
        assert e[i] == e[k + 1..][i - k - 1];
      }
    }
    assert forall i :: 0 <= i < |e| ==> !White(JsSpace, e[i]);
    LastIndexOfIs(e, a, '@');
    assert '@' !in e[..a] by {
      forall i | 0 <= i < a ensures e[..a][i] != '@' {
        assert EmailChar(e[..a][i]);
      }
    }
    var d := e[a + 1..];
    assert d[1..|d| - 1][k - a - 2] == e[k];
  }

  /** "name@host.tld" passes; an address without a dot after the '@', or with a space,
      does not. */
  lemma EmailExamples()
    ensures ValidEmail("a@b.c")
    ensures !EmailPattern("a@bc")
    ensures !EmailPattern("a b@c.d")
  {
    PatternValid("a@b.c", 1, 3);
    ValidEmailIsPattern("a@bc");
    ValidEmailIsPattern("a b@c.d");
    assert "a b@c.d"[1] == ' ';
    assert "a@bc"[2..][1..1] == [];
  }

  // ---------------------------------------------------------------------
  // Handlers

  /** A user as POST stores it. */
  datatype NewUser = NewUser(id: string, username: string, passwordHash: string, firstName: string,
                             lastName: string, email: Option<string>, isAdmin: bool)

  datatype Reply =
    | Fail(status: int, error: string)
    | UserCreated(user: NewUser)
    | UserUpdated(sql: string, params: seq<Param>)
    | UserDeleted
    | Allowed

  /** GET /api/users/search: a missing or blank q answers with no users and no query
      (None); otherwise the ILIKE pattern around the trimmed q. */
  function SearchPattern(q: Option<string>): (r: Option<string>)
    ensures r.None? <==> q.None? || Trim(q.value) == []
    ensures r.Some? ==> |r.value| >= 2 && StartsWith(r.value, "%") && EndsWith(r.value, "%")
                        && r.value[1..|r.value| - 1] == Trim(q.value)
  {
    if q.None? || Trim(q.value) == [] then None
    else
      var p := "%" + Trim(q.value) + "%";
      assert p[1..|p| - 1] == Trim(q.value);
      Some(p)
  }

  /** POST /api/users: the required fields, then the address's form, then a taken
      username, then a taken address. `id` is the generated id and `hash` the password
      hash; `usernameTaken` and `emailTaken` are the lookups' answers. */
  method Create(username: Option<string>, password: Option<string>, firstName: Option<string>,
                lastName: Option<string>, email: Option<string>, isAdmin: Option<bool>,
                usernameTaken: bool, emailTaken: bool, id: string, hash: string) returns (r: Reply)
    ensures !Truthy(username) || !Truthy(password) || !Truthy(firstName) ==>
      r == Fail(400, "Benutzername, Passwort und Vorname sind erforderlich.")
    ensures Truthy(username) && Truthy(password) && Truthy(firstName)
            && Truthy(email) && !ValidEmail(email.value) ==>
      r == Fail(400, "Ung\U{00FC}ltige Email-Adresse.")
    ensures r.Fail? && r.status == 409 ==> usernameTaken || (Truthy(email) && emailTaken)
    ensures r.UserCreated? <==>
      Truthy(username) && Truthy(password) && Truthy(firstName)
      && (Truthy(email) ==> ValidEmail(email.value) && !emailTaken) && !usernameTaken
    ensures r.UserCreated? ==> r.user == NewUser(id, username.value, hash, firstName.value,
      if Truthy(lastName) then lastName.value else "",
      if Truthy(email) then email else None,
      isAdmin == Some(true))
  {
    if !Truthy(username) || !Truthy(password) || !Truthy(firstName) {
      return Fail(400, "Benutzername, Passwort und Vorname sind erforderlich.");
    }
    if Truthy(email) && !ValidEmail(email.value) {
      return Fail(400, "Ung\U{00FC}ltige Email-Adresse.");
    }
    if usernameTaken {
      return Fail(409, "Benutzername bereits vergeben.");
    }
    if Truthy(email) && emailTaken {
      return Fail(409, "Email-Adresse bereits vergeben.");
    }
    var last := if Truthy(lastName) then lastName.value else "";
    var mail := if Truthy(email) then email else None;
    var admin := if isAdmin.Some? then isAdmin.value else false;
    return UserCreated(NewUser(id, username.value, hash, firstName.value, last, mail, admin));
  }

  /** The fields of a PUT body in the order the builder visits them, each with the
      value it binds when it is set: the username, the names and the flag whenever
      present, the address as NULL when blank, the password's hash only when the
      password is truthy. */
  function UpdateFields(username: Option<string>, firstName: Option<string>, lastName: Option<string>,
                        email: Option<string>, isAdmin: Option<bool>, password: Option<string>,
                        hash: string): seq<(string, Option<Param>)>
  {
    [("username", if username.Some? then Some(Text(username.value)) else None),
     ("first_name", if firstName.Some? then Some(Text(firstName.value)) else None),
     ("last_name", if lastName.Some? then Some(Text(lastName.value)) else None),
     ("email", if email.None? then None else if Trim(email.value) == [] then Some(Null) else Some(Text(email.value))),
     ("is_admin", if isAdmin.Some? then Some(Flag(isAdmin.value)) else None),
     ("password_hash", if Truthy(password) then Some(Text(hash)) else None)]
  }

  /** The columns of the fields that are set, in order. */
  function SetColumns(fields: seq<(string, Option<Param>)>): (r: seq<string>)
    ensures |r| <= |fields|
  {
    if fields == [] then []
    else
      var last := fields[|fields| - 1];
      SetColumns(fields[..|fields| - 1]) + (if last.1.Some? then [last.0] else [])
  }

  /** Their values, in the same order. */
  function SetValues(fields: seq<(string, Option<Param>)>): (r: seq<Param>)
    ensures |r| == |SetColumns(fields)|
  {
    if fields == [] then []
    else
      var last := fields[|fields| - 1];
      SetValues(fields[..|fields| - 1]) + (if last.1.Some? then [last.1.value] else [])
  }

  /** Nothing is set exactly when no field has a value. */
  lemma {:induction false} NothingSet(fields: seq<(string, Option<Param>)>)
    ensures SetColumns(fields) == [] <==> forall i :: 0 <= i < |fields| ==> fields[i].1.None?
  {
    if fields != [] {
      var front := fields[..|fields| - 1];
      NothingSet(front);
      assert forall i :: 0 <= i < |front| ==> front[i] == fields[i];
    }
  }

  /** Every set column is one of the fields with a value. */
  lemma {:induction false} SetColumnsFromFields(fields: seq<(string, Option<Param>)>, c: string)
    ensures c in SetColumns(fields) ==> exists i :: 0 <= i < |fields| && fields[i].0 == c && fields[i].1.Some?
  {
    if fields != [] {
      var front := fields[..|fields| - 1];
      SetColumnsFromFields(front, c);
      if c in SetColumns(front) {
        var i :| 0 <= i < |front| && front[i].0 == c && front[i].1.Some?;
        assert fields[i] == front[i];
      }
    }
  }

  /** A falsy password is not set, and a blank address binds NULL. */
  lemma PasswordAndEmailRules(username: Option<string>, firstName: Option<string>, lastName: Option<string>,
                              email: string, isAdmin: Option<bool>, hash: string)
    requires Trim(email) == []
    ensures var fields := UpdateFields(username, firstName, lastName, Some(email), isAdmin, Some(""), hash);
      fields[3].1 == Some(Null) && fields[5].1.None?
      && "password_hash" !in SetColumns(fields)
  {
    var fields := UpdateFields(username, firstName, lastName, Some(email), isAdmin, Some(""), hash);
    if "password_hash" in SetColumns(fields) {
      SetColumnsFromFields(fields, "password_hash");
    }
  }

  /** The builder of PUT: pushes each set field in order, the id last; None when nothing
      is set. */
  method BuildUpdate(userId: string, fields: seq<(string, Option<Param>)>)
    returns (sql: Option<string>, params: seq<Param>)
    requires |fields| == 6
    ensures sql.None? <==> SetColumns(fields) == []
    ensures sql.Some? ==> params == SetValues(fields) + [Text(userId)]
    ensures sql.Some? ==> sql.value == UpdateSql("users", SetColumns(fields), |params|)
  {
    var b := new UpdateBuilder();
    assert fields[..0] == [];
    PushThree(b, fields, 0);
    PushThree(b, fields, 3);
    assert fields[..6] == fields;
    sql, params := b.Statement("users", userId);
  }

  /** Fields k, k + 1 and k + 2 in turn. */
  method PushThree(b: UpdateBuilder, fields: seq<(string, Option<Param>)>, k: nat)
    requires k + 3 <= |fields| && b.Valid()
    requires b.columns == SetColumns(fields[..k]) && b.values == SetValues(fields[..k])
    modifies b
    ensures b.Valid()
    ensures b.columns == SetColumns(fields[..k + 3]) && b.values == SetValues(fields[..k + 3])
  {
    PushField(b, fields, k);
    PushField(b, fields, k + 1);
    PushField(b, fields, k + 2);
  }

  /** `if (field !== undefined) { updates.push(...); values.push(...) }` for field k. */
  method PushField(b: UpdateBuilder, fields: seq<(string, Option<Param>)>, k: nat)
    requires k < |fields| && b.Valid()
    requires b.columns == SetColumns(fields[..k]) && b.values == SetValues(fields[..k])
    modifies b
    ensures b.Valid()
    ensures b.columns == SetColumns(fields[..k + 1]) && b.values == SetValues(fields[..k + 1])
  {
    assert fields[..k + 1][..k] == fields[..k];
    if fields[k].1.Some? {
      b.Push(fields[k].0, fields[k].1.value);
    }
  }

  /** PUT /api/users/:userId: the address's form first (only when it is not blank),
      then existence, then a username or address taken by another user, then the
      builder; nothing to set gives 400. */
  method Update(userId: string, found: bool, username: Option<string>, password: Option<string>,
                firstName: Option<string>, lastName: Option<string>, email: Option<string>,
                isAdmin: Option<bool>, usernameTaken: bool, emailTaken: bool, hash: string)
    returns (r: Reply)
    ensures Truthy(email) && Trim(email.value) != [] && !ValidEmail(email.value) ==>
      r == Fail(400, "Ung\U{00FC}ltige Email-Adresse.")
    ensures !(Truthy(email) && Trim(email.value) != [] && !ValidEmail(email.value)) && !found ==>
      r == Fail(404, "Benutzer nicht gefunden.")
    ensures r.Fail? && r.status == 409 ==>
      (Truthy(username) && usernameTaken) || (Truthy(email) && Trim(email.value) != [] && emailTaken)
    ensures r.UserUpdated? ==>
      found && (Truthy(email) && Trim(email.value) != [] ==> ValidEmail(email.value) && !emailTaken)
      && (Truthy(username) ==> !usernameTaken)
    ensures r.UserUpdated? ==>
      var fields := UpdateFields(username, firstName, lastName, email, isAdmin, password, hash);
      SetColumns(fields) != [] && r.params == SetValues(fields) + [Text(userId)]
      && r.sql == UpdateSql("users", SetColumns(fields), |r.params|)
  {
    if Truthy(email) && Trim(email.value) != [] && !ValidEmail(email.value) {
      return Fail(400, "Ung\U{00FC}ltige Email-Adresse.");
    }
    if !found {
      return Fail(404, "Benutzer nicht gefunden.");
    }
    if Truthy(username) && usernameTaken {
      return Fail(409, "Benutzername bereits vergeben.");
    }
    if Truthy(email) && Trim(email.value) != [] && emailTaken {
      return Fail(409, "Email-Adresse bereits vergeben.");
    }
    var fields := UpdateFields(username, firstName, lastName, email, isAdmin, password, hash);
    var sql, params := BuildUpdate(userId, fields);
    if sql.None? {
      return Fail(400, "Keine \U{00C4}nderungen angegeben.");
    }
    return UserUpdated(sql.value, params);
  }

  /** DELETE /api/users/:userId: deleting oneself is refused before the user is even
      looked up. */
  method Delete(requester: Auth.Claims, userId: string, found: bool) returns (r: Reply)
    ensures userId == requester.id ==> r == Fail(400, "Sie k\U{00F6}nnen sich nicht selbst l\U{00F6}schen.")
    ensures userId != requester.id && !found ==> r == Fail(404, "Benutzer nicht gefunden.")
    ensures r == UserDeleted <==> userId != requester.id && found
  {
    if userId == requester.id {
      return Fail(400, "Sie k\U{00F6}nnen sich nicht selbst l\U{00F6}schen.");
    }
    if !found {
      return Fail(404, "Benutzer nicht gefunden.");
    }
    return UserDeleted;
  }

  // ---------------------------------------------------------------------
  // Ownership: an admin may read another user's transcriptions, but not their upload
  // directory.

  /** GET /:userId/transcriptions and GET /:userId/last-transcription: the owner or an
      admin. */
  method TranscriptionsAccess(requester: Auth.Claims, userId: string, lastOnly: bool) returns (r: Reply)
    ensures r == Allowed <==> TranscriptionsAllowed(requester, userId)
    ensures r != Allowed ==> r.Fail? && r.status == 403
  {
    if requester.id != userId && !requester.isAdmin {
      if lastOnly {
        return Fail(403, "Keine Berechtigung.");
      }
      return Fail(403, "Zugriff verweigert. Sie k\U{00F6}nnen nur Ihre eigenen Transkriptionen sehen.");
    }
    return Allowed;
  }

  /** PATCH and GET /:userId/upload-directory: only the user, admins included. */
  method UploadDirectoryAccess(requester: Auth.Claims, userId: string, write: bool) returns (r: Reply)
    ensures r == Allowed <==> DirectoryAllowed(requester, userId)
    ensures r != Allowed ==> r.Fail? && r.status == 403
  {
    if userId != requester.id {
      if write {
        return Fail(403, "Keine Berechtigung, das Verzeichnis eines anderen Benutzers zu \U{00E4}ndern.");
      }
      return Fail(403, "Keine Berechtigung.");
    }
    return Allowed;
  }

  /** The owner or an admin. */
  predicate TranscriptionsAllowed(requester: Auth.Claims, userId: string)
  {
    requester.id == userId || requester.isAdmin
  }

  /** Only the user, whether admin or not. */
  predicate DirectoryAllowed(requester: Auth.Claims, userId: string)
  {
    requester.id == userId
  }
}
