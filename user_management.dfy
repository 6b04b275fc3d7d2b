// client/src/components/admin/UserManagement.js: the admin's user table. The sort
// order of the table, the selection, the inline editing with its save on blur, and the
// list updates after a save, a create or a delete. The answers of the user service are
// parameters; rendering, the timers that clear messages and the transcription list of
// the selected user are not modelled.

module UserManagement {
  import opened StrUtil

  /** A user as the table holds it; absent values are None. */
  datatype Row = Row(id: string, username: Option<string>, firstName: Option<string>,
                     lastName: Option<string>, email: Option<string>, transcriptionCount: Option<nat>)

  /** The columns whose headers sort. */
  datatype Column = FirstName | LastName | Username | Email | TranscriptionCount

  datatype Order = Asc | Desc

  // ---------------------------------------------------------------------
  // The comparator

  /** JavaScript's `<` on strings: lexicographic by character, a proper prefix first. */
  predicate StrBelow(a: string, b: string)
    decreases |a|
  {
    if a == [] then b != []
    else if b == [] then false
    else if a[0] != b[0] then a[0] < b[0]
    else StrBelow(a[1..], b[1..])
  }

  lemma {:induction false} StrBelowIrreflexive(a: string)
    ensures !StrBelow(a, a)
    decreases |a|
  {
    if a != [] {
      StrBelowIrreflexive(a[1..]);
    }
  }

  lemma {:induction false} StrBelowAsymmetric(a: string, b: string)
    ensures !(StrBelow(a, b) && StrBelow(b, a))
    decreases |a|
  {
    if a != [] && b != [] && a[0] == b[0] {
      StrBelowAsymmetric(a[1..], b[1..]);
    }
  }

  lemma {:induction false} StrBelowTotal(a: string, b: string)
    ensures a == b || StrBelow(a, b) || StrBelow(b, a)
    decreases |a|
  {
    if a != [] && b != [] && a[0] == b[0] {
      StrBelowTotal(a[1..], b[1..]);
      if a[1..] == b[1..] {
        assert a == [a[0]] + a[1..] && b == [b[0]] + b[1..];
      }
    }
  }

  lemma {:induction false} StrBelowTransitive(a: string, b: string, c: string)
    requires StrBelow(a, b) && StrBelow(b, c)
    ensures StrBelow(a, c)
    decreases |a|
  {
    if a != [] && a[0] == b[0] && b[0] == c[0] {
      StrBelowTransitive(a[1..], b[1..], c[1..]);
    }
  }

  /** The value a column compares by. */
  datatype Key = Count(n: int) | Text(s: string)

  /** `a[sortBy] || ''`, then `parseInt(..) || 0` for the count and the lower-cased
      string for every other column; an absent count (or 0, which is falsy) is 0. */
  function SortKey(u: Row, col: Column): Key
  {
    match col
    case TranscriptionCount => Count(if u.transcriptionCount.Some? then u.transcriptionCount.value else 0)
    case FirstName => Text(Lower(if u.firstName.Some? then u.firstName.value else ""))
    case LastName => Text(Lower(if u.lastName.Some? then u.lastName.value else ""))
    case Username => Text(Lower(if u.username.Some? then u.username.value else ""))
    case Email => Text(Lower(if u.email.Some? then u.email.value else ""))
  }

  /** `aVal < bVal` on two keys of one column (a count and a text never meet). */
  predicate KeyBelow(x: Key, y: Key)
  {
    match (x, y)
    case (Count(m), Count(n)) => m < n
    case (Text(s), Text(t)) => StrBelow(s, t)
    case (Count(_), Text(_)) => true
    case (Text(_), Count(_)) => false
  }

  lemma KeyBelowIrreflexive(x: Key)
    ensures !KeyBelow(x, x)
  {
    if x.Text? {
      StrBelowIrreflexive(x.s);
    }
  }

  lemma KeyBelowAsymmetric(x: Key, y: Key)
    ensures !(KeyBelow(x, y) && KeyBelow(y, x))
  {
    if x.Text? && y.Text? {
      StrBelowAsymmetric(x.s, y.s);
    }
  }

  lemma KeyBelowTotal(x: Key, y: Key)
    ensures x == y || KeyBelow(x, y) || KeyBelow(y, x)
  {
    if x.Text? && y.Text? {
      StrBelowTotal(x.s, y.s);
    }
  }

  lemma KeyBelowTransitive(x: Key, y: Key, z: Key)
    requires KeyBelow(x, y) && KeyBelow(y, z)
    ensures KeyBelow(x, z)
  {
    if x.Text? && y.Text? && z.Text? {
      StrBelowTransitive(x.s, y.s, z.s);
    }
  }

  /** The comparator of `sortedUsers`: -1, 0 or 1; 0 exactly for equal keys, and
      negative exactly when `a`'s key comes first in the chosen order. */
  function Compare(a: Row, b: Row, col: Column, order: Order): (r: int)
    ensures r == -1 || r == 0 || r == 1
    ensures r == 0 <==> SortKey(a, col) == SortKey(b, col)
    ensures r < 0 <==> if order == Asc then KeyBelow(SortKey(a, col), SortKey(b, col))
                       else KeyBelow(SortKey(b, col), SortKey(a, col))
  {
    var x, y := SortKey(a, col), SortKey(b, col);
    KeyBelowTotal(x, y);
    KeyBelowIrreflexive(x);
    KeyBelowAsymmetric(x, y);
    if KeyBelow(x, y) then (if order == Asc then -1 else 1)
    else if KeyBelow(y, x) then (if order == Asc then 1 else -1)
    else 0
  }

  /** Descending is exactly the reverse of ascending. */
  lemma DescReversesAsc(a: Row, b: Row, col: Column)
    ensures Compare(a, b, col, Desc) == -Compare(a, b, col, Asc)
  {
    KeyBelowAsymmetric(SortKey(a, col), SortKey(b, col));
  }

  /** Swapping the arguments negates the answer, as `Array.prototype.sort` expects of a
      consistent comparator. */
  lemma CompareAntisymmetric(a: Row, b: Row, col: Column, order: Order)
    ensures Compare(b, a, col, order) == -Compare(a, b, col, order)
  {
    KeyBelowAsymmetric(SortKey(a, col), SortKey(b, col));
  }

  /** Letter case does not matter for the text columns. */
  lemma CaseIgnored(a: Row, name: string)
    ensures SortKey(a.(firstName := Some(Lower(name))), FirstName) == SortKey(a.(firstName := Some(name)), FirstName)
  {
    LowerIdempotent(name);
  }

  // ---------------------------------------------------------------------
  // sortedUsers

  /** `a` may stand before `b`: the comparator does not put `b` first. */
  predicate Le(a: Row, b: Row, col: Column, order: Order)
  {
    Compare(a, b, col, order) <= 0
  }

  lemma LeTotal(a: Row, b: Row, col: Column, order: Order)
    ensures Le(a, b, col, order) || Le(b, a, col, order)
  {
    CompareAntisymmetric(a, b, col, order);
  }

  lemma LeTransitive(a: Row, b: Row, c: Row, col: Column, order: Order)
    requires Le(a, b, col, order) && Le(b, c, col, order)
    ensures Le(a, c, col, order)
  {
    var x, y, z := SortKey(a, col), SortKey(b, col), SortKey(c, col);
    if order == Asc && KeyBelow(x, y) && KeyBelow(y, z) {
      KeyBelowTransitive(x, y, z);
    } else if order == Desc && KeyBelow(z, y) && KeyBelow(y, x) {
      KeyBelowTransitive(z, y, x);
    }
  }

  /** Every pair of users is in comparator order. */
  predicate Sorted(s: seq<Row>, col: Column, order: Order)
  {
    forall i, j :: 0 <= i < j < |s| ==> Le(s[i], s[j], col, order)
  }

  /** `u` put before the first user the comparator places strictly after it. */
  function Insert(sorted: seq<Row>, u: Row, col: Column, order: Order): seq<Row>
    decreases |sorted|
  {
    if sorted == [] then [u]
    else if Le(sorted[0], u, col, order) then [sorted[0]] + Insert(sorted[1..], u, col, order)
    else [u] + sorted
  }

  lemma {:induction false} InsertMultiset(sorted: seq<Row>, u: Row, col: Column, order: Order)
    ensures multiset(Insert(sorted, u, col, order)) == multiset(sorted) + multiset{u}
    decreases |sorted|
  {
    if sorted != [] {
      assert sorted == [sorted[0]] + sorted[1..];
      InsertMultiset(sorted[1..], u, col, order);
    }
  }

  lemma {:induction false} InsertMembers(sorted: seq<Row>, u: Row, x: Row, col: Column, order: Order)
    requires x in Insert(sorted, u, col, order)
    ensures x == u || x in sorted
    decreases |sorted|
  {
    if sorted != [] && Le(sorted[0], u, col, order) && x != sorted[0] {
      InsertMembers(sorted[1..], u, x, col, order);
    }
  }

  /** A user may go in front of a sorted list when it may stand before each of them. */
  lemma InsertFront(x: Row, rest: seq<Row>, col: Column, order: Order)
    requires Sorted(rest, col, order)
    requires forall k :: 0 <= k < |rest| ==> Le(x, rest[k], col, order)
    ensures Sorted([x] + rest, col, order)
  {
    var s := [x] + rest;
    forall i, j | 0 <= i < j < |s| ensures Le(s[i], s[j], col, order) {
      assert s[j] == rest[j - 1];
      if i > 0 { assert s[i] == rest[i - 1]; }
    }
  }

  lemma {:induction false} InsertSorted(sorted: seq<Row>, u: Row, col: Column, order: Order)
    requires Sorted(sorted, col, order)
    ensures Sorted(Insert(sorted, u, col, order), col, order)
    decreases |sorted|
  {
    if sorted == [] {
    } else if Le(sorted[0], u, col, order) {
      var rest := Insert(sorted[1..], u, col, order);
      assert Sorted(sorted[1..], col, order);
      InsertSorted(sorted[1..], u, col, order);
      forall k | 0 <= k < |rest| ensures Le(sorted[0], rest[k], col, order) {
        InsertMembers(sorted[1..], u, rest[k], col, order);
        if rest[k] != u {
          var j :| 0 <= j < |sorted[1..]| && sorted[1..][j] == rest[k];
          assert sorted[j + 1] == rest[k];
        }
      }
      InsertFront(sorted[0], rest, col, order);
    } else {
      LeTotal(sorted[0], u, col, order);
      forall k | 0 <= k < |sorted| ensures Le(u, sorted[k], col, order) {
        if k > 0 {
          LeTransitive(u, sorted[0], sorted[k], col, order);
        }
      }
      InsertFront(u, sorted, col, order);
    }
  }

  /** `[...users].sort(comparator)`: the users of the copy in comparator order, each as
      often as in `users`; `users` itself is a value and keeps its order. */
  function SortUsers(users: seq<Row>, col: Column, order: Order): (r: seq<Row>)
    ensures Sorted(r, col, order)
    ensures multiset(r) == multiset(users)
  {
    if users == [] then []
    else
      var front, last := users[..|users| - 1], users[|users| - 1];
      assert users == front + [last];
      InsertSorted(SortUsers(front, col, order), last, col, order);
      InsertMultiset(SortUsers(front, col, order), last, col, order);
      Insert(SortUsers(front, col, order), last, col, order)
  }

  // ---------------------------------------------------------------------
  // List updates

  /** `prev.map(u => u.id === userId ? updated : u)`. */
  function ReplaceById(users: seq<Row>, id: string, updated: Row): (r: seq<Row>)
    ensures |r| == |users|
    ensures forall k :: 0 <= k < |users| && users[k].id != id ==> r[k] == users[k]
    ensures forall k :: 0 <= k < |users| && users[k].id == id ==> r[k] == updated
  {
    if users == [] then []
    else [if users[0].id == id then updated else users[0]] + ReplaceById(users[1..], id, updated)
  }

  /** `prev.filter(u => u.id !== userId)`. */
  function RemoveById(users: seq<Row>, id: string): (r: seq<Row>)
    ensures |r| <= |users|
    ensures forall k :: 0 <= k < |r| ==> r[k].id != id
  {
    if users == [] then []
    else (if users[0].id == id then [] else [users[0]]) + RemoveById(users[1..], id)
  }

  /** Removing keeps exactly the users with another id. */
  lemma {:induction false} RemoveMembers(users: seq<Row>, id: string, u: Row)
    ensures u in RemoveById(users, id) <==> u in users && u.id != id
    decreases |users|
  {
    if users != [] {
      RemoveMembers(users[1..], id, u);
      assert users == [users[0]] + users[1..];
    }
  }

  /** A user without the id is not touched by the removal. */
  lemma {:induction false} RemoveAbsent(users: seq<Row>, id: string)
    requires forall k :: 0 <= k < |users| ==> users[k].id != id
    ensures RemoveById(users, id) == users
    decreases |users|
  {
    if users != [] {
      RemoveAbsent(users[1..], id);
    }
  }

  /** Deleting after a save leaves what deleting alone leaves: the save touched only the
      entry with that id. */
  lemma {:induction false} RemoveAfterReplace(users: seq<Row>, id: string, updated: Row)
    requires updated.id == id
    ensures RemoveById(ReplaceById(users, id, updated), id) == RemoveById(users, id)
    decreases |users|
  {
    if users != [] {
      RemoveAfterReplace(users[1..], id, updated);
    }
  }

  // ---------------------------------------------------------------------
  // The component's state

  /** The cells a double click edits. */
  datatype Field = FirstNameField | LastNameField | UsernameField | EmailField | PasswordField

  datatype SaveState = Saving | Saved | SaveFailed

  /** The answer of `updateUser`: success with the stored user, `success: false`, or a
      thrown error with the server's message, if any. */
  datatype UpdateOutcome = UpdateOk(user: Row) | UpdateRejected | UpdateThrew(message: Option<string>)

  /** The answer of `deleteUser`. */
  datatype DeleteOutcome = DeleteOk | DeleteRejected | DeleteThrew(message: Option<string>)

  /** The answer of `createUser`: success with the new user, an answer without success,
      or a thrown error with the server's message, if any. */
  datatype CreateOutcome = CreateOk(user: Row) | CreateRejected | CreateThrew(message: Option<string>)

  /** The body of the one PUT a blur sends: the edited field and its value, absent when
      the form has none. */
  datatype Request = Request(userId: string, field: Field, value: Option<string>)

  /** All of the component's state at once. */
  datatype State = State(users: seq<Row>, selectedUserId: Option<string>, sortBy: Column, sortOrder: Order,
                         editingUserId: Option<string>, editingField: Option<Field>,
                         editFormData: map<Field, string>, saveStatus: map<string, SaveState>,
                         error: Option<string>)

  /** `!data[field]?.trim()`. */
  predicate Blank(data: map<Field, string>, f: Field)
  {
    f !in data || Trim(data[f]) == []
  }

  /** `error.response?.data?.error || fallback`. */
  function Message(m: Option<string>, fallback: string): string
  {
    if m.Some? && m.value != [] then m.value else fallback
  }

  /** The validation of `handleBlur` refuses the edit: a required field or the password
      left blank. */
  predicate Refused(f: Field, data: map<Field, string>)
  {
    (f == FirstNameField || f == UsernameField || f == PasswordField) && Blank(data, f)
  }

  /** `editFormData[editingField]`, absent when the form has no such entry. */
  function Lookup(data: map<Field, string>, f: Field): Option<string>
  {
    if f in data then Some(data[f]) else None
  }

  /** The state after a sent update: on success the row with that id is replaced, the
      status is 'saved' and the edit ends; on `success: false` the status stays 'saving';
      on an error the status is 'error', the message is shown and the edit goes on. */
  function AfterSave(s: State, userId: string, outcome: UpdateOutcome): State
  {
    match outcome
    case UpdateOk(u) =>
      s.(users := ReplaceById(s.users, userId, u), saveStatus := s.saveStatus[userId := Saved],
         editingUserId := None, editingField := None)
    case UpdateRejected => s.(saveStatus := s.saveStatus[userId := Saving])
    case UpdateThrew(m) =>
      s.(saveStatus := s.saveStatus[userId := SaveFailed], error := Some(Message(m, "Fehler beim Speichern.")))
  }

  function Flip(o: Order): Order
  {
    if o == Asc then Desc else Asc
  }

  class Screen {
    var users: seq<Row>
    var selectedUserId: Option<string>
    var sortBy: Column
    var sortOrder: Order
    var editingUserId: Option<string>
    var editingField: Option<Field>
    var editFormData: map<Field, string>
    var saveStatus: map<string, SaveState>
    var error: Option<string>

    ghost function Snapshot(): State
      reads this
    {
      State(users, selectedUserId, sortBy, sortOrder, editingUserId, editingField, editFormData, saveStatus, error)
    }

    /** The initial state: no users, sorted by first name ascending, nothing selected or
        edited. */
    constructor ()
      ensures Snapshot() == State([], None, FirstName, Asc, None, None, map[], map[], None)
    {
      users := [];
      selectedUserId := None;
      sortBy := FirstName;
      sortOrder := Asc;
      editingUserId := None;
      editingField := None;
      editFormData := map[];
      saveStatus := map[];
      error := None;
    }

    /** The rows as the table shows them. */
    function SortedUsers(): (r: seq<Row>)
      reads this
      ensures Sorted(r, sortBy, sortOrder) && multiset(r) == multiset(users)
    {
      SortUsers(users, sortBy, sortOrder)
    }

    /** `handleSort`: the same column again flips the order; another column is sorted
        ascending. */
    method HandleSort(column: Column)
      modifies this
      ensures Snapshot() == old(Snapshot()).(sortBy := column,
        sortOrder := if old(sortBy) == column then Flip(old(sortOrder)) else Asc)
    {
      if sortBy == column {
        sortOrder := if sortOrder == Asc then Desc else Asc;
      } else {
        sortBy := column;
        sortOrder := Asc;
      }
    }

    /** `handleRowClick`: toggles the selection of the row, unless that row is being
        edited. */
    method HandleRowClick(userId: string)
      modifies this
      ensures old(editingUserId) == Some(userId) ==> Snapshot() == old(Snapshot())
      ensures old(editingUserId) != Some(userId) ==>
        Snapshot() == old(Snapshot()).(selectedUserId :=
          if old(selectedUserId) == Some(userId) then None else Some(userId))
    {
      if editingUserId != Some(userId) {
        selectedUserId := if selectedUserId == Some(userId) then None else Some(userId);
      }
    }

    /** `handleCellDoubleClick`: edits `field` of `u`, the form filled from the row with
        the address as "" when absent and the password always "". */
    method HandleCellDoubleClick(u: Row, field: Field)
      modifies this
      ensures Snapshot() == old(Snapshot()).(editingUserId := Some(u.id), editingField := Some(field),
        editFormData := FormOf(u))
    {
      editingUserId := Some(u.id);
      editingField := Some(field);
      editFormData := FormOf(u);
    }

    /** `handleBlur`: nothing while no cell is edited; a blank first name or username is
        refused with a message and the edit dropped; a blank password drops the edit
        silently; otherwise exactly the edited field is sent, and the answer decides the
        new state as AfterSave says. */
    method HandleBlur(userId: string, outcome: UpdateOutcome) returns (sent: Option<Request>)
      modifies this
      ensures old(editingUserId).None? || old(editingField).None? ==> sent.None? && Snapshot() == old(Snapshot())
      ensures old(editingUserId).Some? && old(editingField) == Some(FirstNameField) && Blank(old(editFormData), FirstNameField) ==>
        sent.None? && Snapshot() == old(Snapshot()).(error := Some("Vorname ist erforderlich."),
          editingUserId := None, editingField := None)
      ensures old(editingUserId).Some? && old(editingField) == Some(UsernameField) && Blank(old(editFormData), UsernameField) ==>
        sent.None? && Snapshot() == old(Snapshot()).(error := Some("Benutzername ist erforderlich."),
          editingUserId := None, editingField := None)
      ensures old(editingUserId).Some? && old(editingField) == Some(PasswordField) && Blank(old(editFormData), PasswordField) ==>
        sent.None? && Snapshot() == old(Snapshot()).(editingUserId := None, editingField := None)
      ensures sent.Some? <==> old(editingUserId).Some? && old(editingField).Some? && !Refused(old(editingField.value), old(editFormData))
      ensures sent.Some? ==> sent.value == Request(userId, old(editingField.value), Lookup(old(editFormData), old(editingField.value)))
      ensures sent.Some? ==> Snapshot() == AfterSave(old(Snapshot()), userId, outcome)
    {
      if editingUserId.None? || editingField.None? {
        return None;
      }
      var f := editingField.value;
      if f == FirstNameField && Blank(editFormData, FirstNameField) {
        error := Some("Vorname ist erforderlich.");
        editingUserId := None;
        editingField := None;
        return None;
      }
      if f == UsernameField && Blank(editFormData, UsernameField) {
        error := Some("Benutzername ist erforderlich.");
        editingUserId := None;
        editingField := None;
        return None;
      }
      if f == PasswordField && Blank(editFormData, PasswordField) {
        editingUserId := None;
        editingField := None;
        return None;
      }
      sent := Some(Request(userId, f, Lookup(editFormData, f)));
      Save(userId, outcome);
    }

    /** The `try` block of `handleBlur` once the request is sent. */
    method Save(userId: string, outcome: UpdateOutcome)
      modifies this
      ensures Snapshot() == AfterSave(old(Snapshot()), userId, outcome)
    {
      saveStatus := saveStatus[userId := Saving];
      match outcome
      case UpdateOk(u) =>
        users := ReplaceById(users, userId, u);
        saveStatus := saveStatus[userId := Saved];
        editingUserId := None;
        editingField := None;
      case UpdateRejected =>
      case UpdateThrew(m) =>
        saveStatus := saveStatus[userId := SaveFailed];
        error := Some(Message(m, "Fehler beim Speichern."));
    }

    /** The Escape key drops the edit and the form. */
    method HandleEscape()
      modifies this
      ensures old(editingUserId).None? ==> Snapshot() == old(Snapshot())
      ensures old(editingUserId).Some? ==>
        Snapshot() == old(Snapshot()).(editingUserId := None, editingField := None, editFormData := map[])
    {
      if editingUserId.Some? {
        editingUserId := None;
        editingField := None;
        editFormData := map[];
      }
    }

    /** `handleCreateUser`: a created user goes to the front of the list; an answer
        without success changes nothing. */
    method HandleCreated(outcome: CreateOutcome)
      modifies this
      ensures outcome.CreateOk? ==> Snapshot() == old(Snapshot()).(users := [outcome.user] + old(users))
      ensures outcome.CreateRejected? ==> Snapshot() == old(Snapshot())
      ensures outcome.CreateThrew? ==>
        Snapshot() == old(Snapshot()).(error := Some(Message(outcome.message, "Fehler beim Erstellen des Benutzers.")))
    {
      match outcome
      case CreateOk(u) =>
        users := [u] + users;
      case CreateRejected =>
      case CreateThrew(m) =>
        error := Some(Message(m, "Fehler beim Erstellen des Benutzers."));
    }

    /** `handleDeleteUser`: nothing without confirmation; a deleted user leaves the list
        and the selection, if it was selected. */
    method HandleDeleteUser(userId: string, confirmed: bool, outcome: DeleteOutcome)
      modifies this
      ensures !confirmed || outcome.DeleteRejected? ==> Snapshot() == old(Snapshot())
      ensures confirmed && outcome.DeleteOk? ==>
        Snapshot() == old(Snapshot()).(users := RemoveById(old(users), userId),
          selectedUserId := if old(selectedUserId) == Some(userId) then None else old(selectedUserId))
      ensures confirmed && outcome.DeleteThrew? ==>
        Snapshot() == old(Snapshot()).(error := Some(Message(outcome.message, "Fehler beim L\U{00F6}schen des Benutzers.")))
    {
      if !confirmed {
        return;
      }
      match outcome
      case DeleteOk =>
        users := RemoveById(users, userId);
        if selectedUserId == Some(userId) {
          selectedUserId := None;
        }
      case DeleteRejected =>
      case DeleteThrew(m) =>
        error := Some(Message(m, "Fehler beim L\U{00F6}schen des Benutzers."));
    }
  }

  /** The form a double click fills: every present name, the address or "", and an
      empty password. */
  function FormOf(u: Row): (r: map<Field, string>)
    ensures PasswordField in r && r[PasswordField] == ""
    ensures EmailField in r
  {
    var m := map[EmailField := if u.email.Some? then u.email.value else "", PasswordField := ""];
    var m1 := if u.username.Some? then m[UsernameField := u.username.value] else m;
    var m2 := if u.firstName.Some? then m1[FirstNameField := u.firstName.value] else m1;
    if u.lastName.Some? then m2[LastNameField := u.lastName.value] else m2
  }

  /** Saving a password edit right after the double click sends nothing: the form's
      password starts empty. */
  lemma FreshPasswordIsBlank(u: Row)
    ensures Blank(FormOf(u), PasswordField)
  {
    assert Trim("") == [];
  }
}
