// client/src/components/UserSelectorModal.js: the case-insensitive name filters over the
// fetched user list and the name passed on when a user is chosen.

module UserSelector {
  import opened StrUtil

  datatype User = User(id: string, username: string, firstName: string, lastName: string)

  /** `!filter || name.toLowerCase().includes(filter.toLowerCase())`. */
  predicate NameMatches(name: string, filter: string)
  {
    filter == [] || Contains(Lower(name), Lower(filter))
  }

  predicate Matches(u: User, firstFilter: string, lastFilter: string)
  {
    NameMatches(u.firstName, firstFilter) && NameMatches(u.lastName, lastFilter)
  }

  /** The users whose names match both filters. */
  function Select(users: seq<User>, firstFilter: string, lastFilter: string): seq<User>
  {
    Filter(users, u => Matches(u, firstFilter, lastFilter))
  }

  /** `applyFilters`: both filters empty leave the list as it is; otherwise the users
      whose first and last names contain the filters, ignoring case. */
  function ApplyFilters(users: seq<User>, firstFilter: string, lastFilter: string): (r: seq<User>)
  {
    if firstFilter == [] && lastFilter == [] then users
    else Select(users, firstFilter, lastFilter)
  }

  /** The result of `applyFilters` is an order-preserving sublist of the users holding
      exactly the users whose names match. */
  lemma ApplyFiltersSpec(users: seq<User>, f: string, l: string, u: User)
    ensures Sublist(ApplyFilters(users, f, l), users)
    ensures u in ApplyFilters(users, f, l) <==> u in users && Matches(u, f, l)
  {
    if f == [] && l == [] {
      FilterAll(users, v => Matches(v, f, l));
    }
    FilterSublist(users, v => Matches(v, f, l));
    FilterMembers(users, v => Matches(v, f, l), u);
  }

  /** The shortcut for empty filters returns what the filter itself would: every user
      matches two empty filters. */
  lemma ShortcutAgrees(users: seq<User>)
    ensures Select(users, "", "") == ApplyFilters(users, "", "")
  {
    FilterAll(users, v => Matches(v, "", ""));
  }

  /** Filtering ignores the letter case of the filters. */
  lemma FilterCaseInsensitive(users: seq<User>, f: string, l: string)
    ensures ApplyFilters(users, Lower(f), Lower(l)) == ApplyFilters(users, f, l)
  {
    LowerIdempotent(f);
    LowerIdempotent(l);
    assert |Lower(f)| == |f| && |Lower(l)| == |l|;
    FilterCongruent(users, v => Matches(v, Lower(f), Lower(l)), v => Matches(v, f, l));
  }

  /** `handleUserDoubleClick`: the trimmed "first last", or the username when that is
      empty. */
  function DisplayName(u: User): (r: string)
    ensures r == u.username || r == Trim(u.firstName + " " + u.lastName)
    ensures r == [] ==> u.username == []
  {
    var full := Trim(u.firstName + " " + u.lastName);
    if full != [] then full else u.username
  }

  /** Without names the username is shown. */
  lemma NamelessShowsUsername(id: string, username: string)
    ensures DisplayName(User(id, username, "", "")) == username
  {
    assert "" + " " + "" == " ";
    assert TrimStart(" ", JsSpace) == TrimStart([], JsSpace);
  }

  /** A first name with no white space at its ends and no last name is shown alone: the
      separating space is trimmed away. */
  lemma FirstNameAlone(id: string, username: string, first: string)
    requires first != [] && !White(JsSpace, first[0]) && !White(JsSpace, first[|first| - 1])
    ensures DisplayName(User(id, username, first, "")) == first
  {
    var s := first + " " + "";
    assert s == first + " ";
    assert TrimStart(s, JsSpace) == s by { assert s[0] == first[0]; }
    assert s[..|s| - 1] == first;
    assert TrimEnd(s, JsSpace) == TrimEnd(first, JsSpace);
  }
}
