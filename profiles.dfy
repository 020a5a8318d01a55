/**
 * Rows of the user-profile table (`perfiles_usuarios`) and the staff console's user search,
 * `filteredUsers`: a user passes when the lower-cased search term occurs in the lower-cased
 * `nombre`, `email` or `rol`, or in the raw `telefono`; an absent field never matches.
 */
module Profiles {
  import opened Wrappers
  import opened Text

  datatype Profile = Profile(
    id: string,
    email: Option<string>,
    nombre: Option<string>,
    telefono: Option<string>,
    rol: Option<string>,
    password: Option<string>)

  /** `field?.toLowerCase().includes(search)`, falsy when the field is absent. */
  predicate LowerHas(field: Option<string>, search: string) {
    field.Some? && Includes(Lower(field.value), search)
  }

  /** `field?.includes(search)`. */
  predicate RawHas(field: Option<string>, search: string) {
    field.Some? && Includes(field.value, search)
  }

  predicate Matches(u: Profile, term: string) {
    var search := Lower(term);
    LowerHas(u.nombre, search) || LowerHas(u.email, search) || RawHas(u.telefono, search)
    || LowerHas(u.rol, search)
  }

  /** `usersList.filter(...)` with the search term. */
  function FilteredUsers(users: seq<Profile>, term: string): (r: seq<Profile>)
    ensures forall u :: u in r <==> u in users && Matches(u, term)
  {
    if users == [] then []
    else (if Matches(users[0], term) then [users[0]] else []) + FilteredUsers(users[1..], term)
  }

  // ------------------------------------------------------------ lemmas

  /** The search ignores the case of the term. */
  lemma {:induction false} SearchIgnoresTermCase(users: seq<Profile>, term: string)
    ensures FilteredUsers(users, term) == FilteredUsers(users, Lower(term))
  {
    LowerIdempotent(term);
    if users != [] {
      SearchIgnoresTermCase(users[1..], term);
    }
  }

  /**
   * The filter never lengthens the list and returns it whole exactly when every user matches;
   * FilteredUsersConcat gives the order and the one entry per matching row.
   */
  lemma {:induction false} FilteredIsSublist(users: seq<Profile>, term: string)
    ensures |FilteredUsers(users, term)| <= |users|
    ensures FilteredUsers(users, term) == users <==> forall u :: u in users ==> Matches(u, term)
  {
    if users != [] {
      FilteredIsSublist(users[1..], term);
      if !Matches(users[0], term) {
        assert |FilteredUsers(users, term)| < |users|;
      }
    }
  }

  /** Filtering two stretches of the list gives their two results, in list order. */
  lemma {:induction false} FilteredUsersConcat(a: seq<Profile>, b: seq<Profile>, term: string)
    ensures FilteredUsers(a + b, term) == FilteredUsers(a, term) + FilteredUsers(b, term)
  {
    if a == [] {
      assert a + b == b;
    } else {
      assert (a + b)[1..] == a[1..] + b;
      FilteredUsersConcat(a[1..], b, term);
    }
  }

  /** The empty term keeps the users with at least one searchable field, and only them. */
  lemma EmptyTermKeepsUsersWithAField(u: Profile)
    ensures Matches(u, "") <==> u.nombre.Some? || u.email.Some? || u.telefono.Some? || u.rol.Some?
  {
  }

  /**
   * The phone is searched as stored: a user whose only field is a phone equal to a term
   * that lower-casing changes (one with capitals) is not found by that term.
   */
  lemma PhoneIsCaseSensitive(u: Profile, term: string)
    requires u.telefono == Some(term) && u.nombre.None? && u.email.None? && u.rol.None?
    requires Lower(term) != term
    ensures !Matches(u, term)
  {
    IncludesBounds(term, Lower(term));
  }

  /** The same user is found by the lower-case form of a term that is its own lower case. */
  lemma PhoneFoundWhenLowerCase(u: Profile, term: string)
    requires u.telefono == Some(term) && Lower(term) == term
    ensures Matches(u, term)
  {
    IncludesIff(term, term);
    assert OccursAt(term, term, 0);
  }
}
