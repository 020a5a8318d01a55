/**
 * The access page (`/uplink`): a three-step form. The email step looks the address up in
 * the profile table; a known address moves to the password step, an unknown one to the
 * registration step. The final submit either registers a client profile or checks the
 * password, and then navigates by role, carrying the name, the email and the selected
 * package in the query string.
 */
module Uplink {
  import opened Wrappers
  import opened Text
  import opened Profiles

  datatype Step = EmailStep | LoginStep | RegisterStep

  const AdminPath: string := "/admin/soporte"
  const DashboardPath: string := "/dashboard"
  const AdminRole: string := "admin"
  const ClientRole: string := "cliente"

  /** One `key=value` pair of a `URLSearchParams`, in insertion order. */
  datatype Param = Param(key: string, value: string)

  /** `router.push(path + '?' + params)`. */
  datatype Navigation = Navigation(path: string, query: seq<Param>)

  /** The rows whose `email` column equals `e`, in table order. */
  function Holders(rows: seq<Profile>, e: string): (r: seq<Profile>)
    ensures |r| <= |rows|
  {
    if rows == [] then []
    else (if rows[0].email == Some(e) then [rows[0]] else []) + Holders(rows[1..], e)
  }

  /** The matches are exactly the rows with the email. */
  lemma {:induction false} HoldersMembers(rows: seq<Profile>, e: string)
    ensures forall p :: p in Holders(rows, e) <==> p in rows && p.email == Some(e)
  {
    if rows != [] {
      HoldersMembers(rows[1..], e);
      assert rows == [rows[0]] + rows[1..];
    }
  }

  /**
   * `.eq('email', e).single()`: data only when exactly one row matches; with none or with
   * several the query reports an error and `data` is null.
   */
  function SingleByEmail(rows: seq<Profile>, e: string): (r: Option<Profile>)
    ensures r.Some? ==> r.value in rows && r.value.email == Some(e)
    ensures r.Some? ==> forall i :: 0 <= i < |rows| && rows[i].email == Some(e) ==> rows[i] == r.value
    ensures (forall i :: 0 <= i < |rows| ==> rows[i].email != Some(e)) ==> r.None?
  {
    HoldersMembers(rows, e);
    var h := Holders(rows, e);
    if |h| == 1 then Some(h[0]) else None
  }

  /** `user.rol === 'admin' ? '/admin/soporte' : '/dashboard'`. */
  function Route(rol: Option<string>): (path: string)
    ensures path == AdminPath <==> rol == Some(AdminRole)
    ensures path == AdminPath || path == DashboardPath
  {
    if rol == Some(AdminRole) then AdminPath else DashboardPath
  }

  /** A `URLSearchParams` value built from a nullable column: null becomes "null". */
  function ValueOrNull(v: Option<string>): string {
    v.GetOr("null")
  }

  /** `if (selectedPkg)`: present and non-empty. */
  predicate Truthy(pkg: Option<string>) {
    pkg.Some? && pkg.value != ""
  }

  /** `new URLSearchParams({ name, email })`, then `append('pkg', …)` when a package is selected. */
  function QueryParams(name: string, email: string, pkg: Option<string>): (q: seq<Param>)
    ensures 2 <= |q| <= 3 && q[0] == Param("name", name) && q[1] == Param("email", email)
    ensures |q| == 3 <==> Truthy(pkg)
    ensures |q| == 3 ==> q[2] == Param("pkg", pkg.value)
  {
    [Param("name", name), Param("email", email)] + (if Truthy(pkg) then [Param("pkg", pkg.value)] else [])
  }

  /** The row the registration inserts; `id` is the one the table assigns. */
  function Registration(id: string, email: string, nombre: string, telefono: string, password: string): Profile {
    Profile(id, Some(Lower(email)), Some(nombre), Some(telefono), Some(ClientRole), Some(password))
  }

  /** The form's state. `selectedPkg` is the `pkg` URL parameter, read once. */
  class UplinkContent {
    var step: Step
    var email: string
    var nombre: string
    var telefono: string
    var password: string
    var loading: bool
    const selectedPkg: Option<string>

    constructor (pkg: Option<string>)
      ensures step == EmailStep && email == "" && nombre == "" && telefono == "" && password == ""
      ensures !loading && selectedPkg == pkg
    {
      step := EmailStep;
      email := "";
      nombre := "";
      telefono := "";
      password := "";
      loading := false;
      selectedPkg := pkg;
    }

    /** The email input, which is disabled once the lookup has moved past the email step. */
    method EditEmail(v: string)
      requires step == EmailStep
      modifies this
      ensures email == v
      ensures step == old(step) && nombre == old(nombre) && telefono == old(telefono)
      ensures password == old(password) && loading == old(loading)
    {
      email := v;
    }

    /** The name input, rendered only on the registration step. */
    method EditNombre(v: string)
      requires step == RegisterStep
      modifies this
      ensures nombre == v
      ensures step == old(step) && email == old(email) && telefono == old(telefono)
      ensures password == old(password) && loading == old(loading)
    {
      nombre := v;
    }

    /** The phone input, rendered only on the registration step. */
    method EditTelefono(v: string)
      requires step == RegisterStep
      modifies this
      ensures telefono == v
      ensures step == old(step) && email == old(email) && nombre == old(nombre)
      ensures password == old(password) && loading == old(loading)
    {
      telefono := v;
    }

    /** The password input, rendered only on the login and registration steps. */
    method EditPassword(v: string)
      requires step == LoginStep || step == RegisterStep
      modifies this
      ensures password == v
      ensures step == old(step) && email == old(email) && nombre == old(nombre)
      ensures telefono == old(telefono) && loading == old(loading)
    {
      password := v;
    }

    /**
     * `checkUser`: nothing on an empty email; otherwise the lower-cased address is looked up
     * and the step becomes the password step when a profile comes back, the registration
     * step when none does or the lookup failed. `lookupFailed` stands for the exception path.
     */
    method CheckUser(rows: seq<Profile>, lookupFailed: bool)
      modifies this
      ensures old(email) == "" ==> step == old(step) && loading == old(loading)
      ensures old(email) != "" ==> !loading && step != EmailStep
      ensures old(email) != "" ==> (step == LoginStep <==> !lookupFailed && SingleByEmail(rows, Lower(email)).Some?)
      ensures email == old(email) && nombre == old(nombre) && telefono == old(telefono)
      ensures password == old(password)
    {
      if email == "" {
        return;
      }
      loading := true;
      if !lookupFailed && SingleByEmail(rows, Lower(email)).Some? {
        step := LoginStep;
      } else {
        step := RegisterStep;
      }
      loading := false;
    }

    /**
     * `handleFinalSubmit`. Registration inserts a client row (the insert either succeeds or
     * throws, `insertOk`) and goes to the dashboard with the name and the email as typed.
     * Login fetches the row of the lower-cased email and fails, with no navigation, when
     * the fetch reports an error (`lookupFailed`), there is no row or its password differs; otherwise it goes where the role says with the
     * stored name and email. After a navigation `loading` stays set; after a failure it is
     * cleared.
     */
    method FinalSubmit(rows: seq<Profile>, lookupFailed: bool, newId: string, insertOk: bool)
      returns (attempt: Option<Profile>, nav: Option<Navigation>)
      modifies this
      ensures old(step) == RegisterStep ==> attempt == Some(Registration(newId, email, nombre, telefono, password))
      ensures old(step) == RegisterStep ==>
        nav == (if insertOk then Some(Navigation(DashboardPath, QueryParams(nombre, email, selectedPkg))) else None)
      ensures old(step) != RegisterStep ==> attempt == None
      ensures old(step) != RegisterStep ==>
        var u := SingleByEmail(rows, Lower(email));
        nav == (if !lookupFailed && u.Some? && u.value.password == Some(password)
                then Some(Navigation(Route(u.value.rol),
                                     QueryParams(ValueOrNull(u.value.nombre), ValueOrNull(u.value.email), selectedPkg)))
                else None)
      ensures loading == nav.Some?
      ensures step == old(step) && email == old(email) && nombre == old(nombre)
      ensures telefono == old(telefono) && password == old(password)
    {
      loading := true;
      if step == RegisterStep {
        attempt := Some(Registration(newId, email, nombre, telefono, password));
        if insertOk {
          nav := Some(Navigation(DashboardPath, QueryParams(nombre, email, selectedPkg)));
        } else {
          nav := None;
          loading := false;
        }
      } else {
        attempt := None;
        var u := SingleByEmail(rows, Lower(email));
        if lookupFailed || u.None? || u.value.password != Some(password) {
          nav := None;
          loading := false;
        } else {
          nav := Some(Navigation(Route(u.value.rol),
                                 QueryParams(ValueOrNull(u.value.nombre), ValueOrNull(u.value.email), selectedPkg)));
        }
      }
    }

    /** The "Corregir Email" button: back to the email step, with the password cleared. */
    method CorrectEmail()
      modifies this
      ensures step == EmailStep && password == ""
      ensures email == old(email) && nombre == old(nombre) && telefono == old(telefono)
      ensures loading == old(loading)
    {
      step := EmailStep;
      password := "";
    }

    /** The form's `onSubmit`: the email step checks the user, the other steps submit. */
    method Submit(rows: seq<Profile>, lookupFailed: bool, newId: string, insertOk: bool)
      returns (attempt: Option<Profile>, nav: Option<Navigation>)
      modifies this
      ensures old(step) == EmailStep ==> attempt == None && nav == None
      ensures old(step) == EmailStep && old(email) == "" ==> step == EmailStep && loading == old(loading)
      ensures old(step) == EmailStep && old(email) != "" ==>
        !loading && (step == LoginStep <==> !lookupFailed && SingleByEmail(rows, Lower(email)).Some?)
      ensures old(step) == EmailStep && old(email) != "" ==> step != EmailStep
      ensures old(step) == RegisterStep ==> attempt == Some(Registration(newId, email, nombre, telefono, password))
      ensures old(step) == RegisterStep ==>
        nav == (if insertOk then Some(Navigation(DashboardPath, QueryParams(nombre, email, selectedPkg))) else None)
      ensures old(step) == LoginStep ==> attempt == None
      ensures old(step) == LoginStep ==>
        var u := SingleByEmail(rows, Lower(email));
        nav == (if !lookupFailed && u.Some? && u.value.password == Some(password)
                then Some(Navigation(Route(u.value.rol),
                                     QueryParams(ValueOrNull(u.value.nombre), ValueOrNull(u.value.email), selectedPkg)))
                else None)
      ensures old(step) != EmailStep ==> step == old(step) && loading == nav.Some?
      ensures email == old(email) && nombre == old(nombre) && telefono == old(telefono)
      ensures password == old(password)
    {
      if step == EmailStep {
        CheckUser(rows, lookupFailed);
        attempt, nav := None, None;
      } else {
        attempt, nav := FinalSubmit(rows, lookupFailed, newId, insertOk);
      }
    }
  }

  // ------------------------------------------------------------ lemmas

  /** Matching a row then the rest. */
  lemma HoldersCons(h: Profile, t: seq<Profile>, e: string)
    ensures Holders([h] + t, e) == (if h.email == Some(e) then [h] else []) + Holders(t, e)
  {
    assert ([h] + t)[1..] == t;
  }

  /** Appending a row extends the matches by that row when its email matches. */
  lemma {:induction false} HoldersAppend(rows: seq<Profile>, p: Profile, e: string)
    ensures Holders(rows + [p], e) == Holders(rows, e) + (if p.email == Some(e) then [p] else [])
  {
    if rows == [] {
      assert [p][1..] == [];
    } else {
      var h, t := rows[0], rows[1..];
      assert rows == [h] + t;
      assert rows + [p] == [h] + (t + [p]);
      HoldersCons(h, t + [p], e);
      HoldersCons(h, t, e);
      HoldersAppend(t, p, e);
      var head := if h.email == Some(e) then [h] else [];
      var last := if p.email == Some(e) then [p] else [];
      assert head + (Holders(t, e) + last) == (head + Holders(t, e)) + last;
    }
  }

  /** Two rows with the same email make `.single()` return no data. */
  lemma {:induction false} TwoHoldersGiveNoData(rows: seq<Profile>, e: string, i: nat, j: nat)
    requires i < j < |rows| && rows[i].email == Some(e) && rows[j].email == Some(e)
    ensures |Holders(rows, e)| >= 2
    ensures SingleByEmail(rows, e) == None
  {
    if i == 0 {
      assert rows[1..][j - 1] == rows[j];
      HoldersMembers(rows[1..], e);
      assert rows[j] in Holders(rows[1..], e);
    } else {
      assert rows[1..][i - 1] == rows[i] && rows[1..][j - 1] == rows[j];
      TwoHoldersGiveNoData(rows[1..], e, i - 1, j - 1);
    }
  }

  /** A row that alone holds the email is what `.single()` returns. */
  lemma {:induction false} UniqueHolderIsFound(rows: seq<Profile>, e: string, i: nat)
    requires i < |rows| && rows[i].email == Some(e)
    requires forall j :: 0 <= j < |rows| && j != i ==> rows[j].email != Some(e)
    ensures Holders(rows, e) == [rows[i]]
    ensures SingleByEmail(rows, e) == Some(rows[i])
  {
    if i == 0 {
      assert forall j :: 0 <= j < |rows| - 1 ==> rows[1..][j] == rows[j + 1];
      NoHolders(rows[1..], e);
    } else {
      assert rows[0].email != Some(e);
      assert rows[1..][i - 1] == rows[i];
      forall j | 0 <= j < |rows| - 1 && j != i - 1 ensures rows[1..][j].email != Some(e) {
        assert rows[1..][j] == rows[j + 1];
      }
      UniqueHolderIsFound(rows[1..], e, i - 1);
    }
  }

  /** No row with the email, no match. */
  lemma {:induction false} NoHolders(rows: seq<Profile>, e: string)
    requires forall j :: 0 <= j < |rows| ==> rows[j].email != Some(e)
    ensures Holders(rows, e) == []
  {
    if rows != [] {
      assert forall j :: 0 <= j < |rows| - 1 ==> rows[1..][j] == rows[j + 1];
      NoHolders(rows[1..], e);
    }
  }

  /**
   * A client who registers can log in afterwards with the same password, typing the email
   * in any letter case, and lands on the dashboard.
   */
  lemma RegisterThenLogin(rows: seq<Profile>, id: string, email: string, typed: string,
                          nombre: string, telefono: string, password: string)
    requires forall i :: 0 <= i < |rows| ==> rows[i].email != Some(Lower(email))
    requires Lower(typed) == Lower(email)
    ensures var r := Registration(id, email, nombre, telefono, password);
      SingleByEmail(rows + [r], Lower(typed)) == Some(r)
      && r.password == Some(password) && Route(r.rol) == DashboardPath
  {
    var r := Registration(id, email, nombre, telefono, password);
    NoHolders(rows, Lower(email));
    HoldersAppend(rows, r, Lower(email));
  }
}
