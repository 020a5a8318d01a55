/**
 * The client dashboard (`/dashboard`): the package catalogue and the resolution of the
 * `pkg` URL parameter, the project-request record, and the dashboard object whose
 * handlers keep the message list, the staff presence list and the request form.
 */
module ClientDashboard {
  import opened Wrappers
  import opened Text
  import opened Chat
  import opened Projects
  import opened Presence
  import opened Attachments

  /** The six packages offered. */
  datatype CatalogPackage =
    NebulaLanding | SupernovaBusiness | GalacticEcommerce | OrbitApp | TitaniumSystems | CosmosEnterprise
  {
    function Id(): string {
      match this
      case NebulaLanding => "NEBULA_LANDING"
      case SupernovaBusiness => "SUPERNOVA_BUSINESS"
      case GalacticEcommerce => "GALACTIC_ECOMMERCE"
      case OrbitApp => "ORBIT_APP"
      case TitaniumSystems => "TITANIUM_SYSTEMS"
      case CosmosEnterprise => "COSMOS_ENTERPRISE"
    }

    function Name(): string {
      match this
      case NebulaLanding => "Nebula Landing"
      case SupernovaBusiness => "Supernova Business"
      case GalacticEcommerce => "Galactic E-Commerce"
      case OrbitApp => "Orbit App"
      case TitaniumSystems => "Titanium Systems"
      case CosmosEnterprise => "Cosmos Enterprise"
    }
  }

  /** The catalogue order, which `find` follows. */
  const Catalog: seq<CatalogPackage> :=
    [NebulaLanding, SupernovaBusiness, GalacticEcommerce, OrbitApp, TitaniumSystems, CosmosEnterprise]

  const DefaultPackage: string := "NEBULA_LANDING"
  const DefaultCategory: string := "MODIFICACION_DISEÑO"
  const DefaultName: string := "OPERADOR"
  const InitialStatus: string := "en_revision"

  predicate InCatalog(id: string) {
    exists k :: 0 <= k < |Catalog| && Catalog[k].Id() == id
  }

  /** The URL test: the id equals the (upper-cased) parameter or contains it. */
  predicate PackageMatches(p: CatalogPackage, pkg: string) {
    p.Id() == pkg || Includes(p.Id(), pkg)
  }

  /** `find` over a list of packages: the index of the first match, or |ps|. */
  function FirstMatch(ps: seq<CatalogPackage>, pkg: string): (k: nat)
    ensures k <= |ps|
    ensures k < |ps| ==> PackageMatches(ps[k], pkg)
    ensures forall j :: 0 <= j < k ==> !PackageMatches(ps[j], pkg)
  {
    if ps == [] then 0
    else if PackageMatches(ps[0], pkg) then 0
    else 1 + FirstMatch(ps[1..], pkg)
  }

  /** `CATALOG_PACKAGES.find(p => p.id === pkg || p.id.includes(pkg))`, falling back to the first package. */
  function Resolve(pkg: string): CatalogPackage {
    var k := FirstMatch(Catalog, pkg);
    if k < |Catalog| then Catalog[k] else NebulaLanding
  }

  /** `...?.id || 'NEBULA_LANDING'`: the resolved id is always a catalogue id. */
  function ResolvePackage(pkg: string): (id: string)
    ensures InCatalog(id)
  {
    var p := Resolve(pkg);
    assert p == Catalog[0] || p == Catalog[1] || p == Catalog[2] || p == Catalog[3] || p == Catalog[4] || p == Catalog[5];
    p.Id()
  }

  /** `CATALOG_PACKAGES.find(p => p.id === id)?.name || id`. */
  function PackageName(id: string): (name: string)
    ensures (forall k :: 0 <= k < |Catalog| ==> Catalog[k].Id() != id) ==> name == id
    ensures forall k :: 0 <= k < |Catalog| && Catalog[k].Id() == id ==> name == Catalog[k].Name()
  {
    if Catalog[0].Id() == id then Catalog[0].Name()
    else if Catalog[1].Id() == id then Catalog[1].Name()
    else if Catalog[2].Id() == id then Catalog[2].Name()
    else if Catalog[3].Id() == id then Catalog[3].Name()
    else if Catalog[4].Id() == id then Catalog[4].Name()
    else if Catalog[5].Id() == id then Catalog[5].Name()
    else id
  }

  /** The dashboard's views. */
  datatype View = Overview | ProjectsView | Support | ProfileView | RequirementsView

  /** The request form. */
  datatype ProjectForm = ProjectForm(name: string, desc: string, fileUrl: string, package: string, category: string)

  const InitialForm: ProjectForm := ProjectForm("", "", "", DefaultPackage, DefaultCategory)

  /** The row `handleProjectSubmit` inserts (the store adds id and creation time). */
  datatype ProjectDraft = ProjectDraft(
    clienteEmail: string,
    clienteNombre: string,
    proyectoNombre: string,
    descripcion: string,
    paqueteSeleccionado: string,
    briefUrl: string,
    estado: string)

  function BuildRequest(view: View, clientEmail: string, userName: string, form: ProjectForm): (d: ProjectDraft)
    ensures d.estado == InitialStatus && d.clienteEmail == Lower(clientEmail) && d.clienteNombre == userName
    ensures d.descripcion == form.desc && d.briefUrl == form.fileUrl
    ensures view == RequirementsView ==>
      d.paqueteSeleccionado == RequirementPackage && d.proyectoNombre == "[" + form.category + "] " + form.name
    ensures view != RequirementsView ==> d.paqueteSeleccionado == PackageName(form.package) && d.proyectoNombre == form.name
  {
    var isExtra := view == RequirementsView;
    ProjectDraft(
      Lower(clientEmail),
      userName,
      if isExtra then "[" + form.category + "] " + form.name else form.name,
      form.desc,
      if isExtra then RequirementPackage else PackageName(form.package),
      form.fileUrl,
      InitialStatus)
  }

  /** The row the store keeps for a request draft. */
  function StoredRequest(d: ProjectDraft, id: string): (p: ProjectRow)
    ensures p.id == id && p.clienteEmail == d.clienteEmail && p.paqueteSeleccionado == d.paqueteSeleccionado
    ensures p.estado == d.estado && p.proyectoNombre == d.proyectoNombre
  {
    ProjectRow(id, d.clienteEmail, d.clienteNombre, d.proyectoNombre, d.descripcion, d.paqueteSeleccionado, d.briefUrl, d.estado)
  }

  /** `.eq('cliente_email', email)` on the request table. */
  function OwnRequests(rows: seq<ProjectRow>, email: string): (r: seq<ProjectRow>)
    ensures forall p :: p in r <==> p in rows && p.clienteEmail == email
  {
    if rows == [] then []
    else (if rows[0].clienteEmail == email then [rows[0]] else []) + OwnRequests(rows[1..], email)
  }

  /** The client's rows of two stretches of the table are their two results, in table order. */
  lemma {:induction false} OwnRequestsConcat(a: seq<ProjectRow>, b: seq<ProjectRow>, email: string)
    ensures OwnRequests(a + b, email) == OwnRequests(a, email) + OwnRequests(b, email)
  {
    if a == [] {
      assert a + b == b;
    } else {
      assert (a + b)[1..] == a[1..] + b;
      OwnRequestsConcat(a[1..], b, email);
    }
  }

  /** The filter of the request list: requirements in that view, the other rows otherwise. */
  function ViewList(view: View, rows: seq<ProjectRow>): (r: seq<ProjectRow>)
    ensures view == RequirementsView ==> forall p :: p in r <==> p in rows && IsRequirement(p)
    ensures view != RequirementsView ==> forall p :: p in r <==> p in rows && !IsRequirement(p)
  {
    if view == RequirementsView then Requirements(rows) else NonRequirements(rows)
  }

  /** The client's own message. */
  function ClientDraft(userName: string, clientEmail: string, contenido: string): (d: Draft)
    ensures !d.esStaff && !d.leido && d.clienteEmail == Lower(clientEmail)
    ensures d.emisorNombre == userName && d.contenido == contenido
  {
    Draft(userName, contenido, Lower(clientEmail), false, false)
  }

  /** What a staff session tracks on the staff presence channel. */
  datatype StaffMeta = StaffMeta(name: string, onlineAt: string)

  class Dashboard {
    const userName: string
    const clientEmail: string
    var activeView: View
    var messages: seq<Message>
    var newMessage: string
    var onlineStaff: seq<Option<StaffMeta>>
    var showNewProjectForm: bool
    var userProjects: seq<ProjectRow>
    var projectForm: ProjectForm

    /** The page reads `name` and `email` from the URL (`|| 'OPERADOR'`, `|| ''`). */
    constructor (nameParam: Option<string>, emailParam: Option<string>)
      ensures userName == (if nameParam.Some? && nameParam.value != "" then nameParam.value else DefaultName)
      ensures clientEmail == (if emailParam.Some? then emailParam.value else "")
      ensures activeView == Overview && messages == [] && newMessage == "" && onlineStaff == []
      ensures !showNewProjectForm && userProjects == [] && projectForm == InitialForm
    {
      userName := if nameParam.Some? && nameParam.value != "" then nameParam.value else DefaultName;
      clientEmail := if emailParam.Some? then emailParam.value else "";
      activeView := Overview;
      messages := [];
      newMessage := "";
      onlineStaff := [];
      showNewProjectForm := false;
      userProjects := [];
      projectForm := InitialForm;
    }

    /** The staff indicator: online with a count when the list is not empty. */
    predicate StaffOnline()
      reads this
    {
      |onlineStaff| > 0
    }

    /**
     * The list shown in the 'projects' and 'requirements' views while the form is closed:
     * the client's requirements in the one, the other requests in the other; no list elsewhere.
     */
    function Listed(): (r: seq<ProjectRow>)
      reads this
      ensures !((activeView == ProjectsView || activeView == RequirementsView) && !showNewProjectForm) ==> r == []
      ensures activeView == RequirementsView && !showNewProjectForm ==>
        forall p :: p in r <==> p in userProjects && IsRequirement(p)
      ensures activeView == ProjectsView && !showNewProjectForm ==>
        forall p :: p in r <==> p in userProjects && !IsRequirement(p)
    {
      if (activeView == ProjectsView || activeView == RequirementsView) && !showNewProjectForm
      then ViewList(activeView, userProjects)
      else []
    }

    /**
     * The `pkg` URL parameter, upper-cased: when not empty the projects view opens with the
     * form shown, prefilled with the resolved package and the name `DESPLIEGUE_<id>`.
     */
    method OnSearchParams(pkg: Option<string>)
      modifies this
      ensures pkg.Some? && pkg.value != "" ==> activeView == ProjectsView && showNewProjectForm
      ensures pkg.Some? && pkg.value != "" ==> projectForm.package == ResolvePackage(Upper(pkg.value))
      ensures pkg.Some? && pkg.value != "" ==>
        projectForm == old(projectForm).(package := projectForm.package, name := "DESPLIEGUE_" + projectForm.package)
      ensures pkg.None? || pkg.value == "" ==>
        activeView == old(activeView) && showNewProjectForm == old(showNewProjectForm) && projectForm == old(projectForm)
      ensures messages == old(messages) && newMessage == old(newMessage) && onlineStaff == old(onlineStaff)
      ensures userProjects == old(userProjects)
    {
      if pkg.Some? && pkg.value != "" {
        var id := ResolvePackage(Upper(pkg.value));
        activeView := ProjectsView;
        showNewProjectForm := true;
        projectForm := projectForm.(package := id, name := "DESPLIEGUE_" + id);
      }
    }

    /** A sidebar button: the view changes and the form closes. */
    method SelectView(view: View)
      modifies this
      ensures activeView == view && !showNewProjectForm
      ensures messages == old(messages) && newMessage == old(newMessage) && onlineStaff == old(onlineStaff)
      ensures userProjects == old(userProjects) && projectForm == old(projectForm)
    {
      activeView := view;
      showNewProjectForm := false;
    }

    /**
     * The "+ Nueva Solicitud" / "+ Nuevo Requerimiento" button, shown in the two request views
     * while the form is closed; in the requirements view it also resets name, package and category.
     */
    method OpenForm()
      modifies this
      ensures var shown := (old(activeView) == ProjectsView || old(activeView) == RequirementsView) && !old(showNewProjectForm);
        showNewProjectForm == (shown || old(showNewProjectForm))
        && projectForm == (if shown && activeView == RequirementsView
                           then old(projectForm).(name := "", package := RequirementPackage, category := DefaultCategory)
                           else old(projectForm))
      ensures activeView == old(activeView) && messages == old(messages) && newMessage == old(newMessage)
      ensures onlineStaff == old(onlineStaff) && userProjects == old(userProjects)
    {
      if (activeView == ProjectsView || activeView == RequirementsView) && !showNewProjectForm {
        showNewProjectForm := true;
        if activeView == RequirementsView {
          projectForm := projectForm.(name := "", package := RequirementPackage, category := DefaultCategory);
        }
      }
    }

    method EditForm(form: ProjectForm)
      modifies this
      ensures projectForm == form
      ensures activeView == old(activeView) && messages == old(messages) && newMessage == old(newMessage)
      ensures onlineStaff == old(onlineStaff) && userProjects == old(userProjects)
      ensures showNewProjectForm == old(showNewProjectForm)
    {
      projectForm := form;
    }

    method EditMessage(text: string)
      modifies this
      ensures newMessage == text
      ensures activeView == old(activeView) && messages == old(messages) && onlineStaff == old(onlineStaff)
      ensures userProjects == old(userProjects) && projectForm == old(projectForm)
      ensures showNewProjectForm == old(showNewProjectForm)
    {
      newMessage := text;
    }

    /**
     * The request fetch of the two request views: this client's rows (table order kept).
     * A failed fetch (`fetchOk` false, no data) keeps the list.
     */
    method LoadProjects(table: seq<ProjectRow>, fetchOk: bool)
      modifies this
      ensures (activeView == ProjectsView || activeView == RequirementsView) && clientEmail != "" && fetchOk ==>
        userProjects == OwnRequests(table, Lower(clientEmail))
      ensures !((activeView == ProjectsView || activeView == RequirementsView) && clientEmail != "" && fetchOk) ==>
        userProjects == old(userProjects)
      ensures activeView == old(activeView) && messages == old(messages) && newMessage == old(newMessage)
      ensures onlineStaff == old(onlineStaff) && projectForm == old(projectForm)
      ensures showNewProjectForm == old(showNewProjectForm)
    {
      if (activeView == ProjectsView || activeView == RequirementsView) && clientEmail != "" && fetchOk {
        userProjects := OwnRequests(table, Lower(clientEmail));
      }
    }

    /** A presence sync on the staff channel: one entry per key, its first tracked meta. */
    method OnStaffPresenceSync(state: PresenceState<StaffMeta>)
      modifies this
      ensures onlineStaff == OnlineStaff(state)
      ensures StaffOnline() <==> IsOnline(state)
      ensures activeView == old(activeView) && messages == old(messages) && newMessage == old(newMessage)
      ensures userProjects == old(userProjects) && projectForm == old(projectForm)
      ensures showNewProjectForm == old(showNewProjectForm)
    {
      onlineStaff := OnlineStaff(state);
    }

    /**
     * Opening the support view: the client's thread is shown (a failed fetch, `fetchOk`
     * false, keeps the list), then the store marks the client's unread staff messages read.
     * Nothing happens elsewhere or without an email.
     */
    method OpenSupport(table: array<Message>, fetchOk: bool)
      modifies this, table
      ensures activeView == Support && clientEmail != "" ==>
        messages == (if fetchOk then Thread(old(table[..]), Lower(clientEmail)) else old(messages))
        && table[..] == MarkedRead(old(table[..]), Lower(clientEmail), true)
      ensures !(activeView == Support && clientEmail != "") ==>
        messages == old(messages) && table[..] == old(table[..])
      ensures activeView == old(activeView) && newMessage == old(newMessage) && onlineStaff == old(onlineStaff)
      ensures userProjects == old(userProjects) && projectForm == old(projectForm)
      ensures showNewProjectForm == old(showNewProjectForm)
    {
      if activeView == Support && clientEmail != "" {
        if fetchOk {
          messages := Thread(table[..], Lower(clientEmail));
        }
        MarkReadInPlace(table, Lower(clientEmail), true);
      }
    }

    /** A realtime INSERT on the client's chat: appended, and marked read if staff wrote it. */
    method OnChatInsert(m: Message, table: array<Message>)
      modifies this, table
      ensures messages == Inserted(old(messages), m)
      ensures m.esStaff ==> table[..] == MarkedReadById(old(table[..]), m.id)
      ensures !m.esStaff ==> table[..] == old(table[..])
      ensures activeView == old(activeView) && newMessage == old(newMessage) && onlineStaff == old(onlineStaff)
      ensures userProjects == old(userProjects) && projectForm == old(projectForm)
      ensures showNewProjectForm == old(showNewProjectForm)
    {
      messages := Inserted(messages, m);
      var target := SingleMarkRead(m, false);
      if target.Some? {
        MarkReadByIdInPlace(table, target.value);
      }
    }

    /** A realtime UPDATE on the client's chat: entries with that id are replaced. */
    method OnChatUpdate(m: Message)
      modifies this
      ensures messages == Updated(old(messages), m)
      ensures activeView == old(activeView) && newMessage == old(newMessage) && onlineStaff == old(onlineStaff)
      ensures userProjects == old(userProjects) && projectForm == old(projectForm)
      ensures showNewProjectForm == old(showNewProjectForm)
    {
      messages := Updated(messages, m);
    }

    /**
     * `sendMessage`: nothing with a blank text or no email; otherwise the customer message is
     * inserted and the input is cleared only when the store reports no error (`ok`).
     */
    method SendMessage(ok: bool) returns (sent: Option<Draft>)
      modifies this
      ensures Blank(old(newMessage)) || clientEmail == "" ==> sent == None && newMessage == old(newMessage)
      ensures !Blank(old(newMessage)) && clientEmail != "" ==>
        sent == Some(ClientDraft(userName, clientEmail, old(newMessage)))
      ensures !Blank(old(newMessage)) && clientEmail != "" ==> newMessage == (if ok then "" else old(newMessage))
      ensures activeView == old(activeView) && messages == old(messages) && onlineStaff == old(onlineStaff)
      ensures userProjects == old(userProjects) && projectForm == old(projectForm)
      ensures showNewProjectForm == old(showNewProjectForm)
    {
      if Blank(newMessage) || clientEmail == "" {
        sent := None;
      } else {
        sent := Some(ClientDraft(userName, clientEmail, newMessage));
        if ok {
          newMessage := "";
        }
      }
    }

    /**
     * `handleFileUpload`: nothing with no file or no email, or when the upload fails
     * (`publicUrl` None); a project brief fills the form's file URL; any other file is sent
     * as an encoded attachment message.
     */
    method UploadFile(file: Option<PickedFile>, isProjectBrief: bool, publicUrl: Option<string>)
      returns (sent: Option<Draft>)
      modifies this
      ensures (file.None? || clientEmail == "" || publicUrl.None?) ==> sent == None && projectForm == old(projectForm)
      ensures file.Some? && clientEmail != "" && publicUrl.Some? && isProjectBrief ==>
        sent == None && projectForm == old(projectForm).(fileUrl := publicUrl.value)
      ensures file.Some? && clientEmail != "" && publicUrl.Some? && !isProjectBrief ==>
        sent == Some(ClientDraft(userName, clientEmail, Encode(file.value.mime, file.value.name, publicUrl.value)))
        && projectForm == old(projectForm)
      ensures activeView == old(activeView) && messages == old(messages) && newMessage == old(newMessage)
      ensures onlineStaff == old(onlineStaff) && userProjects == old(userProjects)
      ensures showNewProjectForm == old(showNewProjectForm)
    {
      sent := None;
      if file.None? || clientEmail == "" || publicUrl.None? {
        return;
      }
      if isProjectBrief {
        projectForm := projectForm.(fileUrl := publicUrl.value);
      } else {
        sent := Some(ClientDraft(userName, clientEmail, Encode(file.value.mime, file.value.name, publicUrl.value)));
      }
    }

    /**
     * `handleProjectSubmit`: the record is built from the form and inserted; when the store
     * accepts it (`ok`) the form closes, otherwise only an alert is shown.
     */
    method SubmitProject(ok: bool) returns (record: ProjectDraft)
      modifies this
      ensures record == BuildRequest(activeView, clientEmail, userName, projectForm)
      ensures showNewProjectForm == (if ok then false else old(showNewProjectForm))
      ensures activeView == old(activeView) && messages == old(messages) && newMessage == old(newMessage)
      ensures onlineStaff == old(onlineStaff) && userProjects == old(userProjects)
      ensures projectForm == old(projectForm)
    {
      record := BuildRequest(activeView, clientEmail, userName, projectForm);
      if ok {
        showNewProjectForm := false;
      }
    }
  }

  // ------------------------------------------------------------ lemmas

  /**
   * `find` semantics: the result is the id of the first catalogue entry the parameter
   * matches, or the default package when it matches none.
   */
  lemma ResolveIsFirstMatch(pkg: string)
    ensures (exists k :: 0 <= k < |Catalog| && PackageMatches(Catalog[k], pkg)) ==>
      exists k :: 0 <= k < |Catalog| && Catalog[k].Id() == ResolvePackage(pkg) && PackageMatches(Catalog[k], pkg)
        && forall j :: 0 <= j < k ==> !PackageMatches(Catalog[j], pkg)
    ensures (forall k :: 0 <= k < |Catalog| ==> !PackageMatches(Catalog[k], pkg)) ==> ResolvePackage(pkg) == DefaultPackage
  {
    var k := FirstMatch(Catalog, pkg);
  }

  /** The first catalogue entry the parameter matches decides the result. */
  lemma ResolvesToMatch(pkg: string, k: nat)
    requires k < |Catalog| && PackageMatches(Catalog[k], pkg)
    requires forall j :: 0 <= j < k ==> !PackageMatches(Catalog[j], pkg)
    ensures ResolvePackage(pkg) == Catalog[k].Id()
  {
    ResolveIsFirstMatch(pkg);
    var id := ResolvePackage(pkg);
    var k' :| 0 <= k' < |Catalog| && Catalog[k'].Id() == id && PackageMatches(Catalog[k'], pkg)
      && forall j :: 0 <= j < k' ==> !PackageMatches(Catalog[j], pkg);
    assert !(k' < k) && !(k < k');
  }

  /** A package whose id lacks a character of `pkg` (the one at `i`) does not match it. */
  lemma MissingCharNoMatch(p: CatalogPackage, pkg: string, i: nat)
    requires i < |pkg| && pkg[i] !in p.Id()
    ensures !PackageMatches(p, pkg)
  {
    IncludedCharsOccur(p.Id(), pkg, pkg[i]);
  }

  /** A package whose id is shorter than `pkg`, or as long but different, does not match it. */
  lemma LongerNoMatch(p: CatalogPackage, pkg: string)
    requires |p.Id()| < |pkg| || (|p.Id()| == |pkg| && p.Id() != pkg)
    ensures !PackageMatches(p, pkg)
  {
    IncludesBounds(p.Id(), pkg);
  }

  /** No catalogue id contains, or is, a later one: each later id is longer or has a missing character. */
  lemma EarlierIdsDoNotMatch(j: nat, k: nat)
    requires j < k < |Catalog|
    ensures !PackageMatches(Catalog[j], Catalog[k].Id())
  {
    if k <= 3 {
      EarlierIdsDoNotMatchLow(j, k);
    } else {
      EarlierIdsDoNotMatchHigh(j, k);
    }
  }

  lemma EarlierIdsDoNotMatchLow(j: nat, k: nat)
    requires j < k <= 3
    ensures !PackageMatches(Catalog[j], Catalog[k].Id())
  {
    var id := Catalog[k].Id();
    if k == 1 {
      LongerNoMatch(NebulaLanding, id);
    } else if k == 2 {
      LongerNoMatch(NebulaLanding, id);
      LongerNoMatch(SupernovaBusiness, id);
    } else {
      PrefixNotInEarlier(id);
    }
  }

  lemma EarlierIdsDoNotMatchHigh(j: nat, k: nat)
    requires j < k && 4 <= k < |Catalog|
    ensures !PackageMatches(Catalog[j], Catalog[k].Id())
  {
    if k == 4 {
      TitaniumNotInEarlier(Catalog[k].Id());
    } else {
      CosmosNotInEarlier(Catalog[k].Id());
    }
  }

  lemma TitaniumNotInEarlier(id: string)
    requires id == TitaniumSystems.Id()
    ensures forall j :: 0 <= j < 4 ==> !PackageMatches(Catalog[j], id)
  {
    LongerNoMatch(NebulaLanding, id);
    LongerNoMatch(OrbitApp, id);
    TitaniumLacks(id);
  }

  lemma TitaniumLacks(id: string)
    requires |id| > 10 && id[0] == 'T' && id[10] == 'Y'
    ensures !PackageMatches(SupernovaBusiness, id) && !PackageMatches(GalacticEcommerce, id)
  {
    MissingCharNoMatch(SupernovaBusiness, id, 0);
    MissingCharNoMatch(GalacticEcommerce, id, 10);
  }

  lemma CosmosNotInEarlier(id: string)
    requires id == CosmosEnterprise.Id()
    ensures forall j :: 0 <= j < 5 ==> !PackageMatches(Catalog[j], id)
  {
    LongerNoMatch(NebulaLanding, id);
    LongerNoMatch(OrbitApp, id);
    LongerNoMatch(TitaniumSystems, id);
    CosmosLacks(id);
  }

  lemma CosmosLacks(id: string)
    requires |id| > 2 && id[0] == 'C' && id[2] == 'S'
    ensures !PackageMatches(SupernovaBusiness, id) && !PackageMatches(GalacticEcommerce, id)
  {
    MissingCharNoMatch(SupernovaBusiness, id, 0);
    MissingCharNoMatch(GalacticEcommerce, id, 2);
  }

  /** Every catalogue id, given exactly, resolves to itself. */
  lemma CatalogIdResolvesToItself(k: nat)
    requires k < |Catalog|
    ensures ResolvePackage(Catalog[k].Id()) == Catalog[k].Id()
  {
    var id := Catalog[k].Id();
    assert StartsWith(id, id);
    forall j | 0 <= j < k ensures !PackageMatches(Catalog[j], id) {
      EarlierIdsDoNotMatch(j, k);
    }
    ResolvesToMatch(id, k);
  }

  /**
   * A partial parameter resolves by containment: any prefix of ORBIT_APP from "ORBIT" on
   * (so `?pkg=orbit`, upper-cased) gives ORBIT_APP.
   */
  lemma PartialParameterResolves(pkg: string)
    requires StartsWith(OrbitApp.Id(), pkg) && |pkg| >= 5
    ensures ResolvePackage(pkg) == OrbitApp.Id()
  {
    assert pkg == OrbitApp.Id()[..|pkg|];
    PrefixNotInEarlier(pkg);
    ResolvesToMatch(pkg, 3);
  }

  lemma PrefixNotInEarlier(pkg: string)
    requires |pkg| >= 5 && pkg[0] == 'O' && pkg[2] == 'B' && pkg[4] == 'T'
    ensures forall j :: 0 <= j < 3 ==> !PackageMatches(Catalog[j], pkg)
  {
    MissingCharNoMatch(NebulaLanding, pkg, 0);
    PrefixLacks(pkg);
  }

  lemma PrefixLacks(pkg: string)
    requires |pkg| >= 5 && pkg[2] == 'B' && pkg[4] == 'T'
    ensures !PackageMatches(SupernovaBusiness, pkg) && !PackageMatches(GalacticEcommerce, pkg)
  {
    MissingCharNoMatch(SupernovaBusiness, pkg, 4);
    MissingCharNoMatch(GalacticEcommerce, pkg, 2);
  }

  /** A parameter with a character no id has falls back to the first package. */
  lemma UnmatchedParameterFallsBack(pkg: string, c: char)
    requires c in pkg
    requires forall k :: 0 <= k < |Catalog| ==> c !in Catalog[k].Id()
    ensures ResolvePackage(pkg) == DefaultPackage
  {
    forall k | 0 <= k < |Catalog| ensures !PackageMatches(Catalog[k], pkg) {
      IncludedCharsOccur(Catalog[k].Id(), pkg, c);
    }
    ResolveIsFirstMatch(pkg);
  }

  /** No catalogue display name is the requirement marker. */
  lemma PackageNameIsRequirementIff(id: string)
    ensures PackageName(id) == RequirementPackage <==> id == RequirementPackage
  {
  }

  /**
   * A submitted request reaches the client's own list; from the requirements view it is
   * listed as a requirement, from the projects view it is listed there exactly when the
   * form's package is not the requirement marker (the projects form keeps the package the
   * requirements button last set).
   */
  lemma SubmittedRequestIsListed(view: View, table: seq<ProjectRow>, clientEmail: string, userName: string,
                                 form: ProjectForm, id: string)
    ensures var p := StoredRequest(BuildRequest(view, clientEmail, userName, form), id);
      var own := OwnRequests(table + [p], Lower(clientEmail));
      p in own
      && (view == RequirementsView ==> p in ViewList(RequirementsView, own))
      && (view == ProjectsView ==> (p in ViewList(ProjectsView, own) <==> form.package != RequirementPackage))
  {
    PackageNameIsRequirementIff(form.package);
  }

  /**
   * A client message, once stored, marks nothing when it comes back to the client's chat,
   * while the staff room marks it read by id; it is in the client's thread, and the bulk
   * update of staff opening that conversation flips it.
   */
  lemma ClientMessageIsReadByStaff(table: seq<Message>, userName: string, clientEmail: string, text: string,
                                   id: string, createdAt: int)
    ensures var m := Stored(ClientDraft(userName, clientEmail, text), id, createdAt);
      && SingleMarkRead(m, false) == None
      && SingleMarkRead(m, true) == Some(id)
      && m in Thread(table + [m], Lower(clientEmail))
      && MarkedRead(table + [m], Lower(clientEmail), false)[|table|] == m.(leido := true)
  {
    var m := Stored(ClientDraft(userName, clientEmail, text), id, createdAt);
    assert (table + [m])[|table|] == m;
  }

  /** `?pkg=ß` upper-cases to "SS", which only SUPERNOVA_BUSINESS contains. */
  lemma SharpSParameterResolves(pkg: string)
    requires pkg == "ß"
    ensures ResolvePackage(Upper(pkg)) == SupernovaBusiness.Id()
  {
    var up := Upper(pkg);
    assert up == "SS" + Upper(pkg[1..]);
    DoubleSResolves(up);
  }

  lemma DoubleSResolves(pkg: string)
    requires |pkg| == 2 && pkg[0] == 'S' && pkg[1] == 'S'
    ensures ResolvePackage(pkg) == SupernovaBusiness.Id()
  {
    var id := SupernovaBusiness.Id();
    assert id[16..18] == pkg;
    assert OccursAt(id, pkg, 16);
    IncludesIff(id, pkg);
    assert PackageMatches(Catalog[1], pkg);
    MissingCharNoMatch(NebulaLanding, pkg, 0);
    ResolvesToMatch(pkg, 1);
  }
}
