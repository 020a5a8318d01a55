/**
 * The staff console (`/admin/soporte`) as an object: the fields are the component's state,
 * the methods are its event handlers. Store rows that a handler updates in place are an
 * `array<Message>` parameter; rows a handler inserts are returned as drafts. Realtime
 * delivery is outside the model: a handler method is what runs when its event arrives.
 */
module StaffConsole {
  import opened Wrappers
  import opened Text
  import opened Chat
  import opened ActivityLog
  import opened Conversations
  import opened Projects
  import opened Presence
  import opened Attachments

  /** The console's sidebar tabs. */
  datatype AdminTab = Soporte | Requerimientos | Proyectos | Solicitudes | Sistema | Usuarios | Servicios

  const StaffName: string := "GRAVITY_ADMIN"

  /** A client is selected when `selectedClient` is truthy: present and not the empty string. */
  predicate Selected(client: Option<string>) {
    client.Some? && client.value != ""
  }

  /** The tabs that list project requests. */
  predicate RequestTab(tab: AdminTab) {
    tab == Solicitudes || tab == Requerimientos || tab == Proyectos
  }

  /**
   * The request filter of a tab: it keeps the additional requirements on 'requerimientos',
   * every row on 'proyectos', and the rows that are not additional requirements otherwise.
   */
  function TabView(tab: AdminTab, rows: seq<ProjectRow>): (r: seq<ProjectRow>)
    ensures tab == Requerimientos ==> forall p :: p in r <==> p in rows && IsRequirement(p)
    ensures tab == Proyectos ==> r == rows
    ensures tab != Requerimientos && tab != Proyectos ==> forall p :: p in r <==> p in rows && !IsRequirement(p)
  {
    if tab == Requerimientos then Requirements(rows)
    else if tab == Proyectos then rows
    else NonRequirements(rows)
  }

  /** The message a staff reply inserts. */
  function StaffDraft(client: string, contenido: string): (d: Draft)
    ensures d.esStaff && !d.leido && d.clienteEmail == client && d.contenido == contenido
    ensures d.emisorNombre == StaffName
  {
    Draft(StaffName, contenido, client, true, false)
  }

  /** The status-change audit line; an unknown id gives `undefined` in the template string. */
  function StatusMessage(project: Option<ProjectRow>, status: string): string {
    "STATUS_SYNC: " + (if project.Some? then project.value.proyectoNombre else "undefined")
    + " movido a " + Upper(status)
  }

  function ReplyLogMessage(client: string): string {
    "TERMINAL_MSG: Respuesta enviada a " + client
  }

  function UploadLogMessage(client: string): string {
    "TRANSFERENCIA_ARCHIVOS: Adjunto enviado a terminal " + client
  }

  class Console {
    var activeTab: AdminTab
    var chats: seq<Message>
    var selectedClient: Option<string>
    var messages: seq<Message>
    var reply: string
    /** `onlineUsers`, keyed by the lower-cased client email. */
    var onlineUsers: map<string, bool>
    var projectRequests: seq<ProjectRow>
    var systemLogs: seq<LogEntry>

    constructor ()
      ensures activeTab == Soporte && chats == [] && selectedClient == None && messages == []
      ensures reply == "" && onlineUsers == map[] && projectRequests == [] && systemLogs == []
    {
      activeTab := Soporte;
      chats := [];
      selectedClient := None;
      messages := [];
      reply := "";
      onlineUsers := map[];
      projectRequests := [];
      systemLogs := [];
    }

    /** What the list and the terminal header show for a client: `onlineUsers[email.toLowerCase()]`. */
    predicate ShownOnline(email: string)
      reads this
    {
      Lower(email) in onlineUsers && onlineUsers[Lower(email)]
    }

    /** The requests listed on the current tab; the tabs that are not request tabs list none. */
    function VisibleRequests(): (r: seq<ProjectRow>)
      reads this
      ensures !RequestTab(activeTab) ==> r == []
      ensures activeTab == Requerimientos ==> forall p :: p in r <==> p in projectRequests && IsRequirement(p)
      ensures activeTab == Proyectos ==> r == projectRequests
      ensures activeTab == Solicitudes ==> forall p :: p in r <==> p in projectRequests && !IsRequirement(p)
    {
      if RequestTab(activeTab) then TabView(activeTab, projectRequests) else []
    }

    method SelectTab(tab: AdminTab)
      modifies this
      ensures activeTab == tab
      ensures chats == old(chats) && selectedClient == old(selectedClient) && messages == old(messages)
      ensures reply == old(reply) && onlineUsers == old(onlineUsers)
      ensures projectRequests == old(projectRequests) && systemLogs == old(systemLogs)
    {
      activeTab := tab;
    }

    method SelectClient(client: string)
      modifies this
      ensures selectedClient == Some(client)
      ensures activeTab == old(activeTab) && chats == old(chats) && messages == old(messages)
      ensures reply == old(reply) && onlineUsers == old(onlineUsers)
      ensures projectRequests == old(projectRequests) && systemLogs == old(systemLogs)
    {
      selectedClient := Some(client);
    }

    method EditReply(text: string)
      modifies this
      ensures reply == text
      ensures activeTab == old(activeTab) && chats == old(chats) && selectedClient == old(selectedClient)
      ensures messages == old(messages) && onlineUsers == old(onlineUsers)
      ensures projectRequests == old(projectRequests) && systemLogs == old(systemLogs)
    {
      reply := text;
    }

    /**
     * `logActivity`: the tagged entry goes in front of the shown log, which keeps 50 entries;
     * the returned row is what is stored in `logs_sistema` (a failed store is only reported
     * on the console). `id` and `time` stand for the random id and the clock.
     */
    method Log(kind: Kind, message: string, id: string, time: string) returns (row: LogInsert)
      modifies this
      ensures systemLogs == Prepended(old(systemLogs), NewEntry(id, time, kind, message))
      ensures row == Persisted(kind, message)
      ensures activeTab == old(activeTab) && chats == old(chats) && selectedClient == old(selectedClient)
      ensures messages == old(messages) && reply == old(reply) && onlineUsers == old(onlineUsers)
      ensures projectRequests == old(projectRequests)
    {
      systemLogs := Prepended(systemLogs, NewEntry(id, time, kind, message));
      row := Persisted(kind, message);
    }

    /**
     * The completion of `fetchLogs`, which the 'sistema' tab starts: the stored rows, newest
     * first, replace the log. The tab is not checked, since the fetch may finish after it changed.
     */
    method LoadLogs(data: Option<seq<LogRow>>)
      modifies this
      ensures data.Some? ==> systemLogs == Loaded(data.value)
      ensures data.None? ==> systemLogs == old(systemLogs)
      ensures activeTab == old(activeTab) && chats == old(chats) && selectedClient == old(selectedClient)
      ensures messages == old(messages) && reply == old(reply) && onlineUsers == old(onlineUsers)
      ensures projectRequests == old(projectRequests)
    {
      if data.Some? {
        systemLogs := Loaded(data.value);
      }
    }

    /** The monitor channel on a new message: customer messages are logged, staff ones are not. */
    method OnMonitorMessage(m: Message, id: string, time: string) returns (row: Option<LogInsert>)
      modifies this
      ensures !m.esStaff ==>
        row == Some(Persisted(Info, "Mensaje entrante de " + m.emisorNombre))
        && systemLogs == Prepended(old(systemLogs), NewEntry(id, time, Info, "Mensaje entrante de " + m.emisorNombre))
      ensures m.esStaff ==> row == None && systemLogs == old(systemLogs)
      ensures activeTab == old(activeTab) && chats == old(chats) && selectedClient == old(selectedClient)
      ensures messages == old(messages) && reply == old(reply) && onlineUsers == old(onlineUsers)
      ensures projectRequests == old(projectRequests)
    {
      row := None;
      if !m.esStaff {
        var r := Log(Info, "Mensaje entrante de " + m.emisorNombre, id, time);
        row := Some(r);
      }
    }

    /** The monitor channel on a new project request. */
    method OnMonitorRequest(p: ProjectRow, id: string, time: string) returns (row: LogInsert)
      modifies this
      ensures row == Persisted(User, "Nueva solicitud recibida: " + p.proyectoNombre)
      ensures systemLogs == Prepended(old(systemLogs), NewEntry(id, time, User, "Nueva solicitud recibida: " + p.proyectoNombre))
      ensures activeTab == old(activeTab) && chats == old(chats) && selectedClient == old(selectedClient)
      ensures messages == old(messages) && reply == old(reply) && onlineUsers == old(onlineUsers)
      ensures projectRequests == old(projectRequests)
    {
      row := Log(User, "Nueva solicitud recibida: " + p.proyectoNombre, id, time);
    }

    /**
     * `fetchGlobalData`: the summary columns of every message, newest first, reduced to one
     * entry per client through a JS `Map`. It re-runs on any change to the message table.
     */
    method FetchGlobalData(data: Option<seq<Message>>)
      modifies this
      ensures data.Some? ==> chats == ConversationList(data.value)
      ensures data.None? ==> chats == old(chats)
      ensures activeTab == old(activeTab) && selectedClient == old(selectedClient) && messages == old(messages)
      ensures reply == old(reply) && onlineUsers == old(onlineUsers)
      ensures projectRequests == old(projectRequests) && systemLogs == old(systemLogs)
    {
      if data.Some? {
        chats := ConversationList(data.value);
      }
    }

    /** A presence sync on a client's `online-status-<email>` channel. */
    method OnPresenceSync<M>(clientEmail: string, state: PresenceState<M>)
      modifies this
      ensures onlineUsers == old(onlineUsers)[Lower(clientEmail) := IsOnline(state)]
      ensures forall e :: Lower(e) == Lower(clientEmail) ==> (ShownOnline(e) <==> IsOnline(state))
      ensures activeTab == old(activeTab) && chats == old(chats) && selectedClient == old(selectedClient)
      ensures messages == old(messages) && reply == old(reply)
      ensures projectRequests == old(projectRequests) && systemLogs == old(systemLogs)
    {
      onlineUsers := onlineUsers[Lower(clientEmail) := IsOnline(state)];
    }

    /**
     * Opening a conversation (the effect on `selectedClient` / `activeTab`): the client's
     * thread is shown as fetched (`data || []`: empty when the fetch fails, `fetchOk`
     * false), then the store marks that client's unread customer messages read. Off the
     * 'soporte' tab or with no client selected nothing happens.
     */
    method LoadConversation(table: array<Message>, fetchOk: bool)
      modifies this, table
      ensures Selected(selectedClient) && activeTab == Soporte ==>
        messages == (if fetchOk then Thread(old(table[..]), selectedClient.value) else [])
        && table[..] == MarkedRead(old(table[..]), selectedClient.value, false)
      ensures !(Selected(selectedClient) && activeTab == Soporte) ==>
        messages == old(messages) && table[..] == old(table[..])
      ensures activeTab == old(activeTab) && chats == old(chats) && selectedClient == old(selectedClient)
      ensures reply == old(reply) && onlineUsers == old(onlineUsers)
      ensures projectRequests == old(projectRequests) && systemLogs == old(systemLogs)
    {
      if Selected(selectedClient) && activeTab == Soporte {
        messages := if fetchOk then Thread(table[..], selectedClient.value) else [];
        MarkReadInPlace(table, selectedClient.value, false);
      }
    }

    /**
     * A realtime INSERT in the open room: the row is appended and, when a customer wrote it,
     * the store marks that id read.
     */
    method OnRoomInsert(m: Message, table: array<Message>)
      modifies this, table
      ensures messages == Inserted(old(messages), m)
      ensures !m.esStaff ==> table[..] == MarkedReadById(old(table[..]), m.id)
      ensures m.esStaff ==> table[..] == old(table[..])
      ensures activeTab == old(activeTab) && chats == old(chats) && selectedClient == old(selectedClient)
      ensures reply == old(reply) && onlineUsers == old(onlineUsers)
      ensures projectRequests == old(projectRequests) && systemLogs == old(systemLogs)
    {
      messages := Inserted(messages, m);
      var target := SingleMarkRead(m, true);
      if target.Some? {
        MarkReadByIdInPlace(table, target.value);
      }
    }

    /** A realtime UPDATE in the open room: entries with that id are replaced. */
    method OnRoomUpdate(m: Message)
      modifies this
      ensures messages == Updated(old(messages), m)
      ensures activeTab == old(activeTab) && chats == old(chats) && selectedClient == old(selectedClient)
      ensures reply == old(reply) && onlineUsers == old(onlineUsers)
      ensures projectRequests == old(projectRequests) && systemLogs == old(systemLogs)
    {
      messages := Updated(messages, m);
    }

    /**
     * `sendReply`: with a blank reply or no client selected nothing happens; otherwise the reply is
     * inserted as a staff message (its result is not checked), logged, and the input cleared.
     */
    method SendReply(id: string, time: string) returns (sent: Option<Draft>, row: Option<LogInsert>)
      modifies this
      ensures Blank(old(reply)) || !Selected(old(selectedClient)) ==>
        sent == None && row == None && reply == old(reply) && systemLogs == old(systemLogs)
      ensures !Blank(old(reply)) && Selected(old(selectedClient)) ==>
        sent == Some(StaffDraft(old(selectedClient).value, old(reply)))
      ensures !Blank(old(reply)) && Selected(old(selectedClient)) ==>
        row == Some(Persisted(Info, ReplyLogMessage(old(selectedClient).value)))
      ensures !Blank(old(reply)) && Selected(old(selectedClient)) ==>
        systemLogs == Prepended(old(systemLogs), NewEntry(id, time, Info, ReplyLogMessage(old(selectedClient).value)))
      ensures !Blank(old(reply)) && Selected(old(selectedClient)) ==> reply == ""
      ensures activeTab == old(activeTab) && chats == old(chats) && selectedClient == old(selectedClient)
      ensures messages == old(messages) && onlineUsers == old(onlineUsers)
      ensures projectRequests == old(projectRequests)
    {
      if Blank(reply) || !Selected(selectedClient) {
        sent, row := None, None;
      } else {
        var client := selectedClient.value;
        sent := Some(StaffDraft(client, reply));
        var r := Log(Info, ReplyLogMessage(client), id, time);
        row := Some(r);
        reply := "";
      }
    }

    /**
     * `handleFileUpload`: with no file or no client nothing happens; a failed upload
     * (`publicUrl` is None) only alerts; otherwise the encoded attachment is inserted as a
     * staff message and logged.
     */
    method SendAttachment(file: Option<PickedFile>, publicUrl: Option<string>, id: string, time: string)
      returns (sent: Option<Draft>, row: Option<LogInsert>)
      modifies this
      ensures file.None? || !Selected(old(selectedClient)) || publicUrl.None? ==>
        sent == None && row == None && systemLogs == old(systemLogs)
      ensures file.Some? && Selected(old(selectedClient)) && publicUrl.Some? ==>
        sent == Some(StaffDraft(old(selectedClient).value, Encode(file.value.mime, file.value.name, publicUrl.value)))
      ensures file.Some? && Selected(old(selectedClient)) && publicUrl.Some? ==>
        row == Some(Persisted(Info, UploadLogMessage(old(selectedClient).value)))
      ensures file.Some? && Selected(old(selectedClient)) && publicUrl.Some? ==>
        systemLogs == Prepended(old(systemLogs), NewEntry(id, time, Info, UploadLogMessage(old(selectedClient).value)))
      ensures activeTab == old(activeTab) && chats == old(chats) && selectedClient == old(selectedClient)
      ensures messages == old(messages) && reply == old(reply) && onlineUsers == old(onlineUsers)
      ensures projectRequests == old(projectRequests)
    {
      if file.None? || !Selected(selectedClient) || publicUrl.None? {
        sent, row := None, None;
      } else {
        var client := selectedClient.value;
        sent := Some(StaffDraft(client, Encode(file.value.mime, file.value.name, publicUrl.value)));
        var r := Log(Info, UploadLogMessage(client), id, time);
        row := Some(r);
      }
    }

    /**
     * The completion of `fetchProjects`, which the 'solicitudes' / 'requerimientos' /
     * 'proyectos' tabs start. The tab is not checked, since the fetch may finish after it changed.
     */
    method LoadProjects(data: Option<seq<ProjectRow>>)
      modifies this
      ensures data.Some? ==> projectRequests == data.value
      ensures data.None? ==> projectRequests == old(projectRequests)
      ensures activeTab == old(activeTab) && chats == old(chats) && selectedClient == old(selectedClient)
      ensures messages == old(messages) && reply == old(reply) && onlineUsers == old(onlineUsers)
      ensures systemLogs == old(systemLogs)
    {
      if data.Some? {
        projectRequests := data.value;
      }
    }

    /**
     * `handleStatusChange`: when the store accepts the update (`ok`), the change is logged
     * and the matching rows take the new status; when it fails nothing changes.
     */
    method HandleStatusChange(projectId: string, newStatus: string, ok: bool, id: string, time: string)
      returns (row: Option<LogInsert>)
      modifies this
      ensures ok ==>
        var msg := StatusMessage(FindById(old(projectRequests), projectId), newStatus);
        row == Some(Persisted(Info, msg))
        && systemLogs == Prepended(old(systemLogs), NewEntry(id, time, Info, msg))
        && projectRequests == WithStatus(old(projectRequests), projectId, newStatus)
      ensures !ok ==> row == None && systemLogs == old(systemLogs) && projectRequests == old(projectRequests)
      ensures activeTab == old(activeTab) && chats == old(chats) && selectedClient == old(selectedClient)
      ensures messages == old(messages) && reply == old(reply) && onlineUsers == old(onlineUsers)
    {
      row := None;
      var project := FindById(projectRequests, projectId);
      if ok {
        var r := Log(Info, StatusMessage(project, newStatus), id, time);
        row := Some(r);
        projectRequests := WithStatus(projectRequests, projectId, newStatus);
      }
    }
  }

  // ------------------------------------------------------------ lemmas

  /** On every tab but 'proyectos', the requirement tab and the remaining tabs split the list. */
  lemma TabsPartition(rows: seq<ProjectRow>)
    ensures multiset(TabView(Requerimientos, rows)) + multiset(TabView(Solicitudes, rows)) == multiset(rows)
    ensures TabView(Proyectos, rows) == rows
  {
    FiltersPartition(rows);
  }

  /** A status change keeps every request on the tab it was on. */
  lemma StatusChangeKeepsTabView(tab: AdminTab, rows: seq<ProjectRow>, id: string, status: string)
    ensures TabView(tab, WithStatus(rows, id, status)) == WithStatus(TabView(tab, rows), id, status)
  {
    StatusChangeKeepsRequirements(rows, id, status);
    StatusChangeKeepsProjects(rows, id, status);
  }

  /**
   * A staff reply, once stored, comes back to the staff room as an INSERT that marks nothing,
   * while the client's chat marks it read by id; it is in that client's thread, and the
   * bulk update of the client opening the support view flips it.
   */
  lemma StaffReplyIsReadByClient(table: seq<Message>, client: string, text: string, id: string, createdAt: int)
    ensures var m := Stored(StaffDraft(client, text), id, createdAt);
      && SingleMarkRead(m, true) == None
      && SingleMarkRead(m, false) == Some(id)
      && m in Thread(table + [m], client)
      && MarkedRead(table + [m], client, true)[|table|] == m.(leido := true)
  {
    var m := Stored(StaffDraft(client, text), id, createdAt);
    assert (table + [m])[|table|] == m;
  }
}
