/**
 * Rows of the support-message table (`mensajes_soporte`) and what the two chat consoles do
 * with them: the realtime INSERT / UPDATE handlers on the local message list, the bulk and
 * single "mark as read" updates sent to the store, and the fetch of one conversation.
 * The staff console and the client dashboard share all of this; they differ only in the
 * viewer's role, which decides whose rows get marked read.
 */
module Chat {
  import opened Wrappers

  /** One row of the message table. `createdAt` is the store's creation timestamp. */
  datatype Message = Message(
    id: string,
    clienteEmail: string,
    createdAt: int,
    esStaff: bool,
    emisorNombre: string,
    contenido: string,
    leido: bool)

  /** The payload of an insert: the store assigns `id` and `created_at`. */
  datatype Draft = Draft(
    emisorNombre: string,
    contenido: string,
    clienteEmail: string,
    esStaff: bool,
    leido: bool)

  /** The row the store creates for a draft. */
  function Stored(d: Draft, id: string, createdAt: int): Message {
    Message(id, d.clienteEmail, createdAt, d.esStaff, d.emisorNombre, d.contenido, d.leido)
  }

  // ------------------------------------------------------------ realtime handlers

  /** INSERT event: the payload is appended, whether or not its id is already listed. */
  function Inserted(msgs: seq<Message>, m: Message): (r: seq<Message>)
    ensures |r| == |msgs| + 1 && r[..|msgs|] == msgs && r[|msgs|] == m
  {
    msgs + [m]
  }

  /** UPDATE event: every entry whose id is the payload's is replaced by the payload. */
  function Updated(msgs: seq<Message>, m: Message): (r: seq<Message>)
    ensures |r| == |msgs|
    ensures forall i :: 0 <= i < |msgs| ==> r[i] == (if msgs[i].id == m.id then m else msgs[i])
  {
    if msgs == [] then []
    else [if msgs[0].id == m.id then m else msgs[0]] + Updated(msgs[1..], m)
  }

  /** How many entries carry the given id. */
  function CountId(msgs: seq<Message>, id: string): nat {
    if msgs == [] then 0 else (if msgs[0].id == id then 1 else 0) + CountId(msgs[1..], id)
  }

  /** The ids of a list, in order. */
  function Ids(msgs: seq<Message>): (r: seq<string>)
    ensures |r| == |msgs| && forall i :: 0 <= i < |msgs| ==> r[i] == msgs[i].id
  {
    seq(|msgs|, i requires 0 <= i < |msgs| => msgs[i].id)
  }

  // ------------------------------------------------------------ read state in the store

  /** The row filter of the bulk update: the conversation's unread rows by the given author role. */
  predicate BulkTarget(m: Message, email: string, authorIsStaff: bool) {
    m.clienteEmail == email && m.esStaff == authorIsStaff && !m.leido
  }

  /** The table after `update({leido: true})` filtered by email, author role and `leido = false`. */
  function MarkedRead(rows: seq<Message>, email: string, authorIsStaff: bool): (r: seq<Message>)
    ensures |r| == |rows|
    ensures forall i :: 0 <= i < |rows| ==>
      r[i] == (if BulkTarget(rows[i], email, authorIsStaff) then rows[i].(leido := true) else rows[i])
  {
    if rows == [] then []
    else
      [if BulkTarget(rows[0], email, authorIsStaff) then rows[0].(leido := true) else rows[0]]
      + MarkedRead(rows[1..], email, authorIsStaff)
  }

  /** The table after `update({leido: true}).eq('id', id)`. */
  function MarkedReadById(rows: seq<Message>, id: string): (r: seq<Message>)
    ensures |r| == |rows|
    ensures forall i :: 0 <= i < |rows| ==>
      r[i] == (if rows[i].id == id then rows[i].(leido := true) else rows[i])
  {
    if rows == [] then []
    else [if rows[0].id == id then rows[0].(leido := true) else rows[0]] + MarkedReadById(rows[1..], id)
  }

  /** A viewer marks read the rows written by the other role. */
  function AuthorToMark(viewerIsStaff: bool): bool {
    !viewerIsStaff
  }

  /** The single mark-read an incoming INSERT triggers, if any: the id of a row by the other role. */
  function SingleMarkRead(m: Message, viewerIsStaff: bool): (r: Option<string>)
    ensures r.Some? <==> m.esStaff == AuthorToMark(viewerIsStaff)
    ensures r.Some? ==> r.value == m.id
  {
    if m.esStaff != viewerIsStaff then Some(m.id) else None
  }

  /** The conversation `select('*').eq('cliente_email', email)`, in table order. */
  function Thread(rows: seq<Message>, email: string): (r: seq<Message>)
    ensures forall k :: 0 <= k < |r| ==> r[k].clienteEmail == email && r[k] in rows
    ensures forall k :: 0 <= k < |rows| && rows[k].clienteEmail == email ==> rows[k] in r
  {
    if rows == [] then []
    else (if rows[0].clienteEmail == email then [rows[0]] else []) + Thread(rows[1..], email)
  }

  // ------------------------------------------------------------ the store applying an update

  /** The store applying the bulk update row by row, in place. */
  method MarkReadInPlace(table: array<Message>, email: string, authorIsStaff: bool)
    modifies table
    ensures table[..] == MarkedRead(old(table[..]), email, authorIsStaff)
  {
    ghost var before := table[..];
    for i := 0 to table.Length
      invariant forall k :: 0 <= k < i ==>
        table[k] == (if BulkTarget(before[k], email, authorIsStaff) then before[k].(leido := true) else before[k])
      invariant forall k :: i <= k < table.Length ==> table[k] == before[k]
    {
      if BulkTarget(table[i], email, authorIsStaff) {
        table[i] := table[i].(leido := true);
      }
    }
  }

  /** The store applying the single update `eq('id', id)`, in place. */
  method MarkReadByIdInPlace(table: array<Message>, id: string)
    modifies table
    ensures table[..] == MarkedReadById(old(table[..]), id)
  {
    ghost var before := table[..];
    for i := 0 to table.Length
      invariant forall k :: 0 <= k < i ==>
        table[k] == (if before[k].id == id then before[k].(leido := true) else before[k])
      invariant forall k :: i <= k < table.Length ==> table[k] == before[k]
    {
      if table[i].id == id {
        table[i] := table[i].(leido := true);
      }
    }
  }

  // ------------------------------------------------------------ lemmas

  /**
   * The single update agrees with the bulk one: an unread row that an INSERT marks read by
   * its id is one the bulk update of its conversation, for the same viewer, flips as well.
   */
  lemma SingleMarkReadAgreesWithBulk(rows: seq<Message>, i: int, viewerIsStaff: bool)
    requires 0 <= i < |rows| && !rows[i].leido
    requires SingleMarkRead(rows[i], viewerIsStaff).Some?
    ensures BulkTarget(rows[i], rows[i].clienteEmail, AuthorToMark(viewerIsStaff))
    ensures MarkedReadById(rows, SingleMarkRead(rows[i], viewerIsStaff).value)[i]
      == MarkedRead(rows, rows[i].clienteEmail, AuthorToMark(viewerIsStaff))[i]
      == rows[i].(leido := true)
  {
  }

  /** The thread of two stretches of the table is the two threads in table order. */
  lemma {:induction false} ThreadConcat(a: seq<Message>, b: seq<Message>, email: string)
    ensures Thread(a + b, email) == Thread(a, email) + Thread(b, email)
  {
    if a == [] {
      assert a + b == b;
    } else {
      assert (a + b)[1..] == a[1..] + b;
      ThreadConcat(a[1..], b, email);
    }
  }

  lemma {:induction false} CountIdConcat(a: seq<Message>, b: seq<Message>, id: string)
    ensures CountId(a + b, id) == CountId(a, id) + CountId(b, id)
  {
    if a == [] {
      assert a + b == b;
    } else {
      assert (a + b)[1..] == a[1..] + b;
      CountIdConcat(a[1..], b, id);
    }
  }

  /** An INSERT never de-duplicates: the payload's id is listed once more than before. */
  lemma InsertAddsCopy(msgs: seq<Message>, m: Message)
    ensures CountId(Inserted(msgs, m), m.id) == CountId(msgs, m.id) + 1
    ensures forall id :: id != m.id ==> CountId(Inserted(msgs, m), id) == CountId(msgs, id)
  {
    forall id ensures CountId(Inserted(msgs, m), id) == CountId(msgs, id) + (if id == m.id then 1 else 0) {
      CountIdConcat(msgs, [m], id);
      assert [m][1..] == [];
    }
  }

  /** A repeated INSERT of a listed id leaves two entries with that id. */
  lemma RepeatedInsertDuplicates(msgs: seq<Message>, m: Message)
    requires m.id in Ids(msgs)
    ensures CountId(Inserted(msgs, m), m.id) >= 2
  {
    InsertAddsCopy(msgs, m);
    var i :| 0 <= i < |msgs| && msgs[i].id == m.id;
    CountIdPositive(msgs, i);
  }

  lemma {:induction false} CountIdPositive(msgs: seq<Message>, i: nat)
    requires i < |msgs|
    ensures CountId(msgs, msgs[i].id) >= 1
  {
    if i > 0 {
      CountIdPositive(msgs[1..], i - 1);
    }
  }

  /** An UPDATE keeps the ids, in order, and so the number of entries per id. */
  lemma UpdateKeepsIds(msgs: seq<Message>, m: Message)
    ensures Ids(Updated(msgs, m)) == Ids(msgs)
  {
  }

  /** An UPDATE whose id is not listed changes nothing. */
  lemma UpdateUnknownIsNoop(msgs: seq<Message>, m: Message)
    requires m.id !in Ids(msgs)
    ensures Updated(msgs, m) == msgs
  {
    var r := Updated(msgs, m);
    assert forall i :: 0 <= i < |msgs| ==> msgs[i].id != m.id;
  }

  /** Delivering the same UPDATE twice is the same as delivering it once. */
  lemma UpdateIdempotent(msgs: seq<Message>, m: Message)
    ensures Updated(Updated(msgs, m), m) == Updated(msgs, m)
  {
  }

  /** After the bulk update no row of that conversation by that role is unread; the rest is unchanged. */
  lemma MarkedReadClears(rows: seq<Message>, email: string, authorIsStaff: bool)
    ensures var r := MarkedRead(rows, email, authorIsStaff);
      forall i :: 0 <= i < |r| ==> !BulkTarget(r[i], email, authorIsStaff)
  {
  }

  /** A second bulk update changes nothing. */
  lemma MarkedReadIdempotent(rows: seq<Message>, email: string, authorIsStaff: bool)
    ensures MarkedRead(MarkedRead(rows, email, authorIsStaff), email, authorIsStaff)
         == MarkedRead(rows, email, authorIsStaff)
  {
  }

  /** Read state is monotonic: the updates only ever turn `leido` on. */
  lemma MarkReadMonotone(rows: seq<Message>, email: string, authorIsStaff: bool, id: string)
    ensures forall i :: 0 <= i < |rows| && rows[i].leido ==>
      MarkedRead(rows, email, authorIsStaff)[i].leido && MarkedReadById(rows, id)[i].leido
  {
  }

  /** The number of rows the bulk update flips. */
  function CountTargets(rows: seq<Message>, email: string, authorIsStaff: bool): nat {
    if rows == [] then 0
    else
      (if BulkTarget(rows[0], email, authorIsStaff) then 1 else 0)
      + CountTargets(rows[1..], email, authorIsStaff)
  }

  /** How many rows differ between two tables of the same length. */
  function CountChanged(a: seq<Message>, b: seq<Message>): nat
    requires |a| == |b|
  {
    if a == [] then 0 else (if a[0] != b[0] then 1 else 0) + CountChanged(a[1..], b[1..])
  }

  /** The bulk update changes exactly the targeted rows: as many rows as there were unread ones. */
  lemma {:induction false} MarkedReadCount(rows: seq<Message>, email: string, authorIsStaff: bool)
    ensures CountChanged(rows, MarkedRead(rows, email, authorIsStaff)) == CountTargets(rows, email, authorIsStaff)
  {
    if rows != [] {
      var r := MarkedRead(rows, email, authorIsStaff);
      assert r[1..] == MarkedRead(rows[1..], email, authorIsStaff);
      MarkedReadCount(rows[1..], email, authorIsStaff);
    }
  }
}
