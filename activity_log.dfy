/**
 * The staff console's activity log: entries are shown newest first, and `logActivity`
 * prepends a new entry and keeps the first 50 (`[newLog, ...prev].slice(0, 50)`).
 * Loading the "sistema" tab replaces the log with up to 100 stored rows.
 */
module ActivityLog {

  const Capacity: nat := 50
  /** `.limit(100)` of the stored-log query. */
  const LoadLimit: nat := 100
  const AdminTag: string := "DAVID_ADMIN"

  /** The `type` argument of `logActivity`. */
  datatype Kind = Info | Warn | Error | User

  function KindName(k: Kind): string {
    match k
    case Info => "INFO"
    case Warn => "WARN"
    case Error => "ERROR"
    case User => "USER"
  }

  /** An entry as shown; the id and the formatted time come from outside (random, clock). */
  datatype LogEntry = LogEntry(id: string, time: string, kind: string, message: string)

  /** A stored row of `logs_sistema`; `time` is its `fecha_hora` as the page formats it. */
  datatype LogRow = LogRow(id: string, time: string, tipo: string, mensaje: string, autor: string)

  /** What `logActivity` inserts into `logs_sistema` (the ISO timestamp is left out). */
  datatype LogInsert = LogInsert(tipo: string, mensaje: string, autor: string)

  function Min(a: nat, b: nat): nat {
    if a <= b then a else b
  }

  /** The message as shown: `[<author>] <message>`. */
  function Tagged(author: string, message: string): string {
    "[" + author + "] " + message
  }

  /** The entry `logActivity` builds. */
  function NewEntry(id: string, time: string, kind: Kind, message: string): (e: LogEntry)
    ensures e.kind == KindName(kind) && e.message == Tagged(AdminTag, message)
  {
    LogEntry(id, time, KindName(kind), Tagged(AdminTag, message))
  }

  /** The row `logActivity` stores: the untagged message, with the author apart. */
  function Persisted(kind: Kind, message: string): (row: LogInsert)
    ensures row.tipo == KindName(kind) && row.mensaje == message && row.autor == AdminTag
  {
    LogInsert(KindName(kind), message, AdminTag)
  }

  /** `[e, ...log].slice(0, 50)`. */
  function Prepended(log: seq<LogEntry>, e: LogEntry): (r: seq<LogEntry>)
    ensures |r| == Min(Capacity, |log| + 1)
    ensures r[0] == e && r[1..] == log[..|r| - 1]
  {
    ([e] + log)[..Min(Capacity, |log| + 1)]
  }

  /** A stored row as the log tab shows it. */
  function Formatted(row: LogRow): (e: LogEntry)
    ensures e.id == row.id && e.kind == row.tipo && e.message == Tagged(row.autor, row.mensaje)
  {
    LogEntry(row.id, row.time, row.tipo, Tagged(row.autor, row.mensaje))
  }

  /** The log after loading the stored rows (already newest first): the first 100, formatted. */
  function Loaded(rows: seq<LogRow>): (r: seq<LogEntry>)
    ensures |r| == Min(LoadLimit, |rows|)
    ensures forall i :: 0 <= i < |r| ==> r[i] == Formatted(rows[i])
  {
    seq(Min(LoadLimit, |rows|), i requires 0 <= i < Min(LoadLimit, |rows|) => Formatted(rows[i]))
  }

  /** Logging the entries of `es` one after the other, first to last. */
  function LogAll(log: seq<LogEntry>, es: seq<LogEntry>): seq<LogEntry>
    decreases |es|
  {
    if es == [] then log else LogAll(Prepended(log, es[0]), es[1..])
  }

  /** The entries in the opposite order. */
  function Reverse(s: seq<LogEntry>): (r: seq<LogEntry>)
    ensures |r| == |s|
  {
    if s == [] then [] else Reverse(s[1..]) + [s[0]]
  }

  /** The reversal holds the entries in the opposite order. */
  lemma {:induction false} ReverseIndex(s: seq<LogEntry>)
    ensures forall i :: 0 <= i < |s| ==> Reverse(s)[i] == s[|s| - 1 - i]
  {
    if s != [] {
      ReverseIndex(s[1..]);
    }
  }

  // ------------------------------------------------------------ lemmas

  /** Cutting the tail before or after a concatenation, to a length it reaches, is the same. */
  lemma TruncateTail(front: seq<LogEntry>, back: seq<LogEntry>, n: nat, m: nat)
    requires n <= |back| && m <= |front| + n
    ensures (front + back[..n])[..m] == (front + back)[..m]
  {
    var a := front + back[..n];
    var b := front + back;
    forall i | 0 <= i < m ensures a[i] == b[i] {
      if i >= |front| {
        assert a[i] == back[..n][i - |front|];
      }
    }
  }

  /**
   * After logging several entries the log holds them newest first, then the old log, cut to
   * 50 entries (whatever its length, the old log included).
   */
  lemma {:induction false} LogAllNewestFirst(log: seq<LogEntry>, es: seq<LogEntry>)
    ensures LogAll(log, es) == if es == [] then log
                               else (Reverse(es) + log)[..Min(Capacity, |es| + |log|)]
    decreases |es|
  {
    if es != [] {
      var e := es[0];
      var rest := es[1..];
      var p := Prepended(log, e);
      LogAllNewestFirst(p, rest);
      if rest == [] {
        assert Reverse(es) == [e];
        assert LogAll(log, es) == p;
      } else {
        assert Reverse(es) == Reverse(rest) + [e];
        PrependedUnderFront(Reverse(rest), e, log);
      }
    }
  }

  /** Entries put in front of a log after one more was logged: the cut of the whole. */
  lemma PrependedUnderFront(front: seq<LogEntry>, e: LogEntry, log: seq<LogEntry>)
    ensures var p := Prepended(log, e);
      (front + p)[..Min(Capacity, |front| + |p|)] == (front + [e] + log)[..Min(Capacity, |front| + 1 + |log|)]
  {
    var n := Min(Capacity, |log| + 1);
    var m := Min(Capacity, |front| + n);
    TruncateTail(front, [e] + log, n, m);
    assert front + ([e] + log) == front + [e] + log;
  }
}
