/**
 * The staff console's conversation list: the message rows, newest first, poured into a
 * JavaScript `Map` keyed by `cliente_email` and read back with `Array.from(map.values())`.
 * A `Map` keeps each key at the position of its first `set` and the value of its last `set`,
 * so the list has one entry per customer, in order of each customer's newest message, and
 * each entry is that customer's LAST row in the input: the oldest one.
 */
module Conversations {
  import opened Wrappers
  import opened Chat

  /** `map.set(m.cliente_email, m)`, the map held as its entries in insertion order. */
  function MapSet(entries: seq<Message>, m: Message): seq<Message>
    decreases |entries|
  {
    if entries == [] then [m]
    else if entries[0].clienteEmail == m.clienteEmail then [m] + entries[1..]
    else [entries[0]] + MapSet(entries[1..], m)
  }

  /** `Array.from(new Map(rows.map(item => [item.cliente_email, item])).values())`. */
  function ConversationList(rows: seq<Message>): seq<Message>
    decreases |rows|
  {
    if rows == [] then [] else MapSet(ConversationList(rows[..|rows| - 1]), rows[|rows| - 1])
  }

  // ------------------------------------------------------------ reference definitions

  function KeySet(rows: seq<Message>): set<string> {
    set i | 0 <= i < |rows| :: rows[i].clienteEmail
  }

  predicate Distinct(entries: seq<Message>) {
    forall i, j :: 0 <= i < j < |entries| ==> entries[i].clienteEmail != entries[j].clienteEmail
  }

  /** The last row with the given key. */
  function LastWithKey(rows: seq<Message>, key: string): Option<Message>
    decreases |rows|
  {
    if rows == [] then None
    else if rows[|rows| - 1].clienteEmail == key then Some(rows[|rows| - 1])
    else LastWithKey(rows[..|rows| - 1], key)
  }

  /** The position of the first row with the given key, or `|rows|` when there is none. */
  function FirstPos(rows: seq<Message>, key: string): (p: nat)
    ensures p <= |rows|
    ensures p < |rows| ==> rows[p].clienteEmail == key
    ensures forall i :: 0 <= i < p ==> rows[i].clienteEmail != key
  {
    if rows == [] then 0
    else if rows[0].clienteEmail == key then 0
    else 1 + FirstPos(rows[1..], key)
  }

  ghost predicate LastValues(rows: seq<Message>, list: seq<Message>) {
    forall j :: 0 <= j < |list| ==> LastWithKey(rows, list[j].clienteEmail) == Some(list[j])
  }

  ghost predicate FirstOrder(rows: seq<Message>, list: seq<Message>) {
    forall i, j :: 0 <= i < j < |list| ==>
      FirstPos(rows, list[i].clienteEmail) < FirstPos(rows, list[j].clienteEmail)
  }

  ghost predicate Summarises(rows: seq<Message>, list: seq<Message>) {
    && Distinct(list)
    && KeySet(list) == KeySet(rows)
    && LastValues(rows, list)
    && FirstOrder(rows, list)
  }

  // ------------------------------------------------------------ lemmas

  /** On distinct keys, `set` replaces the entry with that key, or appends a new one. */
  lemma {:induction false} MapSetEffect(entries: seq<Message>, m: Message)
    requires Distinct(entries)
    ensures m.clienteEmail in KeySet(entries) ==>
      |MapSet(entries, m)| == |entries| &&
      forall i :: 0 <= i < |entries| ==>
        MapSet(entries, m)[i] == (if entries[i].clienteEmail == m.clienteEmail then m else entries[i])
    ensures m.clienteEmail !in KeySet(entries) ==> MapSet(entries, m) == entries + [m]
    decreases |entries|
  {
    if entries != [] {
      var tail := entries[1..];
      assert Distinct(tail);
      MapSetEffect(tail, m);
      assert KeySet(entries) == {entries[0].clienteEmail} + KeySet(tail) by {
        forall k | k in KeySet(entries) ensures k in {entries[0].clienteEmail} + KeySet(tail) {
          var i :| 0 <= i < |entries| && entries[i].clienteEmail == k;
          if i > 0 { assert tail[i - 1] == entries[i]; }
        }
        forall k | k in KeySet(tail) ensures k in KeySet(entries) {
          var i :| 0 <= i < |tail| && tail[i].clienteEmail == k;
          assert entries[i + 1] == tail[i];
        }
      }
      if entries[0].clienteEmail == m.clienteEmail {
        forall i | 1 <= i < |entries| ensures entries[i].clienteEmail != m.clienteEmail {
        }
      }
    }
  }

  lemma LastWithKeySnoc(rows: seq<Message>, x: Message, key: string)
    ensures LastWithKey(rows + [x], key) == if x.clienteEmail == key then Some(x) else LastWithKey(rows, key)
  {
    assert (rows + [x])[..|rows|] == rows;
  }

  lemma FirstPosSnoc(rows: seq<Message>, x: Message, key: string)
    ensures key in KeySet(rows) ==> FirstPos(rows + [x], key) == FirstPos(rows, key)
    ensures key !in KeySet(rows) && x.clienteEmail == key ==> FirstPos(rows + [x], key) == |rows|
  {
    var s := rows + [x];
    var p := FirstPos(rows, key);
    var q := FirstPos(s, key);
    if key in KeySet(rows) {
      var i :| 0 <= i < |rows| && rows[i].clienteEmail == key;
      assert p < |rows|;
      assert s[p] == rows[p];
    } else if x.clienteEmail == key {
      assert s[|rows|] == x;
      forall i | 0 <= i < |rows| ensures s[i].clienteEmail != key {
        assert s[i] == rows[i];
      }
    }
  }

  lemma KeySetSnoc(rows: seq<Message>, x: Message)
    ensures KeySet(rows + [x]) == KeySet(rows) + {x.clienteEmail}
  {
    var s := rows + [x];
    forall k | k in KeySet(s) ensures k in KeySet(rows) + {x.clienteEmail} {
      var i :| 0 <= i < |s| && s[i].clienteEmail == k;
      if i < |rows| { assert s[i] == rows[i]; }
    }
    forall k | k in KeySet(rows) ensures k in KeySet(s) {
      var i :| 0 <= i < |rows| && rows[i].clienteEmail == k;
      assert s[i] == rows[i];
    }
    assert s[|rows|] == x;
  }

  /** Two lists with the same key at every position. */
  predicate SameKeys(a: seq<Message>, b: seq<Message>) {
    |a| == |b| && forall i :: 0 <= i < |a| ==> a[i].clienteEmail == b[i].clienteEmail
  }

  lemma SameKeysKeySet(a: seq<Message>, b: seq<Message>)
    requires SameKeys(a, b)
    ensures KeySet(a) == KeySet(b)
  {
    forall k | k in KeySet(a) ensures k in KeySet(b) {
      var i :| 0 <= i < |a| && a[i].clienteEmail == k;
      assert b[i].clienteEmail == k;
    }
    forall k | k in KeySet(b) ensures k in KeySet(a) {
      var i :| 0 <= i < |b| && b[i].clienteEmail == k;
      assert a[i].clienteEmail == k;
    }
  }

  /** `set` on a key already present: the entry at that key's position takes the new row. */
  lemma StepReplace(rows: seq<Message>, x: Message, list: seq<Message>, r: seq<Message>)
    requires Summarises(rows, list)
    requires x.clienteEmail in KeySet(list)
    requires |r| == |list|
    requires forall i :: 0 <= i < |list| ==>
      r[i] == (if list[i].clienteEmail == x.clienteEmail then x else list[i])
    ensures Summarises(rows + [x], r)
  {
    var s := rows + [x];
    assert SameKeys(list, r);
    SameKeysKeySet(list, r);
    KeySetSnoc(rows, x);
    forall j | 0 <= j < |r| ensures LastWithKey(s, r[j].clienteEmail) == Some(r[j]) {
      LastWithKeySnoc(rows, x, r[j].clienteEmail);
    }
    forall i, j | 0 <= i < j < |r|
      ensures FirstPos(s, r[i].clienteEmail) < FirstPos(s, r[j].clienteEmail)
    {
      assert list[i].clienteEmail in KeySet(list) && list[j].clienteEmail in KeySet(list);
      FirstPosSnoc(rows, x, list[i].clienteEmail);
      FirstPosSnoc(rows, x, list[j].clienteEmail);
    }
  }

  /** `set` on a new key: the new row is appended. */
  lemma StepAppend(rows: seq<Message>, x: Message, list: seq<Message>)
    requires Summarises(rows, list)
    requires x.clienteEmail !in KeySet(list)
    ensures Summarises(rows + [x], list + [x])
  {
    var s := rows + [x];
    var r := list + [x];
    var key := x.clienteEmail;
    assert forall j :: 0 <= j < |list| ==> list[j].clienteEmail in KeySet(list);
    KeySetSnoc(rows, x);
    KeySetSnoc(list, x);
    forall j | 0 <= j < |r| ensures LastWithKey(s, r[j].clienteEmail) == Some(r[j]) {
      LastWithKeySnoc(rows, x, r[j].clienteEmail);
    }
    FirstPosSnoc(rows, x, key);
    forall i, j | 0 <= i < j < |r|
      ensures FirstPos(s, r[i].clienteEmail) < FirstPos(s, r[j].clienteEmail)
    {
      var k := list[i].clienteEmail;
      assert k in KeySet(rows);
      FirstPosSnoc(rows, x, k);
      if j < |list| {
        FirstPosSnoc(rows, x, list[j].clienteEmail);
      } else {
        var w :| 0 <= w < |rows| && rows[w].clienteEmail == k;
        assert FirstPos(rows, k) <= w;
      }
    }
  }

  /** One more row keeps the list a summary of the rows. */
  lemma StepSummarises(rows: seq<Message>, x: Message, list: seq<Message>)
    requires Summarises(rows, list)
    ensures Summarises(rows + [x], MapSet(list, x))
  {
    MapSetEffect(list, x);
    if x.clienteEmail in KeySet(list) {
      StepReplace(rows, x, list, MapSet(list, x));
    } else {
      StepAppend(rows, x, list);
    }
  }

  lemma {:induction false} ConversationListSummarises(rows: seq<Message>)
    ensures Summarises(rows, ConversationList(rows))
    decreases |rows|
  {
    if rows == [] {
      assert KeySet(rows) == {};
      assert KeySet(ConversationList(rows)) == {};
    } else {
      var init := rows[..|rows| - 1];
      ConversationListSummarises(init);
      StepSummarises(init, rows[|rows| - 1], ConversationList(init));
      assert init + [rows[|rows| - 1]] == rows;
    }
  }

  lemma {:induction false} DistinctSize(entries: seq<Message>)
    requires Distinct(entries)
    ensures |KeySet(entries)| == |entries|
    decreases |entries|
  {
    if entries != [] {
      var init := entries[..|entries| - 1];
      var x := entries[|entries| - 1];
      assert init + [x] == entries;
      KeySetSnoc(init, x);
      DistinctSize(init);
      forall i | 0 <= i < |init| ensures init[i].clienteEmail != x.clienteEmail {
        assert init[i] == entries[i];
      }
    }
  }

  /**
   * The conversation list has exactly one entry per distinct `cliente_email`; entries follow
   * each key's first occurrence in the rows; each entry is the last row with its key.
   */
  lemma ConversationListSpec(rows: seq<Message>)
    ensures var list := ConversationList(rows);
      && Distinct(list)
      && KeySet(list) == KeySet(rows)
      && |list| == |KeySet(rows)|
      && (forall j :: 0 <= j < |list| ==> LastWithKey(rows, list[j].clienteEmail) == Some(list[j]))
      && (forall i, j :: 0 <= i < j < |list| ==>
            FirstPos(rows, list[i].clienteEmail) < FirstPos(rows, list[j].clienteEmail))
  {
    ConversationListSummarises(rows);
    DistinctSize(ConversationList(rows));
  }

  /** Rows as the fetch orders them: `created_at` descending. */
  predicate NewestFirst(rows: seq<Message>) {
    forall i, j :: 0 <= i < j < |rows| ==> rows[i].createdAt >= rows[j].createdAt
  }

  lemma {:induction false} LastWithKeyAt(rows: seq<Message>, key: string) returns (p: nat)
    requires LastWithKey(rows, key).Some?
    ensures p < |rows| && rows[p] == LastWithKey(rows, key).value
    ensures forall q :: p < q < |rows| ==> rows[q].clienteEmail != key
    decreases |rows|
  {
    if rows[|rows| - 1].clienteEmail == key {
      p := |rows| - 1;
    } else {
      var init := rows[..|rows| - 1];
      p := LastWithKeyAt(init, key);
      assert forall q :: p < q < |init| ==> rows[q] == init[q];
    }
  }

  /**
   * Over newest-first rows, each conversation's entry is its OLDEST row: its `created_at`
   * is no later than that of any row of the same customer.
   */
  lemma EntryIsOldestRow(rows: seq<Message>)
    requires NewestFirst(rows)
    ensures var list := ConversationList(rows);
      forall j, i :: 0 <= j < |list| && 0 <= i < |rows| && rows[i].clienteEmail == list[j].clienteEmail ==>
        list[j].createdAt <= rows[i].createdAt
  {
    var list := ConversationList(rows);
    ConversationListSummarises(rows);
    forall j, i | 0 <= j < |list| && 0 <= i < |rows| && rows[i].clienteEmail == list[j].clienteEmail
      ensures list[j].createdAt <= rows[i].createdAt
    {
      var p := LastWithKeyAt(rows, list[j].clienteEmail);
      assert i <= p;
    }
  }
}
