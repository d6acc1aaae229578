/**
 * The durable agent ledger (scripts/agent-ledger.py): an append-only log of events whose replay is the
 * current state, and a compaction that rewrites the log. Each command is one atomic step on one log.
 */
module Ledger {
  import opened Options

  /** A JSON field value; `None` and a missing field both read as `Null`. */
  datatype Value = Null | Str(s: string) | Num(n: int)
  {
    predicate Truthy() {
      match this
      case Null => false
      case Str(s) => s != ""
      case Num(n) => n != 0
    }

    /** Python's `this or other`. */
    function Or(other: Value): Value {
      if Truthy() then this else other
    }
  }

  type Record = map<string, Value>

  /** A Python dictionary: keys in insertion order, and the record stored under each key. */
  datatype Table = Table(order: seq<Value>, rows: map<Value, Record>)

  datatype Effect = Ignored | Removes | Becomes(state: string)

  const EMPTY := Table([], map[])

  function Get(r: Record, f: string): Value {
    if f in r then r[f] else Null
  }

  function Key(r: Record): Value {
    Get(r, "repo").Or(Get(r, "name").Or(Str("")))
  }

  function EffectOf(e: Record): Effect {
    var event := Get(e, "event");
    if event == Str("spawn") || event == Str("restore") then Becomes("live")
    else if event == Str("reap") then Becomes("dormant")
    else if event == Str("gone") then Removes
    else Ignored
  }

  function NonNull(r: Record): Record {
    map f | f in r && r[f] != Null :: r[f]
  }

  predicate IsLive(r: Record) {
    Get(r, "state") == Str("live")
  }

  // --------------------------------------------------------------------
  // Replay
  // --------------------------------------------------------------------

  function Without(order: seq<Value>, k: Value): seq<Value> {
    if order == [] then []
    else if order[0] == k then Without(order[1..], k)
    else [order[0]] + Without(order[1..], k)
  }

  /** The record that event `e`, taking key `k` to `state`, makes out of record `r`. */
  function Updated(r: Record, e: Record, k: Value, state: string): Record {
    (r + NonNull(e))["state" := Str(state)]["key" := k]
  }

  function Row(t: Table, k: Value): Record {
    if k in t.rows then t.rows[k] else map[]
  }

  function Apply(t: Table, e: Record): Table {
    var k := Key(e);
    if !k.Truthy() then t
    else
      match EffectOf(e)
      case Ignored => t
      case Removes => Table(Without(t.order, k), t.rows - {k})
      case Becomes(state) =>
        Table(if k in t.rows then t.order else t.order + [k], t.rows[k := Updated(Row(t, k), e, k, state)])
  }

  function ReplayFrom(t: Table, events: seq<Record>): Table
    decreases |events|
  {
    if events == [] then t else ReplayFrom(Apply(t, events[0]), events[1..])
  }

  function State(events: seq<Record>): Table {
    ReplayFrom(EMPTY, events)
  }

  method Replay(events: seq<Record>) returns (cur: Table)
    ensures cur == State(events)
  {
    var order: seq<Value>, rows: map<Value, Record> := [], map[];
    var i := 0;
    while i < |events|
      invariant i <= |events|
      invariant ReplayFrom(Table(order, rows), events[i..]) == State(events)
    {
      var e := events[i];
      assert events[i..][0] == e && events[i..][1..] == events[i + 1..];
      i := i + 1;
      var k := Key(e);
      if !k.Truthy() {
        continue;
      }
      match EffectOf(e)
      case Ignored =>
      case Removes =>
        order, rows := Without(order, k), rows - {k};
      case Becomes(state) =>
        var rec := if k in rows then rows[k] else map[];
        rec := rec + NonNull(e);
        rec := rec["state" := Str(state)];
        rec := rec["key" := k];
        if k !in rows {
          order := order + [k];
        }
        rows := rows[k := rec];
    }
    assert events[i..] == [];
    cur := Table(order, rows);
  }

  lemma {:induction false} ReplayAppend(t: Table, a: seq<Record>, b: seq<Record>)
    ensures ReplayFrom(t, a + b) == ReplayFrom(ReplayFrom(t, a), b)
    decreases |a|
  {
    if a == [] {
      assert a + b == b;
    } else {
      assert (a + b)[0] == a[0] && (a + b)[1..] == a[1..] + b;
      ReplayAppend(Apply(t, a[0]), a[1..], b);
    }
  }

  lemma ReplayLast(events: seq<Record>)
    requires events != []
    ensures State(events) == Apply(State(events[..|events| - 1]), events[|events| - 1])
  {
    var n := |events| - 1;
    assert events == events[..n] + [events[n]];
    ReplayAppend(EMPTY, events[..n], [events[n]]);
    var t := State(events[..n]);
    assert ReplayFrom(t, [events[n]]) == ReplayFrom(Apply(t, events[n]), []);
  }

  // --------------------------------------------------------------------
  // What replay means: the last writer of each field since the key last went away
  // --------------------------------------------------------------------

  /** Whether `e` is an event about key `k` that replay acts on. */
  predicate Concerns(e: Record, k: Value) {
    k.Truthy() && Key(e) == k && EffectOf(e) != Ignored
  }

  /** Whether some event brought `k` into being and none after it removed it. */
  predicate Present(events: seq<Record>, k: Value) {
    if events == [] then false
    else
      var init, last := events[..|events| - 1], events[|events| - 1];
      if Concerns(last, k) then EffectOf(last).Becomes? else Present(init, k)
  }

  /** The last value written to field `f` of key `k` since `k` last went away. */
  function LastWrite(events: seq<Record>, k: Value, f: string): Value {
    if events == [] then Null
    else
      Write(events[|events| - 1], k, f, LastWrite(events[..|events| - 1], k, f))
  }

  /** What one event writes to a field of `k`, given the value it had. */
  function Write(e: Record, k: Value, f: string, was: Value): Value {
    if !Concerns(e, k) then was
    else
      match EffectOf(e)
      case Removes => Null
      case Becomes(state) =>
        if f == "state" then Str(state) else if f == "key" then k else if Get(e, f) != Null then Get(e, f) else was
  }

  lemma ApplyWrites(t: Table, e: Record, k: Value)
    ensures k in Apply(t, e).rows <==> if Concerns(e, k) then EffectOf(e).Becomes? else k in t.rows
    ensures forall f :: Get(Row(Apply(t, e), k), f) == Write(e, k, f, Get(Row(t, k), f))
  {
    hide Without;
  }

  lemma {:induction false} ReplayKeepsLastWrites(events: seq<Record>, k: Value)
    ensures k in State(events).rows <==> Present(events, k)
    ensures forall f :: Get(Row(State(events), k), f) == LastWrite(events, k, f)
  {
    if events == [] {
      assert LastWrite(events, k, "x") == Null;
    } else {
      hide Apply, Write, Get, Row, Concerns;
      ReplayKeepsLastWrites(events[..|events| - 1], k);
      ReplayLast(events);
      ApplyWrites(State(events[..|events| - 1]), events[|events| - 1], k);
    }
  }

  // --------------------------------------------------------------------
  // The invariant of the replayed table
  // --------------------------------------------------------------------

  predicate GoodRow(k: Value, r: Record) {
    && k.Truthy()
    && Key(r) == k
    && Get(r, "key") == k
    && Get(r, "state") in {Str("live"), Str("dormant")}
    && NonNull(r) == r
  }

  ghost predicate GoodTable(t: Table) {
    && (forall k :: k in t.rows ==> GoodRow(k, t.rows[k]))
    && (forall k :: k in t.order <==> k in t.rows)
    && (forall i, j :: 0 <= i < j < |t.order| ==> t.order[i] != t.order[j])
  }

  lemma {:induction false} WithoutDrops(order: seq<Value>, k: Value)
    requires forall i, j :: 0 <= i < j < |order| ==> order[i] != order[j]
    ensures var w := Without(order, k);
            && (forall x :: x in w <==> x in order && x != k)
            && (forall i, j :: 0 <= i < j < |w| ==> w[i] != w[j])
  {
    if order == [] {
    } else {
      var rest := order[1..];
      assert forall i :: 0 <= i < |rest| ==> rest[i] == order[i + 1];
      WithoutDrops(rest, k);
      assert order == [order[0]] + rest;
      assert order[0] !in rest;
      assert order[0] !in Without(rest, k);
    }
  }

  lemma UpdatedIsGood(r: Record, e: Record, k: Value, state: string)
    requires k.Truthy() && Key(e) == k && state in {"live", "dormant"}
    requires r == map[] || GoodRow(k, r)
    ensures GoodRow(k, Updated(r, e, k, state))
  {
    var u := Updated(r, e, k, state);
    assert NonNull(u) == u;
  }

  lemma ApplyKeepsGood(t: Table, e: Record)
    requires GoodTable(t)
    ensures GoodTable(Apply(t, e))
  {
    var k := Key(e);
    if k.Truthy() && EffectOf(e).Removes? {
      WithoutDrops(t.order, k);
    } else if k.Truthy() && EffectOf(e).Becomes? {
      UpdatedIsGood(Row(t, k), e, k, EffectOf(e).state);
    }
  }

  lemma {:induction false} ReplayIsGood(events: seq<Record>)
    ensures GoodTable(State(events))
  {
    if events == [] {
    } else {
      ReplayIsGood(events[..|events| - 1]);
      ReplayLast(events);
      ApplyKeepsGood(State(events[..|events| - 1]), events[|events| - 1]);
    }
  }

  // --------------------------------------------------------------------
  // Compaction
  // --------------------------------------------------------------------

  function Ts(r: Record): int {
    match Get(r, "ts") case Num(n) => n case _ => 0
  }

  /** `sorted` by timestamp is stable: an earlier record goes before later ones with the same timestamp. */
  function Insert(r: Record, s: seq<Record>): seq<Record> {
    if s == [] || Ts(r) <= Ts(s[0]) then [r] + s else [s[0]] + Insert(r, s[1..])
  }

  function SortByTs(s: seq<Record>): seq<Record> {
    if s == [] then [] else Insert(s[0], SortByTs(s[1..]))
  }

  function RowsFrom(t: Table, i: nat): seq<Record>
    decreases |t.order| - i
  {
    if i >= |t.order| then [] else [Row(t, t.order[i])] + RowsFrom(t, i + 1)
  }

  /** The event that compaction writes for a record. */
  function Rewritten(r: Record): Record {
    (r - {"state", "key"})["event" := Str(if Get(r, "state") == Str("dormant") then "reap" else "spawn")]
  }

  function RewrittenAll(s: seq<Record>): seq<Record> {
    if s == [] then [] else [Rewritten(s[0])] + RewrittenAll(s[1..])
  }

  function Compacted(events: seq<Record>): seq<Record> {
    RewrittenAll(SortByTs(RowsFrom(State(events), 0)))
  }

  /** Equal on every field except `event`. */
  ghost predicate SameRecord(a: Record, b: Record) {
    forall f :: f != "event" ==> Get(a, f) == Get(b, f)
  }

  ghost predicate SameTable(a: Table, b: Table) {
    && a.rows.Keys == b.rows.Keys
    && forall k :: k in a.rows ==> SameRecord(a.rows[k], b.rows[k])
  }

  lemma UpdatedFields(r: Record, e: Record, k: Value, state: string)
    ensures forall f ::
      Get(Updated(r, e, k, state), f) ==
      (if f == "key" then k else if f == "state" then Str(state) else if Get(e, f) != Null then Get(e, f) else Get(r, f))
  {
  }

  lemma ApplyKeepsSame(a: Table, b: Table, e: Record)
    requires SameTable(a, b)
    ensures SameTable(Apply(a, e), Apply(b, e))
  {
    var k := Key(e);
    if k.Truthy() && EffectOf(e).Becomes? {
      UpdatedFields(Row(a, k), e, k, EffectOf(e).state);
      UpdatedFields(Row(b, k), e, k, EffectOf(e).state);
      assert SameRecord(Row(a, k), Row(b, k));
    }
  }

  lemma {:induction false} SameTablesStaySame(a: Table, b: Table, events: seq<Record>)
    requires SameTable(a, b)
    ensures SameTable(ReplayFrom(a, events), ReplayFrom(b, events))
    decreases |events|
  {
    if events == [] {
    } else {
      ApplyKeepsSame(a, b, events[0]);
      SameTablesStaySame(Apply(a, events[0]), Apply(b, events[0]), events[1..]);
    }
  }

  ghost predicate DistinctKeys(s: seq<Record>) {
    forall i, j :: 0 <= i < j < |s| ==> Key(s[i]) != Key(s[j])
  }

  ghost predicate GoodRows(s: seq<Record>) {
    DistinctKeys(s) && forall r :: r in s ==> GoodRow(Key(r), r)
  }

  lemma {:induction false} InsertKeeps(r: Record, s: seq<Record>)
    requires DistinctKeys([r] + s)
    ensures forall x :: x in Insert(r, s) <==> x == r || x in s
    ensures DistinctKeys(Insert(r, s))
  {
    if s == [] || Ts(r) <= Ts(s[0]) {
    } else {
      var rest := s[1..];
      assert DistinctKeys([r] + rest) by {
        assert ([r] + s)[0] == r;
        assert forall i :: 1 <= i < |rest| + 1 ==> ([r] + rest)[i] == ([r] + s)[i + 1];
      }
      InsertKeeps(r, rest);
      var ins := Insert(r, rest);
      forall j | 0 <= j < |ins| ensures Key(s[0]) != Key(ins[j]) {
        assert ins[j] in ins;
        if ins[j] == r {
          assert ([r] + s)[0] == r && ([r] + s)[1] == s[0];
        } else {
          var m :| 0 <= m < |rest| && rest[m] == ins[j];
          assert ([r] + s)[m + 2] == ins[j] && ([r] + s)[1] == s[0];
        }
      }
    }
  }

  lemma {:induction false} SortKeeps(s: seq<Record>)
    requires DistinctKeys(s)
    ensures forall x :: x in SortByTs(s) <==> x in s
    ensures DistinctKeys(SortByTs(s))
  {
    if s == [] {
    } else {
      SortKeeps(s[1..]);
      var sorted := SortByTs(s[1..]);
      forall j | 0 <= j < |sorted| ensures Key(s[0]) != Key(sorted[j]) {
        assert sorted[j] in s[1..];
        var m :| 0 <= m < |s[1..]| && s[1..][m] == sorted[j];
        assert s[m + 1] == sorted[j];
      }
      InsertKeeps(s[0], sorted);
    }
  }

  lemma {:induction false} RowsFromAt(t: Table, i: nat)
    requires i <= |t.order|
    ensures |RowsFrom(t, i)| == |t.order| - i
    ensures forall j :: 0 <= j < |t.order| - i ==> RowsFrom(t, i)[j] == Row(t, t.order[i + j])
    decreases |t.order| - i
  {
    if i >= |t.order| {
    } else {
      RowsFromAt(t, i + 1);
      forall j | 0 <= j < |t.order| - i ensures RowsFrom(t, i)[j] == Row(t, t.order[i + j]) {
        if j > 0 {
          assert RowsFrom(t, i)[j] == RowsFrom(t, i + 1)[j - 1];
        }
      }
    }
  }

  lemma RowsAreStored(t: Table)
    requires GoodTable(t)
    ensures var rows := RowsFrom(t, 0);
            && |rows| == |t.order|
            && forall i :: 0 <= i < |rows| ==> t.order[i] in t.rows && rows[i] == t.rows[t.order[i]] && Key(rows[i]) == t.order[i]
  {
    hide NonNull, Get, Key, RowsFrom;
    RowsFromAt(t, 0);
  }

  /** The rows of a good table, in order, are good rows with distinct keys: exactly the stored records. */
  lemma RowsOfGoodTable(t: Table)
    requires GoodTable(t)
    ensures GoodRows(RowsFrom(t, 0))
    ensures forall r :: r in RowsFrom(t, 0) ==> Key(r) in t.rows && t.rows[Key(r)] == r
    ensures forall k :: k in t.rows ==> t.rows[k] in RowsFrom(t, 0) && Key(t.rows[k]) == k
  {
    hide NonNull, Get, Key, RowsFrom;
    RowsAreStored(t);
    var rows := RowsFrom(t, 0);
    forall k | k in t.rows ensures t.rows[k] in rows {
      var i :| 0 <= i < |t.order| && t.order[i] == k;
      assert rows[i] == t.rows[k];
    }
  }

  /** A rewritten record, replayed onto nothing, gives the record back up to its event name. */
  lemma RewrittenRow(r: Record)
    requires GoodRow(Key(r), r)
    ensures var e := Rewritten(r);
            && Key(e) == Key(r)
            && EffectOf(e).Becomes?
            && SameRecord(Updated(map[], e, Key(r), EffectOf(e).state), r)
  {
    var e := Rewritten(r);
    UpdatedFields(map[], e, Key(r), EffectOf(e).state);
  }

  lemma RewrittenRestores(t: Table, r: Record)
    requires GoodRow(Key(r), r) && Key(r) !in t.rows
    ensures Extends(t, [r], Apply(t, Rewritten(r)))
  {
    RewrittenRow(r);
    hide Key, Get, EffectOf, Updated, Rewritten, SameRecord, NonNull, Without;
    assert [r][1..] == [];
    assert KeysOf([r]) == [Key(r)];
  }

  /** `u` is `t` with the records `s` added, in order, up to their event names. */
  ghost predicate Extends(t: Table, s: seq<Record>, u: Table) {
    && u.order == t.order + KeysOf(s)
    && (forall k :: k in u.rows <==> k in t.rows || k in KeysOf(s))
    && (forall k :: k in t.rows ==> k in u.rows && u.rows[k] == t.rows[k])
    && (forall r :: r in s ==> Key(r) in u.rows && SameRecord(u.rows[Key(r)], r))
  }

  lemma ExtendsByOneMore(t: Table, s: seq<Record>, u: Table, v: Table)
    requires s != [] && Extends(t, [s[0]], u) && Extends(u, s[1..], v)
    ensures Extends(t, s, v)
  {
    hide Key, Get, SameRecord;
    var k, rest := Key(s[0]), s[1..];
    assert s[0] in [s[0]];
    assert KeysOf([s[0]]) == [k] by {
      assert [s[0]][1..] == [];
    }
    assert KeysOf(s) == [k] + KeysOf(rest);
    assert k in KeysOf([s[0]]);
    forall r | r in s ensures Key(r) in v.rows && SameRecord(v.rows[Key(r)], r) {
      var i :| 0 <= i < |s| && s[i] == r;
      assert i > 0 ==> rest[i - 1] == r;
    }
  }

  /** Replaying the rewritten records onto a table without their keys adds exactly those records, in order. */
  lemma {:induction false} ReplayRewritten(t: Table, s: seq<Record>)
    requires GoodRows(s)
    requires forall r :: r in s ==> Key(r) !in t.rows
    ensures Extends(t, s, ReplayFrom(t, RewrittenAll(s)))
    decreases |s|
  {
    hide Key, Get, Apply, Rewritten, GoodRow;
    if s == [] {
    } else {
      var rest, u := s[1..], Apply(t, Rewritten(s[0]));
      assert s[0] in s;
      RewrittenRestores(t, s[0]);
      assert RewrittenAll(s)[0] == Rewritten(s[0]) && RewrittenAll(s)[1..] == RewrittenAll(rest);
      assert forall i :: 0 <= i < |rest| ==> rest[i] == s[i + 1];
      forall r | r in rest ensures r in s && Key(r) !in u.rows {
        var i :| 0 <= i < |rest| && rest[i] == r;
        assert s[i + 1] == r;
        OnlyNewKey(t, s[0], u, Key(r));
      }
      ReplayRewritten(u, rest);
      ExtendsByOneMore(t, s, u, ReplayFrom(u, RewrittenAll(rest)));
    }
  }

  lemma OnlyNewKey(t: Table, r: Record, u: Table, k: Value)
    requires Extends(t, [r], u) && k !in t.rows && k != Key(r)
    ensures k !in u.rows
  {
    assert [r][1..] == [];
    assert KeysOf([r]) == [Key(r)];
  }

  function KeysOf(s: seq<Record>): seq<Value> {
    if s == [] then [] else [Key(s[0])] + KeysOf(s[1..])
  }

  lemma {:induction false} KeysOfAt(s: seq<Record>)
    ensures |KeysOf(s)| == |s|
    ensures forall i :: 0 <= i < |s| ==> KeysOf(s)[i] == Key(s[i])
  {
    if s == [] {
    } else {
      KeysOfAt(s[1..]);
    }
  }

  /** Replaying a compacted log gives back the table, sorted by timestamp and with other event names. */
  lemma CompactedRestores(events: seq<Record>)
    ensures SameTable(State(Compacted(events)), State(events))
    ensures State(Compacted(events)).order == KeysOf(SortByTs(RowsFrom(State(events), 0)))
  {
    hide ReplayFrom, RewrittenAll, SortByTs, RowsFrom, KeysOf, SameTable, GoodTable;
    ReplayIsGood(events);
    SortedReplayRestores(State(events));
  }

  /** The sorted rows are the stored records, each once. */
  lemma SortedRowsAreStored(t: Table)
    requires GoodTable(t)
    ensures var sorted := SortByTs(RowsFrom(t, 0));
            && GoodRows(sorted)
            && (forall r :: r in sorted ==> Key(r) in t.rows && t.rows[Key(r)] == r)
            && (forall k :: k in t.rows ==> t.rows[k] in sorted && Key(t.rows[k]) == k)
  {
    hide SortByTs, RowsFrom, GoodTable, DistinctKeys, GoodRow, Key;
    RowsOfGoodTable(t);
    SortKeeps(RowsFrom(t, 0));
  }

  lemma {:induction false} KeysOfMembers(s: seq<Record>, k: Value)
    ensures k in KeysOf(s) <==> exists r :: r in s && Key(r) == k
  {
    hide Key;
    KeysOfAt(s);
    if r :| r in s && Key(r) == k {
      var i :| 0 <= i < |s| && s[i] == r;
      assert KeysOf(s)[i] == k;
    }
  }

  lemma SortedReplayRestores(t: Table)
    requires GoodTable(t)
    ensures var u := ReplayFrom(EMPTY, RewrittenAll(SortByTs(RowsFrom(t, 0))));
            SameTable(u, t) && u.order == KeysOf(SortByTs(RowsFrom(t, 0)))
  {
    hide ReplayFrom, RewrittenAll, SortByTs, RowsFrom, KeysOf, GoodTable, SameRecord, GoodRows, Key;
    SortedRowsAreStored(t);
    var sorted := SortByTs(RowsFrom(t, 0));
    ReplayRewritten(EMPTY, sorted);
    var u := ReplayFrom(EMPTY, RewrittenAll(sorted));
    assert u.order == KeysOf(sorted);
    forall k ensures k in u.rows <==> k in t.rows {
      KeysOfMembers(sorted, k);
    }
    forall k | k in t.rows ensures k in u.rows && SameRecord(u.rows[k], t.rows[k]) {
      assert t.rows[k] in sorted;
    }
  }

  /** Compaction is invisible to every later event: same keys, same fields except the event name. */
  lemma CompactionIsInvisible(events: seq<Record>, later: seq<Record>)
    ensures SameTable(State(Compacted(events) + later), State(events + later))
  {
    CompactedRestores(events);
    SameTablesStaySame(State(Compacted(events)), State(events), later);
    ReplayAppend(EMPTY, Compacted(events), later);
    ReplayAppend(EMPTY, events, later);
  }

  // --------------------------------------------------------------------
  // Looking up a live record
  // --------------------------------------------------------------------

  predicate LiveWith(r: Record, field: string, want: Value) {
    IsLive(r) && Get(r, field) == want
  }

  function First(s: seq<Record>, field: string, want: Value): Option<Record> {
    if s == [] then None
    else if LiveWith(s[0], field, want) then Some(s[0])
    else First(s[1..], field, want)
  }

  predicate IsLiveKey(t: Table, k: Value) {
    k.Truthy() && k in t.rows && IsLive(t.rows[k])
  }

  function FindLive(t: Table, repo: Value, name: Value): Option<Record> {
    if IsLiveKey(t, repo) then Some(t.rows[repo])
    else
      var named := if name.Truthy() then First(RowsFrom(t, 0), "name", name) else None;
      if named.Some? then named
      else if repo.Truthy() then First(RowsFrom(t, 0), "repo", repo)
      else None
  }

  lemma {:induction false} FirstFinds(s: seq<Record>, field: string, want: Value)
    ensures var f := First(s, field, want);
            && (f.Some? ==> f.value in s && LiveWith(f.value, field, want))
            && (f.None? ==> forall r :: r in s ==> !LiveWith(r, field, want))
  {
    if s == [] {
    } else {
      FirstFinds(s[1..], field, want);
      forall r | r in s ensures r == s[0] || r in s[1..] {
        var i :| 0 <= i < |s| && s[i] == r;
        assert i > 0 ==> s[1..][i - 1] == r;
      }
    }
  }

  predicate Answers(r: Record, repo: Value, name: Value) {
    IsLive(r) && ((repo.Truthy() && Key(r) == repo) || (name.Truthy() && Get(r, "name") == name))
  }

  /**
   * A lookup finds a stored live record with that key or that name, and finds one whenever there is one:
   * the record of a live key before any of that name, and of a name the first in dictionary order. The last
   * of its three searches never finds anything the first did not.
   */
  lemma FindLiveFinds(t: Table, repo: Value, name: Value)
    requires GoodTable(t)
    ensures var f := FindLive(t, repo, name);
            && (f.Some? ==> Key(f.value) in t.rows && t.rows[Key(f.value)] == f.value && Answers(f.value, repo, name))
            && (f.None? ==> forall k :: k in t.rows ==> !Answers(t.rows[k], repo, name))
    ensures repo.Truthy() && !IsLiveKey(t, repo) ==> First(RowsFrom(t, 0), "repo", repo) == None
    ensures repo.Truthy() && repo in t.rows && IsLive(t.rows[repo]) ==> FindLive(t, repo, name) == Some(t.rows[repo])
    ensures !IsLiveKey(t, repo) && FindLive(t, repo, name).Some? ==>
              FirstNamed(t, name, FindLive(t, repo, name).value)
  {
    hide First, RowsFrom, NonNull, GoodRows, FirstNamed;
    RowsOfGoodTable(t);
    FirstFinds(RowsFrom(t, 0), "name", name);
    FirstFinds(RowsFrom(t, 0), "repo", repo);
    if !IsLiveKey(t, repo) && FindLive(t, repo, name).Some? {
      FirstIsFirst(t, name);
    }
  }

  /** The record is live under the name, and no record before it in dictionary order is. */
  ghost predicate FirstNamed(t: Table, name: Value, r: Record) {
    exists i :: 0 <= i < |t.order| && Row(t, t.order[i]) == r && LiveWith(r, "name", name)
                && forall j :: 0 <= j < i ==> !LiveWith(Row(t, t.order[j]), "name", name)
  }

  lemma {:induction false} FirstHasNoEarlier(s: seq<Record>, field: string, want: Value) returns (i: nat)
    requires First(s, field, want).Some?
    ensures i < |s| && First(s, field, want) == Some(s[i]) && LiveWith(s[i], field, want)
    ensures forall j :: 0 <= j < i ==> !LiveWith(s[j], field, want)
  {
    if LiveWith(s[0], field, want) {
      i := 0;
    } else {
      var k := FirstHasNoEarlier(s[1..], field, want);
      i := k + 1;
      forall j | 0 <= j < i ensures !LiveWith(s[j], field, want) {
        assert j > 0 ==> s[1..][j - 1] == s[j];
      }
    }
  }

  lemma FirstIsFirst(t: Table, name: Value)
    requires GoodTable(t) && First(RowsFrom(t, 0), "name", name).Some?
    ensures FirstNamed(t, name, First(RowsFrom(t, 0), "name", name).value)
  {
    hide First, LiveWith, GoodTable;
    var i := FirstHasNoEarlier(RowsFrom(t, 0), "name", name);
    RowsFromAt(t, 0);
    assert Row(t, t.order[i]) == RowsFrom(t, 0)[i];
    assert forall j :: 0 <= j < i ==> Row(t, t.order[j]) == RowsFrom(t, 0)[j];
  }

  // --------------------------------------------------------------------
  // Lookups before and after compaction
  // --------------------------------------------------------------------

  ghost predicate Ascending(s: seq<Record>) {
    forall i, j :: 0 <= i < j < |s| ==> Ts(s[i]) <= Ts(s[j])
  }

  lemma {:induction false} InsertAscending(r: Record, s: seq<Record>)
    requires Ascending(s)
    ensures Ascending(Insert(r, s))
    ensures Insert(r, s)[0] == r || (s != [] && Insert(r, s)[0] == s[0])
  {
    hide Ts;
    if s == [] || Ts(r) <= Ts(s[0]) {
    } else {
      InsertAscending(r, s[1..]);
    }
  }

  lemma {:induction false} SortAscending(s: seq<Record>)
    ensures Ascending(SortByTs(s))
  {
    if s == [] {
    } else {
      SortAscending(s[1..]);
      InsertAscending(s[0], SortByTs(s[1..]));
    }
  }

  /** The answer a lookup gives once the rows are sorted: the oldest match, the earliest among equals. */
  function Oldest(s: seq<Record>, field: string, want: Value): Option<Record> {
    if s == [] then None
    else
      var rest := Oldest(s[1..], field, want);
      if LiveWith(s[0], field, want) && (rest.None? || Ts(s[0]) <= Ts(rest.value)) then Some(s[0]) else rest
  }

  lemma {:induction false} FirstAfterInsert(r: Record, s: seq<Record>, field: string, want: Value)
    requires Ascending(s)
    ensures var f := First(s, field, want);
            First(Insert(r, s), field, want)
            == if LiveWith(r, field, want) && (f.None? || Ts(r) <= Ts(f.value)) then Some(r) else f
  {
    hide Ts, LiveWith;
    FirstFinds(s, field, want);
    if s == [] || Ts(r) <= Ts(s[0]) {
      assert ([r] + s)[1..] == s;
    } else {
      FirstAfterInsert(r, s[1..], field, want);
      assert Insert(r, s)[1..] == Insert(r, s[1..]);
    }
  }

  lemma {:induction false} FirstOfSorted(s: seq<Record>, field: string, want: Value)
    ensures First(SortByTs(s), field, want) == Oldest(s, field, want)
  {
    if s == [] {
    } else {
      FirstOfSorted(s[1..], field, want);
      SortAscending(s[1..]);
      FirstAfterInsert(s[0], SortByTs(s[1..]), field, want);
    }
  }

  lemma {:induction false} OldestIsOldest(s: seq<Record>, field: string, want: Value)
    ensures var o := Oldest(s, field, want);
            && (o.None? ==> forall r :: r in s ==> !LiveWith(r, field, want))
            && (o.Some? ==> o.value in s && LiveWith(o.value, field, want))
            && (o.Some? ==> forall r :: r in s && LiveWith(r, field, want) ==> Ts(o.value) <= Ts(r))
  {
    hide Ts, LiveWith;
    if s == [] {
    } else {
      OldestIsOldest(s[1..], field, want);
      assert s == [s[0]] + s[1..];
      assert forall r :: r in s ==> r == s[0] || r in s[1..];
    }
  }

  /** When no record occurs twice, the oldest match is the first match exactly when no match is older. */
  lemma {:induction false} OldestIsFirst(s: seq<Record>, field: string, want: Value)
    requires forall i, j :: 0 <= i < j < |s| ==> s[i] != s[j]
    ensures var f, o := First(s, field, want), Oldest(s, field, want);
            && (f.None? <==> o.None?)
            && (f.Some? ==> (o == f <==> forall r :: r in s && LiveWith(r, field, want) ==> Ts(f.value) <= Ts(r)))
  {
    hide Ts, LiveWith;
    OldestIsOldest(s, field, want);
    FirstFinds(s, field, want);
    if s == [] {
    } else {
      var rest := s[1..];
      OldestIsOldest(rest, field, want);
      assert s == [s[0]] + rest;
      assert forall i :: 0 <= i < |rest| ==> rest[i] == s[i + 1];
      assert s[0] !in rest;
      if !LiveWith(s[0], field, want) {
        OldestIsFirst(rest, field, want);
        assert forall r :: r in s ==> r == s[0] || r in rest;
        assert forall r :: r in rest ==> r in s;
      }
    }
  }

  lemma {:induction false} FirstOfSame(s: seq<Record>, u: seq<Record>, field: string, want: Value)
    requires field != "event" && |s| == |u| && forall i :: 0 <= i < |s| ==> SameRecord(s[i], u[i])
    ensures var f, g := First(s, field, want), First(u, field, want);
            && (f.None? <==> g.None?)
            && (f.Some? ==> SameRecord(f.value, g.value))
  {
    if s == [] {
    } else {
      assert SameRecord(s[0], u[0]);
      FirstOfSame(s[1..], u[1..], field, want);
    }
  }

  /** Up to event names, the rows of a replayed compacted log are the sorted rows of the original. */
  lemma CompactedRows(events: seq<Record>)
    ensures var rows, u := RowsFrom(State(events), 0), RowsFrom(State(Compacted(events)), 0);
            && |u| == |SortByTs(rows)|
            && (forall i :: 0 <= i < |u| ==> SameRecord(SortByTs(rows)[i], u[i]))
            && (forall i, j :: 0 <= i < j < |rows| ==> rows[i] != rows[j])
  {
    hide SortByTs, Key, Get, GoodTable, RowsFrom, Compacted, State;
    var t, c := State(events), State(Compacted(events));
    var sorted := SortByTs(RowsFrom(t, 0));
    ReplayIsGood(events);
    ReplayIsGood(Compacted(events));
    RowsOfGoodTable(t);
    SortKeeps(RowsFrom(t, 0));
    CompactedRestores(events);
    RowsFromAt(c, 0);
    KeysOfAt(sorted);
    forall i | 0 <= i < |sorted| ensures SameRecord(sorted[i], RowsFrom(c, 0)[i]) {
      assert sorted[i] in RowsFrom(t, 0);
      assert c.order[i] == Key(sorted[i]);
      assert SameRecord(c.rows[Key(sorted[i])], t.rows[Key(sorted[i])]);
    }
  }

  lemma SameRecordsSameKeys(a: Record, b: Record)
    requires SameRecord(a, b)
    ensures Key(a) == Key(b) && IsLive(a) == IsLive(b)
  {
  }

  /** After compaction the first record of a name is the oldest: the same one exactly when none was older. */
  lemma FirstNamedAfterCompaction(events: seq<Record>, name: Value)
    ensures var rows := RowsFrom(State(events), 0);
            var f, g := First(rows, "name", name), First(RowsFrom(State(Compacted(events)), 0), "name", name);
            && (f.None? <==> g.None?)
            && (f.Some? ==>
                  (Key(g.value) == Key(f.value)
                   <==> forall r :: r in rows && LiveWith(r, "name", name) ==> Ts(f.value) <= Ts(r)))
  {
    hide First, Oldest, RowsFrom, Ts, LiveWith, GoodTable, GoodRows, SortByTs, State, Compacted, Key, SameRecord;
    var rows, after := RowsFrom(State(events), 0), RowsFrom(State(Compacted(events)), 0);
    ReplayIsGood(events);
    RowsOfGoodTable(State(events));
    CompactedRows(events);
    FirstOfSame(SortByTs(rows), after, "name", name);
    FirstOfSorted(rows, "name", name);
    FirstFinds(rows, "name", name);
    OldestIsOldest(rows, "name", name);
    OldestIsFirst(rows, "name", name);
    if First(rows, "name", name).Some? {
      SameRecordsSameKeys(Oldest(rows, "name", name).value, First(after, "name", name).value);
    }
  }

  /**
   * Compaction reorders the dictionary by timestamp, so a lookup by name can change its answer. It gives
   * the same key as before exactly when the key given is live, or the record found first was also the
   * oldest among the live records of that name.
   */
  lemma LookupAfterCompaction(events: seq<Record>, repo: Value, name: Value)
    ensures var t := State(events);
            var f, g := FindLive(t, repo, name), FindLive(State(Compacted(events)), repo, name);
            && (f.None? <==> g.None?)
            && (f.Some? ==>
                  (Key(g.value) == Key(f.value)
                   <==> (IsLiveKey(t, repo)
                        || forall k :: k in t.rows && LiveWith(t.rows[k], "name", name) ==> Ts(f.value) <= Ts(t.rows[k]))))
  {
    hide First, RowsFrom, Ts, LiveWith, GoodTable, GoodRows, State, Compacted, Key, SameRecord;
    var t, c := State(events), State(Compacted(events));
    ReplayIsGood(events);
    ReplayIsGood(Compacted(events));
    CompactedRestores(events);
    RowsOfGoodTable(t);
    RowsOfGoodTable(c);
    FindLiveFinds(t, repo, name);
    FindLiveFinds(c, repo, name);
    FirstNamedAfterCompaction(events, name);
    if repo in t.rows {
      SameRecordsSameKeys(c.rows[repo], t.rows[repo]);
    }
  }

  // --------------------------------------------------------------------
  // The commands
  // --------------------------------------------------------------------

  /** The record that `_append` writes: no nulls, and a timestamp if it has none. */
  function Stamped(r: Record, now: int): Record {
    if Get(r, "ts") != Null then NonNull(r) else NonNull(r)["ts" := Num(now)]
  }

  function ReapEvent(live: Record, repo: Value, name: Value, checkpoint: Value, transcript: Value): Record {
    map["event" := Str("reap"), "repo" := Get(live, "repo").Or(repo), "name" := Get(live, "name").Or(name),
        "checkpoint" := checkpoint, "transcript" := transcript]
  }

  /** Whether a reap naming `repo` is filed under the key of the live record it found. */
  predicate FiledUnderFound(live: Record, repo: Value) {
    Get(live, "repo").Truthy() || !repo.Truthy() || repo == Key(live)
  }

  lemma StampedKeepsEffect(r: Record, now: int)
    ensures Key(Stamped(r, now)) == Key(r) && EffectOf(Stamped(r, now)) == EffectOf(r)
  {
  }

  /**
   * A reap leaves the record it found dormant exactly when that record has a repo, or the caller named
   * none, or named the record's own key. Otherwise the found record stays live and a dormant record
   * appears under the caller's repo. That row takes the checkpoint and the transcript, and keeps its other
   * fields. No other key changes.
   */
  lemma ReapMarksFound(events: seq<Record>, repo: Value, name: Value, checkpoint: Value, transcript: Value, now: int)
    requires FindLive(State(events), repo, name).Some?
    ensures var t := State(events);
            var r := FindLive(t, repo, name).value;
            var u := State(events + [Stamped(ReapEvent(r, repo, name, checkpoint, transcript), now)]);
            var filed := if FiledUnderFound(r, repo) then Key(r) else repo;
            && (Get(Row(u, Key(r)), "state") == Str("dormant") <==> FiledUnderFound(r, repo))
            && u.rows.Keys == t.rows.Keys + {filed}
            && Filed(Row(t, filed), u.rows[filed], checkpoint, transcript, now)
            && forall k :: k in t.rows && k != filed ==> u.rows[k] == t.rows[k]
  {
    hide FindLive, ReplayFrom, GoodTable, Key, EffectOf, Stamped, ReapEvent, NonNull, State, Without;
    var t := State(events);
    var r := FindLive(t, repo, name).value;
    var e := Stamped(ReapEvent(r, repo, name, checkpoint, transcript), now);
    ReplayIsGood(events);
    FindLiveFinds(t, repo, name);
    FoundIsGood(t, repo, name);
    AppendOne(events, e);
    ReapKey(r, repo, name, checkpoint, transcript, now);
    ReapFiles(t, r, repo, name, checkpoint, transcript, now);
  }

  lemma FoundIsGood(t: Table, repo: Value, name: Value)
    requires GoodTable(t) && FindLive(t, repo, name).Some?
    ensures var r := FindLive(t, repo, name).value;
            GoodRow(Key(r), r) && IsLive(r) && Key(r) in t.rows && t.rows[Key(r)] == r
  {
    hide FindLive;
    FindLiveFinds(t, repo, name);
  }

  /** What a reap writes into the row it is filed under. */
  ghost predicate Filed(was: Record, row: Record, checkpoint: Value, transcript: Value, now: int) {
    && Get(row, "state") == Str("dormant") && Get(row, "ts") == Num(now)
    && Get(row, "checkpoint") == (if checkpoint != Null then checkpoint else Get(was, "checkpoint"))
    && Get(row, "transcript") == (if transcript != Null then transcript else Get(was, "transcript"))
    && forall f :: f !in {"state", "key", "ts", "event", "repo", "name", "checkpoint", "transcript"} ==>
         Get(row, f) == Get(was, f)
  }

  lemma ReapFiles(t: Table, r: Record, repo: Value, name: Value, checkpoint: Value, transcript: Value, now: int)
    requires GoodRow(Key(r), r)
    ensures var e := Stamped(ReapEvent(r, repo, name, checkpoint, transcript), now);
            && Key(e) in Apply(t, e).rows
            && Filed(Row(t, Key(e)), Apply(t, e).rows[Key(e)], checkpoint, transcript, now)
  {
    hide Key, Stamped, ReapEvent, Updated, Get, EffectOf, GoodRow, FiledUnderFound, Without;
    var e := Stamped(ReapEvent(r, repo, name, checkpoint, transcript), now);
    ReapKey(r, repo, name, checkpoint, transcript, now);
    FoundKeyIsTruthy(r, repo);
    ReapFields(r, repo, name, checkpoint, transcript, now);
    UpdatedFields(Row(t, Key(e)), e, Key(e), "dormant");
  }

  lemma ReapFields(r: Record, repo: Value, name: Value, checkpoint: Value, transcript: Value, now: int)
    ensures var e := Stamped(ReapEvent(r, repo, name, checkpoint, transcript), now);
            && Get(e, "checkpoint") == checkpoint && Get(e, "transcript") == transcript && Get(e, "ts") == Num(now)
            && forall f :: f !in {"ts", "event", "repo", "name", "checkpoint", "transcript"} ==> Get(e, f) == Null
  {
  }

  lemma FoundKeyIsTruthy(r: Record, repo: Value)
    requires GoodRow(Key(r), r)
    ensures (if FiledUnderFound(r, repo) then Key(r) else repo).Truthy()
  {
  }

  lemma ReapKey(r: Record, repo: Value, name: Value, checkpoint: Value, transcript: Value, now: int)
    requires GoodRow(Key(r), r)
    ensures var e := Stamped(ReapEvent(r, repo, name, checkpoint, transcript), now);
            EffectOf(e) == Becomes("dormant") && Key(e) == if FiledUnderFound(r, repo) then Key(r) else repo
  {
    StampedKeepsEffect(ReapEvent(r, repo, name, checkpoint, transcript), now);
  }

  lemma AppendOne(events: seq<Record>, e: Record)
    ensures State(events + [e]) == Apply(State(events), e)
  {
    assert (events + [e])[..|events|] == events;
    ReplayLast(events + [e]);
  }

  function SpawnEvent(repo: Value, name: Value, seed: Value, pane: Value, slot: Value): Record {
    map["event" := Str("spawn"), "repo" := repo, "name" := name, "seed" := seed, "pane" := pane, "slot" := slot]
  }

  /** What a spawn with only a repo and a name appends. */
  function Spawned(repo: Value, name: Value, now: int): Record {
    map["event" := Str("spawn"), "repo" := repo, "name" := name, "ts" := Num(now)]
  }

  lemma SpawnAppends(repo: Value, name: Value, now: int)
    requires repo != Null && name != Null
    ensures Stamped(SpawnEvent(repo, name, Null, Null, Null), now) == Spawned(repo, name, now)
  {
  }

  /** A reap can leave a live agent live: one spawned under an empty repo and reaped under a repo of the caller's. */
  lemma ReapCanMissTheAgent()
    ensures var spawned := Spawned(Str(""), Str("a"), 1);
            var r := FindLive(State([spawned]), Str("/r"), Str("a"));
            && spawned == Stamped(SpawnEvent(Str(""), Str("a"), Null, Null, Null), 1)
            && r.Some?
            && IsLive(Row(State([spawned, Stamped(ReapEvent(r.value, Str("/r"), Str("a"), Null, Null), 2)]), Str("a")))
  {
    hide ReapEvent, SpawnEvent, Stamped, FindLive, ReplayFrom, GoodTable;
    var spawned := Spawned(Str(""), Str("a"), 1);
    var t := State([spawned]);
    SpawnAppends(Str(""), Str("a"), 1);
    assert [] + [spawned] == [spawned];
    NothingReplayed();
    AppendOne([], spawned);
    ReplayIsGood([spawned]);
    assert Answers(t.rows[Str("a")], Str("/r"), Str("a"));
    FindLiveFinds(t, Str("/r"), Str("a"));
    var r := FindLive(t, Str("/r"), Str("a")).value;
    assert r == t.rows[Str("a")];
    var e := Stamped(ReapEvent(r, Str("/r"), Str("a"), Null, Null), 2);
    ReapMarksFound([spawned], Str("/r"), Str("a"), Null, Null, 2);
    assert [spawned] + [e] == [spawned, e];
  }

  lemma NothingReplayed()
    ensures State([]) == EMPTY
  {
  }

  /** Agents `a` and `b` under one name, and then `a` restored: `a` comes first but is the younger record. */
  function SharedName(): seq<Record> {
    [Spawned(Str("/a"), Str("n"), 1), Spawned(Str("/b"), Str("n"), 2),
     map["event" := Str("restore"), "repo" := Str("/a"), "name" := Str("n"), "ts" := Num(3)]]
  }

  lemma ApplyNamed(t: Table, e: Record, k: Value, name: Value, ts: int)
    requires k.Truthy() && Key(e) == k && EffectOf(e) == Becomes("live")
    requires name != Null && Get(e, "name") == name && Get(e, "ts") == Num(ts)
    ensures var u := Apply(t, e);
            && u.order == (if k in t.rows then t.order else t.order + [k])
            && u.rows.Keys == t.rows.Keys + {k}
            && (forall x :: x in t.rows && x != k ==> u.rows[x] == t.rows[x])
            && LiveWith(u.rows[k], "name", name) && Ts(u.rows[k]) == ts
  {
    UpdatedFields(Row(t, k), e, k, "live");
  }

  lemma SharedNameState()
    ensures var t := State(SharedName());
            && t.order == [Str("/a"), Str("/b")]
            && t.rows.Keys == {Str("/a"), Str("/b")}
            && (forall k :: k in t.rows ==> LiveWith(t.rows[k], "name", Str("n")))
            && Ts(t.rows[Str("/a")]) == 3 && Ts(t.rows[Str("/b")]) == 2
  {
    hide ReplayFrom, State, Apply, Ts, LiveWith;
    var l, n := SharedName(), Str("n");
    NothingReplayed();
    AppendOne([], l[0]);
    AppendOne([l[0]], l[1]);
    AppendOne([l[0], l[1]], l[2]);
    assert [] + [l[0]] == [l[0]] && [l[0]] + [l[1]] == [l[0], l[1]] && [l[0], l[1]] + [l[2]] == l;
    ApplyNamed(EMPTY, l[0], Str("/a"), n, 1);
    ApplyNamed(State([l[0]]), l[1], Str("/b"), n, 2);
    ApplyNamed(State([l[0], l[1]]), l[2], Str("/a"), n, 3);
  }

  /** Compaction can hand a name to another agent. */
  lemma CompactionCanMoveAName()
    ensures var f, g := FindLive(State(SharedName()), Null, Str("n")), FindLive(State(Compacted(SharedName())), Null, Str("n"));
            f.Some? && Key(f.value) == Str("/a") && g.Some? && Key(g.value) == Str("/b")
  {
    hide State, Compacted, GoodTable, SharedName, Ts, SameRecord;
    var l := SharedName();
    var t, c := State(l), State(Compacted(l));
    SharedNameState();
    ReplayIsGood(l);
    ReplayIsGood(Compacted(l));
    CompactedRestores(l);
    RowsAreStored(t);
    assert RowsFrom(t, 0)[0] == t.rows[Str("/a")];
    LookupAfterCompaction(l, Null, Str("n"));
    FindLiveFinds(c, Null, Str("n"));
  }

  /** Whether a registry window still backs the record. */
  predicate Backed(r: Record, names: set<Value>, panes: set<Value>) {
    var pane, name := Get(r, "pane"), Get(r, "name");
    (pane.Truthy() && pane in panes) || (name.Truthy() && name in names)
  }

  predicate Stale(r: Record, names: set<Value>, panes: set<Value>) {
    IsLive(r) && !Backed(r, names, panes)
  }

  lemma StaleSays(r: Record, names: set<Value>, panes: set<Value>)
    ensures !Stale(r, names, panes) <==>
      || Get(r, "state") != Str("live")
      || (Get(r, "pane").Truthy() && Get(r, "pane") in panes)
      || (Get(r, "name").Truthy() && Get(r, "name") in names)
  {
  }

  /** `u` holds the rows of `t` but for the stale ones whose keys are in `gone`. */
  ghost predicate StaleDropped(t: Table, u: Table, gone: seq<Value>, names: set<Value>, panes: set<Value>) {
    && (forall k :: k in u.rows <==> k in t.rows && !(k in gone && Stale(t.rows[k], names, panes)))
    && (forall k :: k in u.rows ==> u.rows[k] == t.rows[k])
  }

  lemma DropOne(t: Table, u: Table, gone: seq<Value>, k: Value, e: Record, names: set<Value>, panes: set<Value>)
    requires k.Truthy() && k in t.rows && StaleDropped(t, u, gone, names, panes)
    requires Stale(t.rows[k], names, panes) && Key(e) == k && EffectOf(e) == Removes
    ensures StaleDropped(t, Apply(u, e), gone + [k], names, panes)
  {
    hide Stale, Key, EffectOf, Without, Updated;
    assert Apply(u, e).rows == u.rows - {k};
    assert forall x :: x in gone + [k] <==> x in gone || x == k;
  }

  lemma KeepOne(t: Table, u: Table, gone: seq<Value>, k: Value, names: set<Value>, panes: set<Value>)
    requires k in t.rows && StaleDropped(t, u, gone, names, panes) && !Stale(t.rows[k], names, panes)
    ensures StaleDropped(t, u, gone + [k], names, panes)
  {
    hide Stale;
    assert forall x :: x in gone + [k] <==> x in gone || x == k;
  }

  /** Key `k` is live, with the fields given written, the time stamped and every other field kept. */
  ghost predicate Revived(t: Table, u: Table, k: Value, fields: Record, now: int) {
    if !k.Truthy() then u == t
    else
      && u.rows.Keys == t.rows.Keys + {k}
      && (forall x :: x in t.rows && x != k ==> u.rows[x] == t.rows[x])
      && IsLive(u.rows[k])
      && Get(u.rows[k], "ts") == Num(now)
      && forall f :: f !in {"state", "key", "ts", "event"} ==>
           Get(u.rows[k], f) == if Get(fields, f) != Null then fields[f] else Get(Row(t, k), f)
  }

  lemma ApplyRevives(t: Table, fields: Record, event: string, now: int)
    requires event in {"spawn", "restore"}
    requires {"state", "key", "ts", "event"} !! fields.Keys
    ensures var e := Stamped(fields["event" := Str(event)], now);
            Revived(t, Apply(t, e), Get(fields, "repo").Or(Get(fields, "name")), fields, now)
  {
    var e := Stamped(fields["event" := Str(event)], now);
    var k := Get(fields, "repo").Or(Get(fields, "name"));
    StampedKeepsEffect(fields["event" := Str(event)], now);
    assert k.Truthy() ==> Key(e) == k;
    UpdatedFields(Row(t, k), e, k, "live");
  }

  class AgentLedger {
    var log: seq<Record>

    constructor ()
      ensures log == []
    {
      log := [];
    }

    method Append(record: Record, now: int) returns (written: Record)
      modifies this
      ensures written == Stamped(record, now)
      ensures log == old(log) + [written]
      ensures State(log) == Apply(State(old(log)), written)
    {
      written := map f | f in record && record[f] != Null :: record[f];
      if "ts" !in written {
        written := written["ts" := Num(now)];
      }
      AppendOne(log, written);
      log := log + [written];
    }

    /** A spawn makes its key live and writes the fields it was given; all others are kept. */
    method Spawn(repo: Value, name: Value, seed: Value, pane: Value, slot: Value, now: int)
      modifies this
      ensures |log| == |old(log)| + 1 && old(log) <= log
      ensures Revived(State(old(log)), State(log), repo.Or(name),
                      map["repo" := repo, "name" := name, "seed" := seed, "pane" := pane, "slot" := slot], now)
    {
      hide State, Apply, Stamped, Revived;
      ghost var fields: Record := map["repo" := repo, "name" := name, "seed" := seed, "pane" := pane, "slot" := slot];
      ApplyRevives(State(log), fields, "spawn", now);
      var e := SpawnEvent(repo, name, seed, pane, slot);
      assert e == fields["event" := Str("spawn")];
      var written := Append(e, now);
    }

    /** A restore does the same, and so keeps the seed and the checkpoint. */
    method Restore(repo: Value, name: Value, pane: Value, slot: Value, now: int)
      modifies this
      ensures |log| == |old(log)| + 1 && old(log) <= log
      ensures Revived(State(old(log)), State(log), repo.Or(name),
                      map["repo" := repo, "name" := name, "pane" := pane, "slot" := slot], now)
    {
      hide State, Apply, Stamped, Revived;
      var fields: Record := map["repo" := repo, "name" := name, "pane" := pane, "slot" := slot];
      ApplyRevives(State(log), fields, "restore", now);
      var written := Append(fields["event" := Str("restore")], now);
    }

    /** A reap without a live match records nothing. */
    method Reap(repo: Value, name: Value, checkpoint: Value, transcript: Value, now: int)
      modifies this
      ensures var t, u := State(old(log)), State(log);
              var f := FindLive(t, repo, name);
              && (f.None? ==> log == old(log))
              && (f.Some? ==>
                    && log == old(log) + [Stamped(ReapEvent(f.value, repo, name, checkpoint, transcript), now)]
                    && (Get(Row(u, Key(f.value)), "state") == Str("dormant") <==> FiledUnderFound(f.value, repo))
                    && var filed := if FiledUnderFound(f.value, repo) then Key(f.value) else repo;
                       && u.rows.Keys == t.rows.Keys + {filed}
                       && Filed(Row(t, filed), u.rows[filed], checkpoint, transcript, now)
                       && forall k :: k in t.rows && k != filed ==> u.rows[k] == t.rows[k])
    {
      var cur := Replay(log);
      var live := FindLive(cur, repo, name);
      if live.None? {
        return;
      }
      ReapMarksFound(log, repo, name, checkpoint, transcript, now);
      var written := Append(ReapEvent(live.value, repo, name, checkpoint, transcript), now);
    }

    method Gone(repo: Value, name: Value, now: int)
      modifies this
      ensures old(log) <= log
      ensures State(log).rows == State(old(log)).rows - {repo.Or(name)}
    {
      var e := map["event" := Str("gone"), "repo" := repo, "name" := name];
      StampedKeepsEffect(e, now);
      ReplayIsGood(log);
      var written := Append(e, now);
    }

    /** Reconciling removes exactly the live records that no registry window backs, and changes no other. */
    method Reconcile(names: set<Value>, panes: set<Value>, now: int)
      modifies this
      ensures old(log) <= log
      ensures var t, u := State(old(log)), State(log);
              && (forall k :: k in u.rows <==>
                    && k in t.rows
                    && (|| Get(t.rows[k], "state") != Str("live")
                        || (Get(t.rows[k], "pane").Truthy() && Get(t.rows[k], "pane") in panes)
                        || (Get(t.rows[k], "name").Truthy() && Get(t.rows[k], "name") in names)))
              && (forall k :: k in u.rows ==> u.rows[k] == t.rows[k])
    {
      hide ReplayFrom, State, Stale, Apply, Get, Stamped, GoneEvent, Key, EffectOf, NonNull;
      var cur := Replay(log);
      ReplayIsGood(log);
      var i := 0;
      while i < |cur.order|
        invariant i <= |cur.order| && old(log) <= log
        invariant StaleDropped(cur, State(log), cur.order[..i], names, panes)
      {
        var k := cur.order[i];
        var rec := cur.rows[k];
        assert cur.order[..i + 1] == cur.order[..i] + [k];
        if Stale(rec, names, panes) {
          GoneEventFitsRow(k, rec, now);
          DropOne(cur, State(log), cur.order[..i], k, Stamped(GoneEvent(rec), now), names, panes);
          var written := Append(GoneEvent(rec), now);
        } else {
          KeepOne(cur, State(log), cur.order[..i], k, names, panes);
        }
        i := i + 1;
      }
      assert cur.order[..i] == cur.order;
      forall k | k in cur.rows { StaleSays(cur.rows[k], names, panes); }
    }

    /** The rewritten log replays to the same records, up to their event names. */
    method Compact() returns (kept: nat)
      modifies this
      ensures log == Compacted(old(log))
      ensures SameTable(State(log), State(old(log)))
      ensures kept == |State(old(log)).order| == |log|
    {
      hide ReplayFrom, State, SortByTs, RowsFrom, SameTable, Get;
      var cur := Replay(log);
      ghost var events := log;
      var sorted := SortByTs(RowsFrom(cur, 0));
      var out: seq<Record> := [];
      var i := 0;
      while i < |sorted|
        invariant i == |out| <= |sorted|
        invariant out + RewrittenAll(sorted[i..]) == RewrittenAll(sorted)
      {
        var rec := sorted[i];
        var ev := if Get(rec, "state") == Str("dormant") then "reap" else "spawn";
        assert sorted[i..][1..] == sorted[i + 1..];
        out := out + [(rec - {"state", "key"})["event" := Str(ev)]];
        i := i + 1;
      }
      CompactedRestores(events);
      SortKeepsLength(RowsFrom(cur, 0));
      RowsFromAt(cur, 0);
      log := out;
      kept := |cur.order|;
    }
  }

  lemma {:induction false} InsertKeepsLength(r: Record, s: seq<Record>)
    ensures |Insert(r, s)| == |s| + 1
  {
    if s == [] || Ts(r) <= Ts(s[0]) {
    } else {
      InsertKeepsLength(r, s[1..]);
    }
  }

  lemma {:induction false} SortKeepsLength(s: seq<Record>)
    ensures |SortByTs(s)| == |s|
  {
    if s == [] {
    } else {
      SortKeepsLength(s[1..]);
      InsertKeepsLength(s[0], SortByTs(s[1..]));
    }
  }

  function GoneEvent(r: Record): Record {
    map["event" := Str("gone"), "repo" := Get(r, "repo"), "name" := Get(r, "name"), "reason" := Str("reconcile:no-window")]
  }

  lemma GoneEventFitsRow(k: Value, r: Record, now: int)
    requires GoodRow(k, r)
    ensures Key(Stamped(GoneEvent(r), now)) == k && EffectOf(Stamped(GoneEvent(r), now)) == Removes
  {
    StampedKeepsEffect(GoneEvent(r), now);
  }
}
