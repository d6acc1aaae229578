/**
 * The document vault's tables and its two writing operations (doc-vault/docvault.py, `deposit` and
 * `cmd_forget`): a path identifies a document, its contents are numbered versions.
 */
module Vault {

  type Id = nat
  type Path = string
  type Hash = string

  /** A row of `docs`: the content shown now and the version it is. */
  datatype Doc = Doc(hash: Hash, current: int)

  datatype Version = Version(doc: Id, n: int, hash: Hash)

  datatype Origin = Origin(doc: Id, path: Path)

  datatype Tag = Tag(doc: Id, tag: string)

  /** The linked tables; `indexed` is the full-text index, with the content each document is indexed by. */
  datatype Tables = Tables(
    docs: map<Id, Doc>, versions: set<Version>, origins: set<Origin>, tags: set<Tag>, indexed: map<Id, Hash>)

  const EMPTY := Tables(map[], {}, {}, {}, map[])

  datatype Status = Added | Duplicate | Versioned | Reverted | Refused

  predicate HasOrigin(t: Tables, path: Path) {
    exists o :: o in t.origins && o.path == path
  }

  predicate HasHash(t: Tables, d: Id, hash: Hash) {
    exists v :: v in t.versions && v.doc == d && v.hash == hash
  }

  predicate HasNumber(t: Tables, d: Id, n: int) {
    exists v :: v in t.versions && v.doc == d && v.n == n
  }

  // --------------------------------------------------------------------
  // What the tables always satisfy
  // --------------------------------------------------------------------

  /** Every row refers to a document; a document is indexed by its content and has an origin. */
  ghost predicate Linked(t: Tables) {
    && (forall v :: v in t.versions ==> v.doc in t.docs)
    && (forall o :: o in t.origins ==> o.doc in t.docs)
    && (forall g :: g in t.tags ==> g.doc in t.docs)
    && (forall d :: d in t.indexed <==> d in t.docs)
    && (forall d :: d in t.docs ==> t.indexed[d] == t.docs[d].hash)
    && (forall d {:trigger HasSource(t, d)} :: d in t.docs ==> HasSource(t, d))
  }

  ghost predicate HasSource(t: Tables, d: Id) {
    exists o :: o in t.origins && o.doc == d
  }

  ghost predicate PathsIdentify(t: Tables) {
    forall o, p :: o in t.origins && p in t.origins && o.path == p.path ==> o == p
  }

  /** The rows of a document have distinct numbers and distinct contents. */
  ghost predicate RowsDiffer(t: Tables) {
    forall v, w :: v in t.versions && w in t.versions && v.doc == w.doc && (v.n == w.n || v.hash == w.hash) ==> v == w
  }

  /** What a document shows is one of its version rows. */
  ghost predicate ShowsAVersion(t: Tables) {
    forall d :: d in t.docs ==> Version(d, t.docs[d].current, t.docs[d].hash) in t.versions
  }

  /** The numbers of a document's rows run from 1 without a gap. */
  ghost predicate Numbered(t: Tables) {
    && (forall v :: v in t.versions ==> v.n >= 1)
    && (forall v, n :: v in t.versions && 1 <= n < v.n ==> HasNumber(t, v.doc, n))
  }

  ghost predicate Sound(t: Tables) {
    Linked(t) && PathsIdentify(t) && RowsDiffer(t) && ShowsAVersion(t) && Numbered(t)
  }

  // --------------------------------------------------------------------
  // The operations as relations between tables
  // --------------------------------------------------------------------

  function TagRows(d: Id, tags: set<string>): set<Tag> {
    set g | g in tags :: Tag(d, g)
  }

  /** How a deposit of content `hash` from `path` may take `t` to `u`, and what it answers. */
  ghost predicate Deposited(t: Tables, u: Tables, path: Path, hash: Hash, tags: set<string>, status: Status, id: Id) {
    && (if status == Refused then u == t
        else u.origins == t.origins + {Origin(id, path)} && u.tags == t.tags + TagRows(id, tags))
    && (match status
        case Refused =>
          Rewrites(t, path, hash, id) && !HasHash(t, id, hash) && HasNumber(t, id, t.docs[id].current + 1)
        case Duplicate =>
          && u.docs == t.docs && u.versions == t.versions && u.indexed == t.indexed
          && (if HasOrigin(t, path) then Origin(id, path) in t.origins && id in t.docs && t.docs[id].hash == hash
              else HasHash(t, id, hash))
        case Reverted =>
          && Rewrites(t, path, hash, id)
          && u.versions == t.versions
          && Version(id, Current(u, id), hash) in t.versions
          && u.docs == t.docs[id := Doc(hash, Current(u, id))] && u.indexed == t.indexed[id := hash]
        case Versioned =>
          && Rewrites(t, path, hash, id) && !HasHash(t, id, hash) && !HasNumber(t, id, t.docs[id].current + 1)
          && u.versions == t.versions + {Version(id, t.docs[id].current + 1, hash)}
          && u.docs == t.docs[id := Doc(hash, t.docs[id].current + 1)] && u.indexed == t.indexed[id := hash]
        case Added =>
          && !HasOrigin(t, path) && id !in t.docs && (forall d :: !HasHash(t, d, hash))
          && u.versions == t.versions + {Version(id, 1, hash)}
          && u.docs == t.docs[id := Doc(hash, 1)] && u.indexed == t.indexed[id := hash])
  }

  /** `path` is an origin of `id`, whose content is not `hash`. */
  ghost predicate Rewrites(t: Tables, path: Path, hash: Hash, id: Id) {
    Origin(id, path) in t.origins && id in t.docs && t.docs[id].hash != hash
  }

  function Current(t: Tables, id: Id): int {
    if id in t.docs then t.docs[id].current else 0
  }

  /** Forgetting removes the document and, by cascade, every row that refers to it. */
  function Forgotten(t: Tables, id: Id): Tables {
    if id !in t.docs then t
    else Tables(
      t.docs - {id},
      (set v | v in t.versions && v.doc != id),
      (set o | o in t.origins && o.doc != id),
      (set g | g in t.tags && g.doc != id),
      t.indexed - {id})
  }

  /** No deposit takes a document, a version row or an origin away. */
  lemma DepositOnlyAdds(t: Tables, u: Tables, path: Path, hash: Hash, tags: set<string>, status: Status, id: Id)
    requires Linked(t) && Deposited(t, u, path, hash, tags, status, id)
    ensures t.docs.Keys <= u.docs.Keys && t.versions <= u.versions && t.origins <= u.origins && t.tags <= u.tags
    ensures id in u.docs
    ensures forall d :: d in t.docs && d != id ==> u.docs[d] == t.docs[d]
    ensures forall d, n :: HasNumber(t, d, n) ==> HasNumber(u, d, n)
  {
  }

  lemma DepositKeepsLinked(t: Tables, u: Tables, path: Path, hash: Hash, tags: set<string>, status: Status, id: Id)
    requires Linked(t) && Deposited(t, u, path, hash, tags, status, id)
    ensures Linked(u)
  {
    hide HasNumber;
    DepositOnlyAdds(t, u, path, hash, tags, status, id);
    forall d | d in u.docs ensures HasSource(u, d) {
      if d in t.docs {
        assert HasSource(t, d);
        var o :| o in t.origins && o.doc == d;
        assert o in u.origins;
      } else {
        assert Origin(id, path) in u.origins;
      }
    }
  }

  lemma DepositKeepsPaths(t: Tables, u: Tables, path: Path, hash: Hash, tags: set<string>, status: Status, id: Id)
    requires PathsIdentify(t) && Deposited(t, u, path, hash, tags, status, id)
    ensures PathsIdentify(u)
  {
    hide HasNumber, HasHash;
    if status != Refused {
      forall o | o in t.origins && o.path == path ensures o == Origin(id, path) {
        assert HasOrigin(t, path);
      }
    }
  }

  lemma DepositKeepsRows(t: Tables, u: Tables, path: Path, hash: Hash, tags: set<string>, status: Status, id: Id)
    requires Linked(t) && RowsDiffer(t) && Numbered(t) && ShowsAVersion(t) && Deposited(t, u, path, hash, tags, status, id)
    ensures RowsDiffer(u) && Numbered(u)
  {
    hide HasOrigin;
    DepositOnlyAdds(t, u, path, hash, tags, status, id);
    if status in {Versioned, Added} {
      var n := if status == Versioned then t.docs[id].current + 1 else 1;
      NewRowFits(t, u, Version(id, n, hash));
    } else {
      assert u.versions == t.versions;
      SameRows(t, u);
    }
  }

  lemma SameRows(t: Tables, u: Tables)
    requires RowsDiffer(t) && Numbered(t) && u.versions == t.versions
    ensures RowsDiffer(u) && Numbered(u)
  {
    assert forall d, n :: HasNumber(t, d, n) ==> HasNumber(u, d, n);
  }

  lemma NewRowFits(t: Tables, u: Tables, row: Version)
    requires RowsDiffer(t) && Numbered(t) && u.versions == t.versions + {row}
    requires row.n >= 1 && !HasNumber(t, row.doc, row.n) && !HasHash(t, row.doc, row.hash)
    requires row.n > 1 ==> HasNumber(t, row.doc, row.n - 1)
    ensures RowsDiffer(u) && Numbered(u)
  {
    forall d, n | HasNumber(t, d, n) ensures HasNumber(u, d, n) {
      var v :| v in t.versions && v.doc == d && v.n == n;
      assert v in u.versions;
    }
    forall n | 1 <= n < row.n ensures HasNumber(t, row.doc, n) {
      var v :| v in t.versions && v.doc == row.doc && v.n == row.n - 1;
    }
  }

  lemma DepositKeepsShown(t: Tables, u: Tables, path: Path, hash: Hash, tags: set<string>, status: Status, id: Id)
    requires ShowsAVersion(t) && Deposited(t, u, path, hash, tags, status, id)
    ensures ShowsAVersion(u)
  {
    hide HasNumber, HasOrigin, HasHash;
  }

  lemma DepositKeepsSound(t: Tables, u: Tables, path: Path, hash: Hash, tags: set<string>, status: Status, id: Id)
    requires Sound(t) && Deposited(t, u, path, hash, tags, status, id)
    ensures Sound(u)
  {
    hide Deposited, Linked, PathsIdentify, RowsDiffer, Numbered, ShowsAVersion;
    DepositKeepsLinked(t, u, path, hash, tags, status, id);
    DepositKeepsPaths(t, u, path, hash, tags, status, id);
    DepositKeepsRows(t, u, path, hash, tags, status, id);
    DepositKeepsShown(t, u, path, hash, tags, status, id);
  }

  lemma ForgettingKeepsLinked(t: Tables, id: Id)
    requires Linked(t) && ShowsAVersion(t)
    ensures Linked(Forgotten(t, id)) && ShowsAVersion(Forgotten(t, id))
  {
    var u := Forgotten(t, id);
    forall d | d in u.docs ensures HasSource(u, d) {
      assert HasSource(t, d);
      var o :| o in t.origins && o.doc == d;
      assert o in u.origins;
    }
  }

  lemma ForgettingKeepsNumbered(t: Tables, id: Id)
    requires Numbered(t)
    ensures Numbered(Forgotten(t, id))
  {
    var u := Forgotten(t, id);
    forall v, n | v in u.versions && 1 <= n < v.n ensures HasNumber(u, v.doc, n) {
      assert HasNumber(t, v.doc, n);
      var w :| w in t.versions && w.doc == v.doc && w.n == n;
      assert w in u.versions;
    }
  }

  lemma ForgettingKeepsSound(t: Tables, id: Id)
    requires Sound(t)
    ensures Sound(Forgotten(t, id))
  {
    hide Linked, Numbered, ShowsAVersion;
    ForgettingKeepsLinked(t, id);
    ForgettingKeepsNumbered(t, id);
  }

  // --------------------------------------------------------------------
  // The operations on the tables
  // --------------------------------------------------------------------

  class Store {
    var docs: map<Id, Doc>
    var versions: set<Version>
    var origins: set<Origin>
    var tags: set<Tag>
    var indexed: map<Id, Hash>

    ghost function Contents(): Tables
      reads this
    {
      Tables(docs, versions, origins, tags, indexed)
    }

    constructor ()
      ensures Contents() == EMPTY
    {
      docs, versions, origins, tags, indexed := map[], {}, {}, {}, map[];
    }

    /** INSERT into `doc_versions`: refused when the number or the content is taken for that document. */
    method InsertVersion(d: Id, n: int, hash: Hash) returns (ok: bool)
      modifies this`versions
      ensures ok <==> !HasNumber(old(Contents()), d, n) && !HasHash(old(Contents()), d, hash)
      ensures versions == if ok then old(versions) + {Version(d, n, hash)} else old(versions)
    {
      ok := forall v :: v in versions ==> v.doc != d || (v.n != n && v.hash != hash);
      if ok {
        versions := versions + {Version(d, n, hash)};
      }
    }

    method Record(d: Id, path: Path, newTags: set<string>)
      modifies this`origins, this`tags
      ensures origins == old(origins) + {Origin(d, path)} && tags == old(tags) + TagRows(d, newTags)
    {
      origins := origins + {Origin(d, path)};
      tags := tags + set g | g in newTags :: Tag(d, g);
    }

    /** A known path whose content changed: an old version again, or the next one if its number is free. */
    method Rewrite(id: Id, path: Path, hash: Hash, newTags: set<string>) returns (status: Status)
      requires Rewrites(Contents(), path, hash, id)
      modifies this
      ensures status in {Reverted, Versioned, Refused}
      ensures Deposited(old(Contents()), Contents(), path, hash, newTags, status, id)
    {
      hide HasNumber, HasHash, HasOrigin;
      ghost var t := Contents();
      var prior := set v | v in versions && v.doc == id && v.hash == hash;
      PriorMeansHash(t, id, hash, prior);
      var n: int;
      if prior != {} {
        var v :| v in prior;
        n, status := v.n, Reverted;
      } else {
        n, status := docs[id].current + 1, Versioned;
        var ok := InsertVersion(id, n, hash);
        if !ok {
          status := Refused;
          return;
        }
      }
      docs := docs[id := Doc(hash, n)];
      Record(id, path, newTags);
      indexed := indexed - {id};
      indexed := indexed[id := hash];
      assert indexed == t.indexed[id := hash];
    }

    /** An unknown path: another origin of a document that ever had the content, or a new document. */
    method AddOrJoin(path: Path, hash: Hash, newTags: set<string>, freshId: Id) returns (status: Status, id: Id)
      requires Sound(Contents()) && freshId !in docs && !HasOrigin(Contents(), path)
      modifies this
      ensures status in {Duplicate, Added}
      ensures Deposited(old(Contents()), Contents(), path, hash, newTags, status, id)
    {
      hide Sound, HasNumber, HasHash, HasOrigin;
      ghost var t := Contents();
      var rows := set v | v in versions && v.hash == hash;
      RowsMeanHash(t, hash, rows);
      if rows != {} {
        var v :| v in rows;
        id, status := v.doc, Duplicate;
        Record(id, path, newTags);
      } else {
        id, status := freshId, Added;
        docs := docs[id := Doc(hash, 1)];
        FreshInTables(t, Contents(), id, hash);
        var ok := InsertVersion(id, 1, hash);
        Record(id, path, newTags);
        indexed := indexed[id := hash];
      }
    }

    /**
     * The document at a known path is rewritten, or left alone when the content is its own; an unknown
     * path joins a document that ever had the content, or starts one. `freshId` is the id SQLite would
     * give a new row.
     */
    method Deposit(path: Path, hash: Hash, newTags: set<string>, freshId: Id) returns (status: Status, id: Id)
      requires Sound(Contents()) && freshId !in docs
      modifies this
      ensures Sound(Contents()) && Deposited(old(Contents()), Contents(), path, hash, newTags, status, id)
    {
      hide Sound, HasNumber, HasHash, HasOrigin;
      ghost var t := Contents();
      var known := set o | o in origins && o.path == path;
      KnownMeansOrigin(t, path, known);
      if known != {} {
        var o :| o in known;
        id := o.doc;
        OriginsHaveDocs(t, o);
        if docs[id].hash == hash {
          Record(id, path, newTags);
          status := Duplicate;
        } else {
          status := Rewrite(id, path, hash, newTags);
        }
      } else {
        status, id := AddOrJoin(path, hash, newTags, freshId);
      }
      DepositKeepsSound(t, Contents(), path, hash, newTags, status, id);
    }

    method Forget(id: Id) returns (found: bool)
      requires Sound(Contents())
      modifies this
      ensures Sound(Contents()) && Contents() == Forgotten(old(Contents()), id)
      ensures found <==> id in old(docs)
    {
      hide Sound, HasNumber;
      ForgettingKeepsSound(Contents(), id);
      found := id in docs;
      if !found {
        return;
      }
      indexed := indexed - {id};
      docs := docs - {id};
      versions := set v | v in versions && v.doc != id;
      origins := set o | o in origins && o.doc != id;
      tags := set g | g in tags && g.doc != id;
    }
  }

  lemma KnownMeansOrigin(t: Tables, path: Path, known: set<Origin>)
    requires known == set o | o in t.origins && o.path == path
    ensures known != {} <==> HasOrigin(t, path)
  {
    if HasOrigin(t, path) {
      var o :| o in t.origins && o.path == path;
      assert o in known;
    }
  }

  lemma OriginsHaveDocs(t: Tables, o: Origin)
    requires Sound(t) && o in t.origins
    ensures o.doc in t.docs && o == Origin(o.doc, o.path)
  {
  }

  lemma PriorMeansHash(t: Tables, d: Id, hash: Hash, prior: set<Version>)
    requires prior == set v | v in t.versions && v.doc == d && v.hash == hash
    ensures prior != {} <==> HasHash(t, d, hash)
    ensures forall v :: v in prior ==> v == Version(d, v.n, hash)
  {
    if HasHash(t, d, hash) {
      var v :| v in t.versions && v.doc == d && v.hash == hash;
      assert v in prior;
    }
  }

  lemma FreshInTables(t: Tables, u: Tables, d: Id, hash: Hash)
    requires Sound(t) && d !in t.docs && u.versions == t.versions
    ensures !HasNumber(u, d, 1) && !HasHash(u, d, hash)
  {
  }

  lemma RowsMeanHash(t: Tables, hash: Hash, rows: set<Version>)
    requires rows == set v | v in t.versions && v.hash == hash
    ensures forall v :: v in rows ==> HasHash(t, v.doc, hash)
    ensures rows == {} ==> forall d :: !HasHash(t, d, hash)
  {
    forall d | HasHash(t, d, hash) ensures rows != {} {
      var v :| v in t.versions && v.doc == d && v.hash == hash;
      assert v in rows;
    }
  }

  // --------------------------------------------------------------------
  // What a caller can rely on
  // --------------------------------------------------------------------

  /** The document shows an older version than its newest. */
  predicate Behind(t: Tables, id: Id) {
    id in t.docs && exists v :: v in t.versions && v.doc == id && v.n > t.docs[id].current
  }

  /**
   * A deposit is refused exactly when the path is known, the content is new to its document, and the
   * document is behind its newest version: after a revert, nothing new can be deposited at the path.
   */
  lemma RefusedExactlyWhenBehind(
    t: Tables, u: Tables, path: Path, hash: Hash, tags: set<string>, status: Status, id: Id)
    requires Sound(t) && Deposited(t, u, path, hash, tags, status, id)
    ensures status == Refused <==> Origin(id, path) in t.origins && !HasHash(t, id, hash) && Behind(t, id)
  {
    if Behind(t, id) {
      var v :| v in t.versions && v.doc == id && v.n > t.docs[id].current;
      assert v.n == t.docs[id].current + 1 || HasNumber(t, id, t.docs[id].current + 1);
    }
    assert id in t.docs ==> Version(id, t.docs[id].current, t.docs[id].hash) in t.versions;
  }

  /** A known path keeps its document. */
  lemma KnownPathKeepsItsDoc(
    t: Tables, u: Tables, path: Path, hash: Hash, tags: set<string>, status: Status, id: Id, d: Id)
    requires Sound(t) && Deposited(t, u, path, hash, tags, status, id) && Origin(d, path) in t.origins
    ensures id == d
    ensures status != Refused ==> u.docs[d].hash == hash
  {
    assert HasOrigin(t, path);
  }

  /**
   * Depositing the same file again answers `duplicate` and leaves the documents as they are, exactly when
   * the first deposit left its document showing that content. It does not when a new path brought in the
   * content of an old version: the second deposit then reverts the document.
   */
  lemma DepositAgain(
    t: Tables, u: Tables, w: Tables, path: Path, hash: Hash, tags: set<string>,
    first: Status, second: Status, id: Id, again: Id)
    requires Sound(t) && Deposited(t, u, path, hash, tags, first, id) && first != Refused
    requires Deposited(u, w, path, hash, tags, second, again)
    ensures again == id && id in u.docs
    ensures second == Duplicate <==> u.docs[id].hash == hash
    ensures second == Duplicate <==> HasOrigin(t, path) || first == Added || t.docs[id].hash == hash
    ensures second == Duplicate ==> w == u
    ensures second != Duplicate ==> second == Reverted && w.docs[id].hash == hash
  {
    DepositKeepsSound(t, u, path, hash, tags, first, id);
    assert Origin(id, path) in u.origins;
    assert HasOrigin(u, path);
    KnownPathKeepsItsDoc(u, w, path, hash, tags, second, again, id);
    assert HasHash(u, id, hash) by {
      HashIsKept(t, u, path, hash, tags, first, id);
    }
    assert second == Duplicate ==> w == u by {
      assert u.origins + {Origin(id, path)} == u.origins;
      assert u.tags + TagRows(id, tags) == u.tags;
    }
    if HasOrigin(t, path) {
      var o :| o in t.origins && o.path == path;
      KnownPathKeepsItsDoc(t, u, path, hash, tags, first, id, o.doc);
    }
  }

  lemma HashIsKept(t: Tables, u: Tables, path: Path, hash: Hash, tags: set<string>, status: Status, id: Id)
    requires Sound(t) && Deposited(t, u, path, hash, tags, status, id) && status != Refused
    ensures HasHash(u, id, hash)
  {
    match status
    case Duplicate =>
      if HasOrigin(t, path) {
        assert Version(id, t.docs[id].current, t.docs[id].hash) in u.versions;
      }
    case Reverted =>
      assert Version(id, Current(u, id), hash) in u.versions;
    case Versioned =>
      assert Version(id, t.docs[id].current + 1, hash) in u.versions;
    case Added =>
      assert Version(id, 1, hash) in u.versions;
    case _ =>
  }

  // --------------------------------------------------------------------
  // Over whole runs
  // --------------------------------------------------------------------

  datatype Event =
    | Deposits(path: Path, hash: Hash, tags: set<string>, status: Status, id: Id)
    | Forgets(id: Id)

  ghost predicate StepOf(t: Tables, e: Event, u: Tables) {
    match e
    case Deposits(path, hash, tags, status, id) => Deposited(t, u, path, hash, tags, status, id)
    case Forgets(id) => u == Forgotten(t, id)
  }

  /** `states[i]` is what the first `i` events leave. */
  ghost predicate IsRun(states: seq<Tables>, events: seq<Event>) {
    && |states| == |events| + 1
    && forall i :: 0 <= i < |events| ==> StepOf(states[i], events[i], states[i + 1])
  }

  lemma {:induction false} RunsKeepSound(states: seq<Tables>, events: seq<Event>, n: nat)
    requires IsRun(states, events) && Sound(states[0]) && n < |states|
    ensures Sound(states[n])
  {
    hide Sound, Deposited, Forgotten;
    if n == 0 {
    } else {
      RunsKeepSound(states, events, n - 1);
      assert StepOf(states[n - 1], events[n - 1], states[n]);
      match events[n - 1]
      case Deposits(path, hash, tags, status, id) => DepositKeepsSound(states[n - 1], states[n], path, hash, tags, status, id);
      case Forgets(id) => ForgettingKeepsSound(states[n - 1], id);
    }
  }

  lemma StepKeepsHistory(t: Tables, e: Event, u: Tables, d: Id)
    requires Sound(t) && StepOf(t, e, u) && d in t.docs && e != Forgets(d)
    ensures d in u.docs
    ensures forall v :: v in t.versions && v.doc == d ==> v in u.versions
    ensures forall o :: o in t.origins && o.doc == d ==> o in u.origins
    ensures forall g :: g in t.tags && g.doc == d ==> g in u.tags
  {
    hide Deposited, PathsIdentify, RowsDiffer, Numbered, ShowsAVersion, HasNumber;
    if e.Deposits? {
      DepositOnlyAdds(t, u, e.path, e.hash, e.tags, e.status, e.id);
    }
  }

  /**
   * While a document is not forgotten it stays, and none of its version rows, origins and tags is ever
   * altered or removed: new rows only come after the ones there are.
   */
  lemma {:induction false} HistoryIsKept(states: seq<Tables>, events: seq<Event>, d: Id, n: nat)
    requires IsRun(states, events) && Sound(states[0]) && d in states[0].docs && n < |states|
    requires forall i :: 0 <= i < n ==> events[i] != Forgets(d)
    ensures d in states[n].docs
    ensures forall v :: v in states[0].versions && v.doc == d ==> v in states[n].versions
    ensures forall o :: o in states[0].origins && o.doc == d ==> o in states[n].origins
    ensures forall g :: g in states[0].tags && g.doc == d ==> g in states[n].tags
  {
    hide Sound, StepOf;
    if n == 0 {
    } else {
      HistoryIsKept(states, events, d, n - 1);
      RunsKeepSound(states, events, n - 1);
      StepKeepsHistory(states[n - 1], events[n - 1], states[n], d);
    }
  }

  /** Until its document is forgotten, every deposit from a path goes to the same document. */
  lemma PathStaysWithItsDoc(states: seq<Tables>, events: seq<Event>, d: Id, path: Path, n: nat)
    requires IsRun(states, events) && Sound(states[0]) && Origin(d, path) in states[0].origins && n < |events|
    requires forall i :: 0 <= i < n ==> events[i] != Forgets(d)
    requires events[n].Deposits? && events[n].path == path
    ensures events[n].id == d
  {
    hide Sound, Deposited;
    OriginsHaveDocs(states[0], Origin(d, path));
    HistoryIsKept(states, events, d, n);
    RunsKeepSound(states, events, n);
    var e := events[n];
    assert StepOf(states[n], e, states[n + 1]);
    KnownPathKeepsItsDoc(states[n], states[n + 1], path, e.hash, e.tags, e.status, e.id, d);
  }

  /** From an empty vault the tables are sound after every event. */
  lemma EveryRunIsSound(states: seq<Tables>, events: seq<Event>, n: nat)
    requires IsRun(states, events) && states[0] == EMPTY && n < |states|
    ensures Sound(states[n])
  {
    assert Sound(EMPTY);
    RunsKeepSound(states, events, n);
  }

  /**
   * After a document is forgotten its paths are unknown: a deposit from one neither reverts, continues nor
   * is refused. It joins another document that ever had the content, or else starts a document at version 1.
   */
  lemma ForgottenPathStartsAfresh(
    t: Tables, d: Id, u: Tables, path: Path, hash: Hash, tags: set<string>, status: Status, id: Id)
    requires Sound(t) && Origin(d, path) in t.origins
    requires Deposited(Forgotten(t, d), u, path, hash, tags, status, id)
    ensures status in {Added, Duplicate}
    ensures status == Added <==> forall x :: x != d ==> !HasHash(t, x, hash)
    ensures status == Added ==> u.docs[id] == Doc(hash, 1) && forall v :: v in u.versions && v.doc == id ==> v == Version(id, 1, hash)
    ensures status == Duplicate ==> id != d && HasHash(t, id, hash)
  {
    hide Numbered, RowsDiffer, ShowsAVersion, HasNumber, TagRows;
    var f := Forgotten(t, d);
    ForgettingKeepsSound(t, d);
    assert !HasOrigin(f, path);
    forall x ensures HasHash(f, x, hash) <==> x != d && HasHash(t, x, hash) {
      if x != d && HasHash(t, x, hash) {
        var v :| v in t.versions && v.doc == x && v.hash == hash;
        assert v in f.versions;
      }
    }
  }

  // --------------------------------------------------------------------
  // Both failing cases are reached from an empty vault
  // --------------------------------------------------------------------

  /** A vault whose one document, with these origins, shows version `current` of its versions `a` and `b`. */
  function TwoVersions(a: Hash, b: Hash, paths: set<Path>, current: int): Tables {
    var shown := if current == 1 then a else b;
    Tables(map[0 := Doc(shown, current)], {Version(0, 1, a), Version(0, 2, b)},
           (set p | p in paths :: Origin(0, p)), {}, map[0 := shown])
  }

  function OneVersion(a: Hash, p: Path): Tables {
    Tables(map[0 := Doc(a, 1)], {Version(0, 1, a)}, {Origin(0, p)}, {}, map[0 := a])
  }

  lemma HashesOfTwo(a: Hash, b: Hash, paths: set<Path>, current: int, d: Id, hash: Hash, n: int)
    ensures var t := TwoVersions(a, b, paths, current);
            && (HasHash(t, d, hash) <==> d == 0 && hash in {a, b})
            && (HasNumber(t, d, n) <==> d == 0 && n in {1, 2})
            && (forall p :: HasOrigin(t, p) <==> p in paths)
  {
    var t := TwoVersions(a, b, paths, current);
    assert Version(0, 1, a) in t.versions && Version(0, 2, b) in t.versions;
    forall p ensures HasOrigin(t, p) <==> p in paths {
      if p in paths {
        assert Origin(0, p) in t.origins;
      }
    }
  }

  lemma NoTags(d: Id)
    ensures TagRows(d, {}) == {}
  {
  }

  /** The first two deposits at a path. */
  lemma TwoDeposits(p: Path, a: Hash, b: Hash)
    requires a != b
    ensures Deposited(EMPTY, OneVersion(a, p), p, a, {}, Added, 0)
    ensures Deposited(OneVersion(a, p), TwoVersions(a, b, {p}, 2), p, b, {}, Versioned, 0)
  {
    var t, u := OneVersion(a, p), TwoVersions(a, b, {p}, 2);
    NoTags(0);
    assert (set q | q in {p} :: Origin(0, q)) == {Origin(0, p)};
    assert t.versions + {Version(0, 2, b)} == u.versions;
    assert t.docs[0 := Doc(b, 2)] == u.docs;
    assert !HasHash(t, 0, b) && !HasNumber(t, 0, 2);
  }

  /** Rewriting `a`, `b`, then `a` again at one path: the third version is refused. */
  lemma RefusalIsReached(p: Path, a: Hash, b: Hash, c: Hash)
    requires a != b && c !in {a, b}
    ensures var t, u := TwoVersions(a, b, {p}, 2), TwoVersions(a, b, {p}, 1);
            IsRun([EMPTY, OneVersion(a, p), t, u, u],
                  [Deposits(p, a, {}, Added, 0), Deposits(p, b, {}, Versioned, 0),
                   Deposits(p, a, {}, Reverted, 0), Deposits(p, c, {}, Refused, 0)])
  {
    var t, u := TwoVersions(a, b, {p}, 2), TwoVersions(a, b, {p}, 1);
    TwoDeposits(p, a, b);
    assert Deposited(t, u, p, a, {}, Reverted, 0) by {
      NoTags(0);
      assert Version(0, 1, a) in t.versions;
      assert t.docs[0 := Doc(a, 1)] == u.docs;
      assert Origin(0, p) in t.origins;
    }
    assert Deposited(u, u, p, c, {}, Refused, 0) by {
      HashesOfTwo(a, b, {p}, 1, 0, c, 2);
      assert Origin(0, p) in u.origins;
    }
  }

  /** Two versions at one path, then the first content twice at another: the second deposit reverts. */
  lemma UnwantedRevertIsReached(p: Path, q: Path, a: Hash, b: Hash)
    requires a != b && p != q
    ensures IsRun([EMPTY, OneVersion(a, p), TwoVersions(a, b, {p}, 2), TwoVersions(a, b, {p, q}, 2), TwoVersions(a, b, {p, q}, 1)],
                  [Deposits(p, a, {}, Added, 0), Deposits(p, b, {}, Versioned, 0),
                   Deposits(q, a, {}, Duplicate, 0), Deposits(q, a, {}, Reverted, 0)])
  {
    var t, u, w := TwoVersions(a, b, {p}, 2), TwoVersions(a, b, {p, q}, 2), TwoVersions(a, b, {p, q}, 1);
    TwoDeposits(p, a, b);
    assert Deposited(t, u, q, a, {}, Duplicate, 0) by {
      NoTags(0);
      HashesOfTwo(a, b, {p}, 2, 0, a, 2);
      assert t.origins + {Origin(0, q)} == u.origins;
    }
    assert Deposited(u, w, q, a, {}, Reverted, 0) by {
      NoTags(0);
      assert Version(0, 1, a) in u.versions;
      assert u.docs[0 := Doc(a, 1)] == w.docs;
      assert Origin(0, q) in u.origins;
    }
  }
}
