/** What watched-object runs share: job and batch rows keyed by workflow id, and the
    connectors' cursors. */
module WatchStore {
  import opened Paging

  /** One version of one stored object. */
  datatype Version = Version(org: int, bucket: string, key: string, etag: string)

  datatype WorkflowId = WorkflowId(org: int, digest: string)

  datatype Row = Row(version: Version, workflowId: WorkflowId)

  type Table = map<nat, Row>

  type Cursor = map<string, string>

  datatype Db = Db(jobs: Table, batches: Table, nextId: nat, cursors: map<int, Cursor>)

  /** Where a watched connector's objects are processed from: the object itself, or its
      staged copy. The digest is that of the text after the organisation. */
  datatype Setting = Setting(digest: (int, string) -> string, org: int -> int, place: (int, string) -> (string, string))
  {
    function VersionOf(connector: int, remoteKey: string, etag: string): Version {
      Version(org(connector), place(connector, remoteKey).0, place(connector, remoteKey).1, etag)
    }

    function IdOf(v: Version): WorkflowId {
      WorkflowId(v.org, digest(v.org, Ident(v)))
    }
  }

  /** The text that is hashed, after the organisation. */
  function Ident(v: Version): string {
    v.bucket + "|" + v.key + "|" + v.etag
  }

  const MAX_CURSOR_ENTRIES := 10_000

  // ----- invariants --------------------------------------------------------------------------

  predicate HasId(table: Table, id: WorkflowId) {
    exists k :: k in table && table[k].workflowId == id
  }

  /** The table's unique column, and ids handed out so far. */
  predicate TableOk(s: Setting, table: Table, nextId: nat) {
    && (forall i, j :: i in table && j in table && table[i].workflowId == table[j].workflowId ==> i == j)
    && (forall i :: i in table ==> i < nextId && table[i].workflowId == s.IdOf(table[i].version))
  }

  predicate HasRow(s: Setting, d: Db, v: Version) {
    HasId(d.jobs, s.IdOf(v)) || HasId(d.batches, s.IdOf(v))
  }

  /** Every entry names a version that has a row. */
  predicate Backed(s: Setting, d: Db, connector: int, seen: Cursor) {
    forall k :: k in seen ==> HasRow(s, d, s.VersionOf(connector, k, seen[k]))
  }

  predicate DbOk(s: Setting, d: Db) {
    && TableOk(s, d.jobs, d.nextId) && TableOk(s, d.batches, d.nextId)
    && forall c :: c in d.cursors ==> Backed(s, d, c, d.cursors[c])
  }

  /** Rows are only added. */
  predicate TableGrows(a: Table, b: Table) {
    forall k :: k in a ==> k in b && b[k] == a[k]
  }

  /** What any one write does, whoever makes it. */
  predicate Moves(s: Setting, a: Db, b: Db) {
    TableGrows(a.jobs, b.jobs) && TableGrows(a.batches, b.batches) && (DbOk(s, a) ==> DbOk(s, b))
  }

  lemma MovesOn(s: Setting, a: Db, b: Db, c: Db)
    requires Moves(s, a, b) && Moves(s, b, c)
    ensures Moves(s, a, c)
  {
  }

  lemma IdStays(a: Table, b: Table, id: WorkflowId)
    requires TableGrows(a, b) && HasId(a, id)
    ensures HasId(b, id)
  {
    var k :| k in a && a[k].workflowId == id;
    assert k in b && b[k].workflowId == id;
  }

  lemma RowStays(s: Setting, a: Db, b: Db, v: Version)
    requires Moves(s, a, b) && HasRow(s, a, v)
    ensures HasRow(s, b, v)
  {
    if HasId(a.jobs, s.IdOf(v)) {
      IdStays(a.jobs, b.jobs, s.IdOf(v));
    } else {
      IdStays(a.batches, b.batches, s.IdOf(v));
    }
  }

  lemma BackedStays(s: Setting, a: Db, b: Db, connector: int, seen: Cursor)
    requires TableGrows(a.jobs, b.jobs) && TableGrows(a.batches, b.batches) && Backed(s, a, connector, seen)
    ensures Backed(s, b, connector, seen)
  {
    forall k | k in seen ensures HasRow(s, b, s.VersionOf(connector, k, seen[k])) {
      var id := s.IdOf(s.VersionOf(connector, k, seen[k]));
      if HasId(a.jobs, id) {
        IdStays(a.jobs, b.jobs, id);
      } else {
        IdStays(a.batches, b.batches, id);
      }
    }
  }

  /** At most one row per version, in either table. */
  lemma OneRowPerVersion(s: Setting, d: Db, i: nat, j: nat)
    requires DbOk(s, d)
    ensures i in d.jobs && j in d.jobs && d.jobs[i].version == d.jobs[j].version ==> i == j
    ensures i in d.batches && j in d.batches && d.batches[i].version == d.batches[j].version ==> i == j
  {
  }

  /** No separator where it would be ambiguous. */
  predicate Clean(v: Version) {
    '|' !in v.bucket && '|' !in v.etag
  }

  lemma SplitFirst(a: string, b: string, x: string, y: string)
    requires '|' !in a && '|' !in b && a + "|" + x == b + "|" + y
    ensures a == b && x == y
  {
    var l, r := a + "|" + x, b + "|" + y;
    assert l[|a|] == '|' && r[|b|] == '|';
    assert forall i :: 0 <= i < |a| ==> l[i] == a[i] && l[i] != '|';
    assert forall i :: 0 <= i < |b| ==> r[i] == b[i] && r[i] != '|';
    assert |a| == |b|;
    assert l[..|a|] == a && r[..|b|] == b && l[|a| + 1..] == x && r[|b| + 1..] == y;
  }

  lemma SplitLast(a: string, b: string, x: string, y: string)
    requires '|' !in x && '|' !in y && a + "|" + x == b + "|" + y
    ensures a == b && x == y
  {
    var l, r := a + "|" + x, b + "|" + y;
    assert l[|a|] == '|' && r[|b|] == '|' && |l| == |r|;
    assert forall i :: |a| < i < |l| ==> l[i] == x[i - |a| - 1] && l[i] != '|';
    assert forall i :: |b| < i < |r| ==> r[i] == y[i - |b| - 1] && r[i] != '|';
    assert |a| == |b|;
    assert l[..|a|] == a && r[..|b|] == b && l[|a| + 1..] == x && r[|b| + 1..] == y;
  }

  /** With an injective digest, a workflow id belongs to one clean version only. */
  lemma IdIsVersion(s: Setting, v: Version, w: Version)
    requires forall o, a, b :: s.digest(o, a) == s.digest(o, b) ==> a == b
    requires Clean(v) && Clean(w) && s.IdOf(v) == s.IdOf(w)
    ensures v == w
  {
    assert Ident(v) == Ident(w);
    assert Ident(v) == v.bucket + "|" + (v.key + "|" + v.etag) && Ident(w) == w.bucket + "|" + (w.key + "|" + w.etag);
    SplitFirst(v.bucket, w.bucket, v.key + "|" + v.etag, w.key + "|" + w.etag);
    SplitLast(v.key, w.key, v.etag, w.etag);
  }

  function Bars(text: string): nat {
    if text == "" then 0 else (if text[0] == '|' then 1 else 0) + Bars(text[1..])
  }

  lemma {:induction false} BarsConcat(a: string, b: string)
    ensures Bars(a + b) == Bars(a) + Bars(b)
  {
    if a == "" {
      assert a + b == b;
    } else {
      assert (a + b)[1..] == a[1..] + b;
      BarsConcat(a[1..], b);
    }
  }

  lemma {:induction false} BarsNone(text: string)
    ensures Bars(text) == 0 <==> '|' !in text
  {
    if text != "" {
      BarsNone(text[1..]);
      assert text == [text[0]] + text[1..];
    }
  }

  lemma IdentBars(v: Version)
    ensures Bars(Ident(v)) == Bars(v.bucket) + Bars(v.key) + Bars(v.etag) + 2
  {
    assert Bars("|") == 1 by {
      assert "|"[1..] == "";
    }
    BarsConcat(v.bucket, "|");
    BarsConcat(v.bucket + "|", v.key);
    BarsConcat(v.bucket + "|" + v.key, "|");
    BarsConcat(v.bucket + "|" + v.key + "|", v.etag);
  }

  /** No separator anywhere in the version. */
  predicate Plain(v: Version) {
    '|' !in v.bucket && '|' !in v.key && '|' !in v.etag
  }

  lemma IdentOfPlain(v: Version, w: Version)
    requires Plain(v) && Ident(v) == Ident(w)
    ensures Plain(w)
  {
    IdentBars(v);
    IdentBars(w);
    BarsNone(v.bucket);
    BarsNone(v.key);
    BarsNone(v.etag);
    BarsNone(w.bucket);
    BarsNone(w.key);
    BarsNone(w.etag);
  }

  lemma CutAtBar(text: string) returns (before: string, after: string)
    requires '|' in text
    ensures text == before + "|" + after
  {
    var i :| 0 <= i < |text| && text[i] == '|';
    before, after := text[..i], text[i + 1..];
  }

  /** A separator in any part makes the hashed text ambiguous: another version, cut at that
      separator, has the same workflow id. */
  lemma SeparatorsCollide(s: Setting, v: Version) returns (w: Version)
    requires !Plain(v)
    ensures w != v && s.IdOf(w) == s.IdOf(v)
  {
    if '|' in v.bucket {
      var a, b := CutAtBar(v.bucket);
      w := Version(v.org, a, b + "|" + v.key, v.etag);
      assert |w.bucket| < |v.bucket|;
      assert Ident(w) == Ident(v);
    } else if '|' in v.key {
      var a, b := CutAtBar(v.key);
      w := Version(v.org, v.bucket + "|" + a, b, v.etag);
      assert |w.bucket| > |v.bucket|;
      assert Ident(w) == Ident(v);
    } else {
      var a, b := CutAtBar(v.etag);
      w := Version(v.org, v.bucket, v.key + "|" + a, b);
      assert |w.key| > |v.key|;
      assert Ident(w) == Ident(v);
    }
  }

  /** With an injective digest, a workflow id belongs to one version alone exactly when that
      version holds no separator. */
  lemma IdIsUniqueIff(s: Setting, v: Version)
    requires forall o, a, b :: s.digest(o, a) == s.digest(o, b) ==> a == b
    ensures (forall w :: s.IdOf(w) == s.IdOf(v) ==> w == v) <==> Plain(v)
  {
    if Plain(v) {
      forall w | s.IdOf(w) == s.IdOf(v) ensures w == v {
        IdentOfPlain(v, w);
        IdIsVersion(s, v, w);
      }
    } else {
      var w := SeparatorsCollide(s, v);
    }
  }

  // ----- what the connectors deliver ------------------------------------------------------------

  function Decimal(n: int): string
    decreases if n < 0 then 1 - n else n
  {
    if n < 0 then "-" + Decimal(-n)
    else if n < 10 then [('0' as int + n) as char]
    else Decimal(n / 10) + [('0' as int + n % 10) as char]
  }

  /** The cursor token of an SFTP file, from its modification time and size. */
  function SftpFingerprint(modified: int, size: int): string {
    Decimal(modified) + ":" + Decimal(size)
  }

  lemma {:induction false} DecimalDigits(n: int)
    ensures forall i :: 0 <= i < |Decimal(n)| ==> Decimal(n)[i] == '-' || '0' <= Decimal(n)[i] <= '9'
    decreases if n < 0 then 1 - n else n
  {
    if n < 0 {
      DecimalDigits(-n);
    } else if n >= 10 {
      DecimalDigits(n / 10);
    }
  }

  /** Bucket names are letters, digits, dots and dashes; etags are an object store's
      hexadecimal ones or SFTP fingerprints. Keys are anything. */
  ghost predicate Listed(v: Version) {
    && (forall i :: 0 <= i < |v.bucket| ==> v.bucket[i] in "abcdefghijklmnopqrstuvwxyz0123456789.-")
    && ((forall i :: 0 <= i < |v.etag| ==> v.etag[i] in "0123456789abcdefABCDEF-")
        || exists modified, size :: v.etag == SftpFingerprint(modified, size))
  }

  /** On the connectors' own versions the id never fails: it tells any two of them apart. */
  lemma ListedVersionsStayApart(s: Setting, v: Version, w: Version)
    requires forall o, a, b :: s.digest(o, a) == s.digest(o, b) ==> a == b
    requires Listed(v) && Listed(w) && s.IdOf(v) == s.IdOf(w)
    ensures v == w
  {
    ListedIsClean(v);
    ListedIsClean(w);
    IdIsVersion(s, v, w);
  }

  lemma FingerprintHasNoBar(modified: int, size: int)
    ensures '|' !in SftpFingerprint(modified, size)
  {
    DecimalDigits(modified);
    DecimalDigits(size);
    assert '|' !in Decimal(modified) && '|' !in Decimal(size);
  }

  lemma NoBarIn(text: string, letters: string)
    requires '|' !in letters && forall i :: 0 <= i < |text| ==> text[i] in letters
    ensures '|' !in text
  {
  }

  lemma ListedIsClean(v: Version)
    requires Listed(v)
    ensures Clean(v)
  {
    NoBarIn(v.bucket, "abcdefghijklmnopqrstuvwxyz0123456789.-");
    if modified, size :| v.etag == SftpFingerprint(modified, size) {
      FingerprintHasNoBar(modified, size);
    } else {
      NoBarIn(v.etag, "0123456789abcdefABCDEF-");
    }
  }

  /** So every clean version in a cursor has a row of its own: its job or its batch. */
  lemma CursorHasRows(s: Setting, d: Db, connector: int, key: string)
    requires DbOk(s, d) && (forall o, a, b :: s.digest(o, a) == s.digest(o, b) ==> a == b)
    requires connector in d.cursors && key in d.cursors[connector]
    requires Clean(s.VersionOf(connector, key, d.cursors[connector][key]))
    requires forall k :: k in d.jobs ==> Clean(d.jobs[k].version)
    requires forall k :: k in d.batches ==> Clean(d.batches[k].version)
    ensures
      var v := s.VersionOf(connector, key, d.cursors[connector][key]);
      (exists k :: k in d.jobs && d.jobs[k].version == v) || (exists k :: k in d.batches && d.batches[k].version == v)
  {
    var v := s.VersionOf(connector, key, d.cursors[connector][key]);
    assert Backed(s, d, connector, d.cursors[connector]) && HasRow(s, d, v);
    if HasId(d.jobs, s.IdOf(v)) {
      var k :| k in d.jobs && d.jobs[k].workflowId == s.IdOf(v);
      IdIsVersion(s, d.jobs[k].version, v);
    } else {
      var k :| k in d.batches && d.batches[k].workflowId == s.IdOf(v);
      IdIsVersion(s, d.batches[k].version, v);
    }
  }

  // ----- writes --------------------------------------------------------------------------------

  /** Byte order of keys. */
  predicate Less(a: string, b: string) {
    if b == "" then false
    else if a == "" then true
    else a[0] < b[0] || (a[0] == b[0] && Less(a[1..], b[1..]))
  }

  lemma {:induction false} LessTotal(a: string, b: string)
    ensures Less(a, b) || a == b || Less(b, a)
    ensures !(Less(a, b) && Less(b, a)) && (a == b ==> !Less(a, b))
  {
    if a != "" && b != "" {
      LessTotal(a[1..], b[1..]);
      if a[0] == b[0] && a[1..] == b[1..] {
        assert a == [a[0]] + a[1..] && b == [b[0]] + b[1..];
      }
    }
  }

  lemma {:induction false} LessTransitive(a: string, b: string, c: string)
    requires Less(a, b) && Less(b, c)
    ensures Less(a, c)
  {
    if a != "" && b != "" && c != "" && a[0] == b[0] == c[0] {
      LessTransitive(a[1..], b[1..], c[1..]);
    }
  }

  method FirstKey(keys: set<string>) returns (first: string)
    requires keys != {}
    ensures first in keys && forall k :: k in keys && k != first ==> Less(first, k)
  {
    first := Pick(keys);
    var rest := keys - {first};
    while rest != {}
      invariant rest <= keys && first in keys
      invariant forall k :: k in keys && k !in rest && k != first ==> Less(first, k)
      decreases rest
    {
      var k := Pick(rest);
      LessTotal(first, k);
      if Less(k, first) {
        forall j | j in keys && j !in rest && j != first ensures Less(k, j) {
          LessTransitive(k, first, j);
        }
        first := k;
      }
      rest := rest - {k};
    }
  }

  /** The entries that survive: as many as fit, those with the largest keys. */
  predicate Evicted(all: Cursor, kept: Cursor, max: nat) {
    && kept.Keys <= all.Keys && (forall k :: k in kept ==> kept[k] == all[k])
    && |kept| == (if |all| <= max then |all| else max)
    && forall j, k :: j in all && j !in kept && k in kept ==> Less(j, k)
  }

  method Evict(all: Cursor, max: nat) returns (kept: Cursor)
    ensures Evicted(all, kept, max)
  {
    kept := all;
    while |kept| > max
      invariant kept.Keys <= all.Keys && (forall k :: k in kept ==> kept[k] == all[k])
      invariant |all| <= max ==> kept == all
      invariant |all| > max ==> |kept| >= max
      invariant forall j, k :: j in all && j !in kept && k in kept ==> Less(j, k)
      decreases |kept|
    {
      assert kept.Keys != {} by {
        assert |kept.Keys| == |kept|;
      }
      var first := FirstKey(kept.Keys);
      var next := kept - {first};
      assert next.Keys == kept.Keys - {first};
      kept := next;
    }
    if |all| <= max {
      assert kept == all;
    }
  }

  /** INSERT ... ON CONFLICT (temporal_workflow_id) DO NOTHING. */
  function Inserted(s: Setting, table: Table, v: Version, nextId: nat): Table {
    if HasId(table, s.IdOf(v)) then table else table[nextId := Row(v, s.IdOf(v))]
  }

  function WithRow(s: Setting, d: Db, v: Version, archive: bool): Db {
    if archive then d.(batches := Inserted(s, d.batches, v, d.nextId), nextId := d.nextId + 1)
    else d.(jobs := Inserted(s, d.jobs, v, d.nextId), nextId := d.nextId + 1)
  }

  lemma InsertKeeps(s: Setting, table: Table, v: Version, nextId: nat)
    requires TableOk(s, table, nextId)
    ensures TableOk(s, Inserted(s, table, v, nextId), nextId + 1) && TableGrows(table, Inserted(s, table, v, nextId))
    ensures HasId(Inserted(s, table, v, nextId), s.IdOf(v))
  {
    if !HasId(table, s.IdOf(v)) {
      assert Inserted(s, table, v, nextId)[nextId].workflowId == s.IdOf(v);
    }
  }

  lemma WithRowMoves(s: Setting, d: Db, v: Version, archive: bool)
    requires DbOk(s, d)
    ensures Moves(s, d, WithRow(s, d, v, archive)) && DbOk(s, WithRow(s, d, v, archive))
    ensures HasRow(s, WithRow(s, d, v, archive), v)
  {
    var e := WithRow(s, d, v, archive);
    InsertKeeps(s, if archive then d.batches else d.jobs, v, d.nextId);
    forall c | c in e.cursors ensures Backed(s, e, c, e.cursors[c]) {
      BackedStays(s, d, e, c, d.cursors[c]);
    }
  }

  function CursorOf(d: Db, connector: int): Cursor {
    if connector in d.cursors then d.cursors[connector] else map[]
  }

  lemma CursorMoves(s: Setting, d: Db, connector: int, seen: Cursor, kept: Cursor)
    requires DbOk(s, d) && Backed(s, d, connector, seen)
    requires kept.Keys <= CursorOf(d, connector).Keys + seen.Keys
    requires forall k :: k in kept ==> kept[k] == (CursorOf(d, connector) + seen)[k]
    ensures
      Moves(s, d, d.(cursors := d.cursors[connector := kept])) && DbOk(s, d.(cursors := d.cursors[connector := kept]))
  {
    var e := d.(cursors := d.cursors[connector := kept]);
    forall c | c in e.cursors ensures Backed(s, e, c, e.cursors[c]) {
      if c != connector {
        assert Backed(s, d, c, d.cursors[c]);
        BackedStays(s, d, e, c, d.cursors[c]);
      } else {
        forall k | k in kept ensures HasRow(s, e, s.VersionOf(c, k, kept[k])) {
          assert Backed(s, d, c, CursorOf(d, c));
          assert HasRow(s, d, s.VersionOf(c, k, kept[k]));
        }
      }
    }
  }

  /** The database, written by one transaction at a time. */
  class Database {
    var db: Db

    constructor (db: Db)
      ensures this.db == db
    {
      this.db := db;
    }

    /** StartWatchObjectJob and StartBatch: a row for the version, unless it has one. */
    method StartRow(s: Setting, v: Version, archive: bool)
      requires DbOk(s, db)
      modifies this
      ensures db == WithRow(s, old(db), v, archive)
      ensures DbOk(s, db) && Moves(s, old(db), db) && HasRow(s, db, v)
    {
      WithRowMoves(s, db, v, archive);
      var table := if archive then db.batches else db.jobs;
      if !HasId(table, s.IdOf(v)) {
        table := table[db.nextId := Row(v, s.IdOf(v))];
      }
      db :=
        if archive then db.(batches := table, nextId := db.nextId + 1) else db.(jobs := table, nextId := db.nextId + 1);
    }

    /** AdvanceConnectorCursor: merges what was seen and evicts the smallest keys. */
    method AdvanceConnectorCursor(s: Setting, connector: int, seen: Cursor)
      requires DbOk(s, db) && Backed(s, db, connector, seen)
      modifies this
      ensures DbOk(s, db) && Moves(s, old(db), db)
      ensures db.jobs == old(db).jobs && db.batches == old(db).batches
      ensures seen == map[] ==> db == old(db)
      ensures seen != map[] ==>
        connector in db.cursors && |db.cursors[connector]| <= MAX_CURSOR_ENTRIES
        && Evicted(CursorOf(old(db), connector) + seen, db.cursors[connector], MAX_CURSOR_ENTRIES)
        && db.cursors == old(db).cursors[connector := db.cursors[connector]]
    {
      if seen == map[] {
        return;
      }
      var kept := Evict(CursorOf(db, connector) + seen, MAX_CURSOR_ENTRIES);
      CursorMoves(s, db, connector, seen, kept);
      db := db.(cursors := db.cursors[connector := kept]);
    }
  }
}
