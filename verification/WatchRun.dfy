/** One scheduled look at a watched prefix: skip what the cursor has, start a child for each
    new object or archive, advance the cursor, while other runs do the same. */
module WatchRun {
  import opened WatchStore

  datatype ObjectInfo = ObjectInfo(key: string, etag: string)

  /** How starting one child ends: the row's activity may fail before or after it commits. */
  datatype StartReply = RowFailed(committed: bool) | ChildFailed | AlreadyStarted | Running(marked: bool)

  /** The connector of this run and everything around it; `others` is what everyone else
      does to the database before this run's n-th access. */
  datatype World = World(
    setting: Setting,
    connector: int,
    sftp: bool,
    isArchive: string -> bool,
    staged: nat -> bool,
    fingerprint: nat -> string,
    reply: (bool, nat) -> StartReply,
    advanceFails: bool,
    others: (nat, Db) -> Db)

  /** Whatever the others do, they do it by the same kind of writes. */
  ghost predicate Fair(w: World) {
    forall n: nat, d: Db :: Moves(w.setting, d, w.others(n, d))
  }

  datatype WorkItem = WorkItem(remoteKey: string, etag: string)

  datatype Result = Result(listed: nat, started: nat, skipped: nat, failed: nat)

  predicate Contains(s: string, part: string) {
    exists i :: 0 <= i <= |s| && part <= s[i..]
  }

  predicate Quarantined(key: string) {
    Contains(key, "/failed/") || "failed/" <= key
  }

  /** The object lies below some directory called failed. */
  predicate BelowFailed(key: string) {
    exists i :: 0 <= i < |key| && (i == 0 || key[i - 1] == '/') && "failed/" <= key[i..]
  }

  lemma QuarantinedMeans(key: string)
    ensures Quarantined(key) <==> BelowFailed(key)
  {
    if Contains(key, "/failed/") {
      var i :| 0 <= i <= |key| && "/failed/" <= key[i..];
      SlashBefore(key, i);
    }
    if BelowFailed(key) {
      var i :| 0 <= i < |key| && (i == 0 || key[i - 1] == '/') && "failed/" <= key[i..];
      if i > 0 {
        SlashBehind(key, i);
      }
    }
    assert key[0..] == key;
    assert "failed/" <= key ==> key != "" && "failed/" <= key[0..];
  }

  lemma SlashBefore(key: string, i: nat)
    requires i <= |key| && "/failed/" <= key[i..]
    ensures i + 1 < |key| && key[i] == '/' && "failed/" <= key[i + 1..]
  {
    var part := key[i..];
    assert part[0] == "/failed/"[0] && part[1..] == key[i + 1..] && "/failed/"[1..] == "failed/";
    assert part[..8] == "/failed/";
    assert part[1..][..7] == part[..8][1..];
  }

  lemma SlashBehind(key: string, i: nat)
    requires 0 < i < |key| && key[i - 1] == '/' && "failed/" <= key[i..]
    ensures Contains(key, "/failed/")
  {
    var part := key[i..];
    assert key[i - 1..] == ['/'] + part && part[..7] == "failed/";
    assert (['/'] + part)[..8] == ['/'] + part[..7];
    assert "/failed/" == ['/'] + "failed/";
    assert "/failed/" <= key[i - 1..];
  }

  /** The etag a listed object is processed under: staging fills in a missing one. */
  function EtagOf(w: World, listing: seq<ObjectInfo>, i: nat): string
    requires i < |listing|
  {
    if w.sftp && listing[i].etag == "" then w.fingerprint(i) else listing[i].etag
  }

  function ItemVersion(w: World, item: WorkItem): Version {
    w.setting.VersionOf(w.connector, item.remoteKey, item.etag)
  }

  /** Everyone else's writes, before this run's next one. */
  method Yield(store: Database, w: World, n: nat)
    requires Fair(w) && DbOk(w.setting, store.db)
    modifies store
    ensures DbOk(w.setting, store.db) && Moves(w.setting, old(store.db), store.db)
    ensures store.db == w.others(n, old(store.db))
  {
    store.db := w.others(n, store.db);
  }

  predicate ItemsHaveRows(w: World, d: Db, items: seq<WorkItem>, upTo: nat) {
    forall i :: 0 <= i < upTo && i < |items| ==> HasRow(w.setting, d, ItemVersion(w, items[i]))
  }

  lemma ItemsKeepRows(w: World, a: Db, b: Db, items: seq<WorkItem>, upTo: nat)
    requires Moves(w.setting, a, b) && ItemsHaveRows(w, a, items, upTo)
    ensures ItemsHaveRows(w, b, items, upTo)
  {
    forall i | 0 <= i < upTo && i < |items| ensures HasRow(w.setting, b, ItemVersion(w, items[i])) {
      RowStays(w.setting, a, b, ItemVersion(w, items[i]));
    }
  }

  /** Starts one item: its row first, then the child, then the child's run id. */
  method StartItem(store: Database, w: World, item: WorkItem, archive: bool, reply: StartReply)
    returns (started: bool, skipped: bool, ok: bool)
    requires DbOk(w.setting, store.db)
    modifies store
    ensures DbOk(w.setting, store.db) && Moves(w.setting, old(store.db), store.db)
    ensures !(started && skipped) && (started || skipped ==> ok && HasRow(w.setting, store.db, ItemVersion(w, item)))
    ensures started <==> reply == Running(true)
    ensures skipped <==> reply.AlreadyStarted?
    ensures !ok <==> reply == Running(false)
    // Only a row activity that failed before it committed leaves no row.
    ensures
      if reply == RowFailed(false) then store.db == old(store.db)
      else HasRow(w.setting, store.db, ItemVersion(w, item))
  {
    started, skipped, ok := false, false, true;
    if reply == RowFailed(false) {
      return;
    }
    store.StartRow(w.setting, ItemVersion(w, item), archive);
    if reply.RowFailed? || reply.ChildFailed? {
      return;
    }
    if reply.AlreadyStarted? {
      skipped := true;
      return;
    }
    started, ok := reply.marked, reply.marked;
  }

  /** The child runs, but its run id could not be recorded: the one answer that ends a run. */
  predicate Unmarked(w: World, archive: bool, i: nat) {
    w.reply(archive, i) == Running(false)
  }

  /** Everything marked as seen so far has a row, and so has every item started without a
      failure. */
  predicate Underway(w: World, d: Db, items: seq<WorkItem>, i: nat, advanced: Cursor, failures: nat) {
    && DbOk(w.setting, d)
    && Backed(w.setting, d, w.connector, advanced)
    && (failures == 0 ==> ItemsHaveRows(w, d, items, i))
  }

  /** The item counts as seen: its child runs and is marked, or ran already. */
  predicate Seen(reply: StartReply) {
    reply == Running(true) || reply == AlreadyStarted
  }

  /** Each reply counts in one place, and the one that ends the run in none. */
  function Tallied(r: Result, reply: StartReply): Result {
    if reply == Running(true) then r.(started := r.started + 1)
    else if reply == Running(false) then r
    else if reply == AlreadyStarted then r.(skipped := r.skipped + 1)
    else r.(failed := r.failed + 1)
  }

  /** The totals and the cursor entries after the first n items. */
  function TalliedAll(r: Result, w: World, archive: bool, n: nat): Result {
    if n == 0 then r else Tallied(TalliedAll(r, w, archive, n - 1), w.reply(archive, n - 1))
  }

  function SeenAll(seen: Cursor, w: World, items: seq<WorkItem>, archive: bool, n: nat): Cursor
    requires n <= |items|
  {
    if n == 0 then seen
    else
      var before, item := SeenAll(seen, w, items, archive, n - 1), items[n - 1];
      if Seen(w.reply(archive, n - 1)) then before[item.remoteKey := item.etag] else before
  }

  /** One turn of the loop, after the others had theirs. */
  method StartNext(
    store: Database, w: World, items: seq<WorkItem>, i: nat, archive: bool, n: nat, r0: Result, advanced0: Cursor,
    ghost failures: nat
  )
    returns (r: Result, advanced: Cursor, ok: bool)
    requires i < |items| && failures <= r0.failed
    requires Fair(w) && Underway(w, store.db, items, i, advanced0, failures)
    modifies store
    ensures Moves(w.setting, old(store.db), store.db) && DbOk(w.setting, store.db)
    ensures r.listed == r0.listed && r0.failed <= r.failed
    ensures ok <==> !Unmarked(w, archive, i)
    ensures r == Tallied(r0, w.reply(archive, i))
    ensures advanced == if Seen(w.reply(archive, i)) then advanced0[items[i].remoteKey := items[i].etag] else advanced0
    ensures advanced == map[] ==> advanced0 == map[] && r.started == r0.started
    ensures r.started + r.skipped + r.failed == r0.started + r0.skipped + r0.failed + if ok then 1 else 0
    ensures ok ==> Underway(w, store.db, items, i + 1, advanced, failures + r.failed - r0.failed)
  {
    r, advanced := r0, advanced0;
    ghost var before := store.db;
    Yield(store, w, n);
    ghost var between := store.db;
    var started, skipped;
    started, skipped, ok := StartItem(store, w, items[i], archive, w.reply(archive, i));
    MovesOn(w.setting, before, between, store.db);
    Carry(w, before, store.db, items, i, advanced);
    if started || skipped {
      AddSeen(w, store.db, advanced, items[i]);
      assert items[i].remoteKey in advanced[items[i].remoteKey := items[i].etag];
      r := if started then r.(started := r.started + 1) else r.(skipped := r.skipped + 1);
      advanced := advanced[items[i].remoteKey := items[i].etag];
    } else if ok {
      r := r.(failed := r.failed + 1);
    }
  }

  /** The loop over one kind of new items. */
  method StartItems(
    store: Database, w: World, items: seq<WorkItem>, archive: bool, first: nat, r0: Result, advanced0: Cursor
  )
    returns (r: Result, advanced: Cursor, ok: bool)
    requires Fair(w) && Underway(w, store.db, items, 0, advanced0, 0)
    modifies store
    ensures Moves(w.setting, old(store.db), store.db) && DbOk(w.setting, store.db)
    ensures r.listed == r0.listed && r.failed >= r0.failed
    ensures ok <==> AllMarked(w, archive, |items|)
    ensures ok ==>
      r == TalliedAll(r0, w, archive, |items|) && advanced == SeenAll(advanced0, w, items, archive, |items|)
    ensures advanced == map[] ==> advanced0 == map[] && r.started == r0.started
    ensures r.started + r.skipped + r.failed <= r0.started + r0.skipped + r0.failed + |items|
    ensures ok ==> r.started + r.skipped + r.failed == r0.started + r0.skipped + r0.failed + |items|
    ensures ok ==> Underway(w, store.db, items, |items|, advanced, r.failed - r0.failed)
  {
    r, advanced, ok := r0, advanced0, true;
    for i := 0 to |items|
      invariant ok && Moves(w.setting, old(store.db), store.db)
      invariant SoFar(w, store.db, items, archive, i, r0, advanced0, r, advanced)
    {
      ghost var before := store.db;
      TalliesAdd(r0, advanced0, w, items, archive, i);
      r, advanced, ok := StartTurn(store, w, items, i, archive, first, r, advanced, r0, advanced0);
      MovesOn(w.setting, old(store.db), before, store.db);
      if !ok {
        return;
      }
    }
    TalliesAdd(r0, advanced0, w, items, archive, |items|);
  }

  /** The first i items are dealt with. */
  ghost predicate SoFar(
    w: World, d: Db, items: seq<WorkItem>, archive: bool, i: nat, r0: Result, advanced0: Cursor, r: Result,
    advanced: Cursor
  ) {
    && i <= |items| && AllMarked(w, archive, i)
    && r == TalliedAll(r0, w, archive, i) && advanced == SeenAll(advanced0, w, items, archive, i)
    && r.failed >= r0.failed && Underway(w, d, items, i, advanced, r.failed - r0.failed)
  }

  method StartTurn(
    store: Database, w: World, items: seq<WorkItem>, i: nat, archive: bool, first: nat, r1: Result, advanced1: Cursor,
    ghost r0: Result, ghost advanced0: Cursor
  )
    returns (r: Result, advanced: Cursor, ok: bool)
    requires Fair(w) && i < |items| && SoFar(w, store.db, items, archive, i, r0, advanced0, r1, advanced1)
    modifies store
    ensures Moves(w.setting, old(store.db), store.db) && DbOk(w.setting, store.db)
    ensures ok <==> !Unmarked(w, archive, i)
    ensures ok ==> SoFar(w, store.db, items, archive, i + 1, r0, advanced0, r, advanced)
    ensures !ok ==> r == r1 && advanced == advanced1
  {
    r, advanced, ok := StartNext(store, w, items, i, archive, first + i, r1, advanced1, r1.failed - r0.failed);
  }

  /** Each item is counted once, and nothing is started without being marked as seen. */
  lemma {:induction false} TalliesAdd(
    r0: Result, seen: Cursor, w: World, items: seq<WorkItem>, archive: bool, n: nat
  )
    requires n <= |items| && AllMarked(w, archive, n)
    ensures
      var r := TalliedAll(r0, w, archive, n);
      && r.listed == r0.listed && r.failed >= r0.failed
      && r.started + r.skipped + r.failed == r0.started + r0.skipped + r0.failed + n
    ensures SeenAll(seen, w, items, archive, n) == map[] ==>
      seen == map[] && TalliedAll(r0, w, archive, n).started == r0.started
  {
    if n > 0 {
      TalliesAdd(r0, seen, w, items, archive, n - 1);
      var item := items[n - 1];
      assert !Unmarked(w, archive, n - 1);
      assert item.remoteKey in SeenAll(seen, w, items, archive, n - 1)[item.remoteKey := item.etag];
    }
  }

  /** The first n children of a kind were all marked. */
  predicate AllMarked(w: World, archive: bool, n: nat) {
    forall i :: 0 <= i < n ==> !Unmarked(w, archive, i)
  }

  lemma Carry(w: World, a: Db, b: Db, items: seq<WorkItem>, i: nat, advanced: Cursor)
    requires Moves(w.setting, a, b) && Backed(w.setting, a, w.connector, advanced)
    ensures Backed(w.setting, b, w.connector, advanced)
    ensures ItemsHaveRows(w, a, items, i) ==> ItemsHaveRows(w, b, items, i)
  {
    BackedStays(w.setting, a, b, w.connector, advanced);
    if ItemsHaveRows(w, a, items, i) {
      ItemsKeepRows(w, a, b, items, i);
    }
  }

  lemma AddSeen(w: World, d: Db, advanced: Cursor, item: WorkItem)
    requires Backed(w.setting, d, w.connector, advanced) && HasRow(w.setting, d, ItemVersion(w, item))
    ensures Backed(w.setting, d, w.connector, advanced[item.remoteKey := item.etag])
  {
  }

  /** What became of a listed object when the listing was sorted out. */
  predicate Sorted(
    w: World, seen: Cursor, listing: seq<ObjectInfo>, i: nat, archives: seq<WorkItem>, objects: seq<WorkItem>,
    failed: nat
  )
    requires i < |listing|
  {
    var key := listing[i].key;
    || BelowFailed(key)
    || (key in seen && seen[key] == listing[i].etag)
    || (w.sftp && !w.staged(i) && failed > 0)
    || WorkItem(key, EtagOf(w, listing, i)) in if w.isArchive(key) then archives else objects
  }

  /** Nothing quarantined or already seen is ever started. */
  predicate Wanted(w: World, seen: Cursor, listing: seq<ObjectInfo>, item: WorkItem) {
    exists i :: 0 <= i < |listing| && item == WorkItem(listing[i].key, EtagOf(w, listing, i))
                && !BelowFailed(listing[i].key) && !(listing[i].key in seen && seen[listing[i].key] == listing[i].etag)
  }

  method SortListing(w: World, seen: Cursor, listing: seq<ObjectInfo>)
    returns (archives: seq<WorkItem>, objects: seq<WorkItem>, skipped: nat, failed: nat)
    ensures skipped + failed + |archives| + |objects| == |listing|
    ensures forall i :: 0 <= i < |listing| ==> Sorted(w, seen, listing, i, archives, objects, failed)
    ensures forall item :: item in archives ==> w.isArchive(item.remoteKey) && Wanted(w, seen, listing, item)
    ensures forall item :: item in objects ==> !w.isArchive(item.remoteKey) && Wanted(w, seen, listing, item)
  {
    archives, objects, skipped, failed := [], [], 0, 0;
    for i := 0 to |listing|
      invariant skipped + failed + |archives| + |objects| == i
      invariant forall j :: 0 <= j < i ==> Sorted(w, seen, listing, j, archives, objects, failed)
      invariant forall item :: item in archives ==> w.isArchive(item.remoteKey) && Wanted(w, seen, listing, item)
      invariant forall item :: item in objects ==> !w.isArchive(item.remoteKey) && Wanted(w, seen, listing, item)
    {
      var obj := listing[i];
      ghost var archives0, objects0, failed0 := archives, objects, failed;
      QuarantinedMeans(obj.key);
      if Quarantined(obj.key) || (obj.key in seen && seen[obj.key] == obj.etag) {
        skipped := skipped + 1;
        continue;
      }
      if w.sftp && !w.staged(i) {
        failed := failed + 1;
        forall j | 0 <= j < i ensures Sorted(w, seen, listing, j, archives, objects, failed) {
          assert Sorted(w, seen, listing, j, archives, objects, failed0);
        }
        continue;
      }
      var item := WorkItem(obj.key, EtagOf(w, listing, i));
      assert Wanted(w, seen, listing, item);
      if w.isArchive(obj.key) {
        archives := archives + [item];
      } else {
        objects := objects + [item];
      }
      forall j | 0 <= j < i ensures Sorted(w, seen, listing, j, archives, objects, failed) {
        assert Sorted(w, seen, listing, j, archives0, objects0, failed0);
      }
      assert item in if w.isArchive(obj.key) then archives else objects;
    }
  }

  /** Every listed object that is not quarantined has its row: nothing is missed. */
  ghost predicate AllHaveRows(w: World, d: Db, listing: seq<ObjectInfo>) {
    forall i :: 0 <= i < |listing| && !BelowFailed(listing[i].key) && (w.sftp ==> listing[i].etag != "") ==>
      HasRow(w.setting, d, w.setting.VersionOf(w.connector, listing[i].key, listing[i].etag))
  }

  lemma NothingMissed(
    w: World, loaded: Db, now: Db, seen: Cursor, listing: seq<ObjectInfo>, archives: seq<WorkItem>,
    objects: seq<WorkItem>
  )
    requires DbOk(w.setting, loaded) && Moves(w.setting, loaded, now) && Backed(w.setting, loaded, w.connector, seen)
    requires forall i :: 0 <= i < |listing| ==> Sorted(w, seen, listing, i, archives, objects, 0)
    requires ItemsHaveRows(w, now, archives, |archives|) && ItemsHaveRows(w, now, objects, |objects|)
    ensures AllHaveRows(w, now, listing)
  {
    forall i | 0 <= i < |listing| && !BelowFailed(listing[i].key) && (w.sftp ==> listing[i].etag != "")
      ensures HasRow(w.setting, now, w.setting.VersionOf(w.connector, listing[i].key, listing[i].etag))
    {
      var v := w.setting.VersionOf(w.connector, listing[i].key, listing[i].etag);
      assert Sorted(w, seen, listing, i, archives, objects, 0);
      if listing[i].key in seen && seen[listing[i].key] == listing[i].etag {
        RowStays(w.setting, loaded, now, v);
      } else {
        var item := WorkItem(listing[i].key, EtagOf(w, listing, i));
        assert ItemVersion(w, item) == v;
        var items := if w.isArchive(listing[i].key) then archives else objects;
        assert item in items;
        var j :| 0 <= j < |items| && items[j] == item;
      }
    }
  }

  /** Both loops, archives first. */
  method StartAll(store: Database, w: World, archives: seq<WorkItem>, objects: seq<WorkItem>, r0: Result)
    returns (r: Result, advanced: Cursor, ok: bool)
    requires Fair(w) && DbOk(w.setting, store.db)
    modifies store
    ensures DbOk(w.setting, store.db) && Moves(w.setting, old(store.db), store.db)
    ensures r.listed == r0.listed && r.failed >= r0.failed
    ensures ok <==> AllMarked(w, true, |archives|) && AllMarked(w, false, |objects|)
    ensures ok ==>
      && r == TalliedAll(TalliedAll(r0, w, true, |archives|), w, false, |objects|)
      && advanced == SeenAll(SeenAll(map[], w, archives, true, |archives|), w, objects, false, |objects|)
    ensures advanced == map[] ==> r.started == r0.started
    ensures r.started + r.skipped + r.failed <= r0.started + r0.skipped + r0.failed + |archives| + |objects|
    ensures ok ==> r.started + r.skipped + r.failed == r0.started + r0.skipped + r0.failed + |archives| + |objects|
    ensures ok ==> Backed(w.setting, store.db, w.connector, advanced)
    ensures ok && r.failed == r0.failed ==>
      ItemsHaveRows(w, store.db, archives, |archives|) && ItemsHaveRows(w, store.db, objects, |objects|)
  {
    r, advanced, ok := StartItems(store, w, archives, true, 1, r0, map[]);
    if !ok {
      return;
    }
    ghost var between, failures := store.db, r.failed;
    r, advanced, ok := StartItems(store, w, objects, false, 1 + |archives|, r, advanced);
    MovesOn(w.setting, old(store.db), between, store.db);
    if ok && r.failed == r0.failed {
      ItemsKeepRows(w, between, store.db, archives, |archives|);
    }
  }

  /** The cursor moves on last, and only if something was started or found started. */
  method Advance(store: Database, w: World, n: nat, advanced: Cursor) returns (ok: bool)
    requires Fair(w) && DbOk(w.setting, store.db) && Backed(w.setting, store.db, w.connector, advanced)
    modifies store
    ensures DbOk(w.setting, store.db) && Moves(w.setting, old(store.db), store.db)
    ensures ok <==> advanced == map[] || !w.advanceFails
    ensures ok && advanced != map[] ==> |CursorOf(store.db, w.connector)| <= MAX_CURSOR_ENTRIES
  {
    ok := true;
    if advanced == map[] {
      return;
    }
    if w.advanceFails {
      return false;
    }
    Yield(store, w, n);
    ghost var between := store.db;
    BackedStays(w.setting, old(store.db), store.db, w.connector, advanced);
    store.AdvanceConnectorCursor(w.setting, w.connector, advanced);
    MovesOn(w.setting, old(store.db), between, store.db);
  }

  /** One WatchPrefixWorkflow, with any failures at any point and any other runs in between.
      The shared invariants survive; every listed object is accounted for; and when nothing
      failed, every one of them has its job or batch. */
  method WatchPrefix(store: Database, w: World, listing: seq<ObjectInfo>) returns (r: Result, ok: bool)
    requires Fair(w) && DbOk(w.setting, store.db)
    modifies store
    ensures DbOk(w.setting, store.db) && Moves(w.setting, old(store.db), store.db)
    // It fails only when a child's run id or the cursor could not be written.
    ensures !ok ==> w.advanceFails || exists archive, i: nat :: i < |listing| && Unmarked(w, archive, i)
    ensures ok && w.advanceFails ==> r.started == 0
    ensures r.started + r.skipped + r.failed <= r.listed == |listing|
    ensures ok ==> r.started + r.skipped + r.failed == r.listed
    ensures ok && r.failed == 0 ==> AllHaveRows(w, store.db, listing)
  {
    Yield(store, w, 0);
    ghost var loaded := store.db;
    var seen := CursorOf(store.db, w.connector);
    var archives, objects, skipped, failed := SortListing(w, seen, listing);
    var advanced;
    r, advanced, ok := StartAll(store, w, archives, objects, Result(|listing|, 0, skipped, failed));
    ghost var started := store.db;
    MovesOn(w.setting, old(store.db), loaded, started);
    if !ok {
      return;
    }
    ok := Advance(store, w, 1 + |archives| + |objects|, advanced);
    MovesOn(w.setting, old(store.db), started, store.db);
    if r.failed == 0 {
      ItemsKeepRows(w, started, store.db, archives, |archives|);
      ItemsKeepRows(w, started, store.db, objects, |objects|);
      MovesOn(w.setting, loaded, started, store.db);
      NothingMissed(w, loaded, store.db, seen, listing, archives, objects);
    }
  }
}
