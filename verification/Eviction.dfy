/** The eviction pass (`infra/eviction.py`) over the stored files' table, with the batched delete
    it uses (`FileStore.delete_many`).

    The table is a sequence in the order `ORDER BY last_accessed_at` puts it in, ties included. */
module Eviction {
  import opened Options
  import opened Tables

  datatype Entry = Entry(id: FileId, size: nat, createdAt: int, lastAccessedAt: int, pinned: bool)

  type Table = seq<Entry>

  const DELETE_CHUNK := 400

  predicate Distinct(t: Table) {
    forall i, j :: 0 <= i < j < |t| ==> t[i].id != t[j].id
  }

  predicate Oldest(t: Table) {
    forall i, j :: 0 <= i < j < |t| ==> t[i].lastAccessedAt <= t[j].lastAccessedAt
  }

  function Total(t: Table): (n: nat)
  {
    if t == [] then 0 else t[0].size + Total(t[1..])
  }

  function Ids(t: Table): set<FileId> {
    set e | e in t :: e.id
  }

  function IdList(t: Table): (r: seq<FileId>)
    ensures |r| == |t| && forall k :: 0 <= k < |r| ==> r[k] == t[k].id
  {
    seq(|t|, k requires 0 <= k < |t| => t[k].id)
  }

  function Without(t: Table, ids: set<FileId>): Table {
    if t == [] then [] else (if t[0].id in ids then [] else [t[0]]) + Without(t[1..], ids)
  }

  function Only(t: Table, ids: set<FileId>): Table {
    if t == [] then [] else (if t[0].id in ids then [t[0]] else []) + Only(t[1..], ids)
  }

  function Unpinned(t: Table): Table {
    if t == [] then [] else (if t[0].pinned then [] else [t[0]]) + Unpinned(t[1..])
  }

  predicate Expired(e: Entry, cutoff: int) {
    !e.pinned && e.createdAt < cutoff
  }

  function ExpiredOf(t: Table, cutoff: int): Table {
    if t == [] then [] else (if Expired(t[0], cutoff) then [t[0]] else []) + ExpiredOf(t[1..], cutoff)
  }

  function AfterTtl(t: Table, cutoff: int): Table {
    if t == [] then [] else (if Expired(t[0], cutoff) then [] else [t[0]]) + AfterTtl(t[1..], cutoff)
  }

  /** The table without its first `k` unpinned files. */
  function Drop(t: Table, k: nat): Table {
    if t == [] || k == 0 then t
    else if t[0].pinned then [t[0]] + Drop(t[1..], k)
    else Drop(t[1..], k - 1)
  }

  /** One scan over all unpinned files, oldest first: how many must go. */
  function Victims(files: Table, total: int, cap: int): (k: nat)
    ensures k <= |files|
  {
    if files == [] || total <= cap then 0 else 1 + Victims(files[1..], total - files[0].size, cap)
  }

  function Swept(t: Table, cap: int): Table {
    Drop(t, Victims(Unpinned(t), Total(t), cap))
  }

  function AsSet(ids: seq<FileId>): set<FileId> {
    set x | x in ids
  }

  // ----- Tables with files taken out -----

  lemma {:induction false} WithoutIds(t: Table, ids: set<FileId>)
    ensures Ids(Without(t, ids)) == Ids(t) - ids
    decreases |t|
  {
    if t != [] {
      WithoutIds(t[1..], ids);
      assert t == [t[0]] + t[1..];
      assert Ids(t) == {t[0].id} + Ids(t[1..]);
      var rest := Without(t[1..], ids);
      assert Ids([t[0]] + rest) == {t[0].id} + Ids(rest);
      assert [] + rest == rest;
    }
  }

  lemma {:induction false} WithoutNothing(t: Table, ids: set<FileId>)
    requires Only(t, ids) == [] || ids == {}
    ensures Without(t, ids) == t
    decreases |t|
  {
    if t != [] {
      WithoutNothing(t[1..], ids);
    }
  }

  lemma {:induction false} WithoutTwice(t: Table, a: set<FileId>, b: set<FileId>)
    ensures Without(Without(t, a), b) == Without(t, a + b)
    decreases |t|
  {
    if t != [] {
      WithoutTwice(t[1..], a, b);
      var rest := Without(t[1..], a);
      if t[0].id in a {
        assert Without(t, a) == rest;
      } else {
        assert Without(t, a) == [t[0]] + rest && ([t[0]] + rest)[1..] == rest;
      }
    }
  }

  lemma {:induction false} OnlyOrWithout(t: Table, ids: set<FileId>)
    ensures |Only(t, ids)| + |Without(t, ids)| == |t|
    decreases |t|
  {
    if t != [] {
      OnlyOrWithout(t[1..], ids);
    }
  }

  lemma {:induction false} OnlyIds(t: Table, ids: set<FileId>)
    ensures Ids(Only(t, ids)) == Ids(t) * ids
    decreases |t|
  {
    if t != [] {
      OnlyIds(t[1..], ids);
      IdsCons(t[0], t[1..]);
      IdsCons(t[0], Only(t[1..], ids));
      assert t == [t[0]] + t[1..];
      assert [] + Only(t[1..], ids) == Only(t[1..], ids);
      hide Ids;
    }
  }

  lemma IdsCons(e: Entry, t: Table)
    ensures Ids([e] + t) == {e.id} + Ids(t)
  {
  }

  /** One chunk of a batched delete, after those before it. */
  lemma ChunkStep(t: Table, before: set<FileId>, chunk: set<FileId>, disk: set<FileId>)
    ensures var now := Without(t, before);
            && Without(now, chunk) == Without(t, before + chunk)
            && |Only(now, chunk)| == |now| - |Without(now, chunk)|
            && disk - (Ids(t) * before) - Ids(Only(now, chunk)) == disk - (Ids(t) * (before + chunk))
            && (Only(now, chunk) == [] ==> Without(now, chunk) == now
                                           && disk - (Ids(t) * before) == disk - (Ids(t) * (before + chunk)))
  {
    var now := Without(t, before);
    WithoutTwice(t, before, chunk);
    OnlyOrWithout(now, chunk);
    OnlyIds(now, chunk);
    WithoutIds(t, before);
    if Only(now, chunk) == [] {
      WithoutNothing(now, chunk);
    }
    hide Without, Only;
  }

  class FileStore {
    var table: Table
    var disk: set<FileId>

    constructor (table: Table, disk: set<FileId>)
      ensures this.table == table && this.disk == disk
    {
      this.table, this.disk := table, disk;
    }

    /** `delete_many`, a chunk of ids at a time. */
    method DeleteMany(ids: seq<FileId>) returns (removed: nat)
      requires Distinct(table)
      modifies this
      ensures table == Without(old(table), AsSet(ids))
      ensures disk == old(disk) - (Ids(old(table)) * AsSet(ids))
      ensures removed == |old(table)| - |table|
    {
      removed := 0;
      var start := 0;
      WithoutNothing(table, {});
      assert AsSet(ids[..0]) == {};
      while start < |ids|
        invariant start <= |ids|
        invariant table == Without(old(table), AsSet(ids[..start]))
        invariant disk == old(disk) - (Ids(old(table)) * AsSet(ids[..start]))
        invariant removed == |old(table)| - |table|
      {
        var end := if start + DELETE_CHUNK < |ids| then start + DELETE_CHUNK else |ids|;
        var chunk := AsSet(ids[start..end]);
        assert ids[..end] == ids[..start] + ids[start..end];
        assert AsSet(ids[..end]) == AsSet(ids[..start]) + chunk;
        ChunkStep(old(table), AsSet(ids[..start]), chunk, old(disk));
        hide Without, Only, Ids, AsSet;
        var rows := Only(table, chunk);
        start := end;
        if rows == [] {
          continue;
        }
        table := Without(table, chunk);
        disk := disk - Ids(rows);
        removed := removed + |rows|;
      }
      assert ids[..|ids|] == ids;
    }

    method TotalByteSize() returns (total: nat)
      ensures total == Total(table)
    {
      total := 0;
      for i := 0 to |table|
        invariant total + Total(table[i..]) == Total(table)
      {
        total := total + table[i].size;
        assert table[i..][0] == table[i] && table[i..][1..] == table[i + 1..];
      }
    }
  }

  lemma {:induction false} UnpinnedIn(t: Table, e: Entry)
    ensures e in Unpinned(t) <==> e in t && !e.pinned
    decreases |t|
  {
    if t != [] {
      UnpinnedIn(t[1..], e);
    }
  }

  lemma DistinctTail(t: Table)
    requires Distinct(t) && t != []
    ensures Distinct(t[1..]) && t[0].id !in Ids(t[1..])
  {
  }

  /** Taking out ids the table does not have changes nothing. */
  lemma {:induction false} WithoutAbsent(t: Table, ids: set<FileId>, id: FileId)
    requires id !in Ids(t)
    ensures Without(t, ids + {id}) == Without(t, ids)
    decreases |t|
  {
    if t != [] {
      assert t[0] in t;
      TailIds(t);
      WithoutAbsent(t[1..], ids, id);
    }
  }

  function Front(files: Table, k: nat): set<FileId>
    requires k <= |files|
  {
    AsSet(IdList(files[..k]))
  }

  lemma FrontIs(files: Table, k: nat)
    requires 0 < k <= |files|
    ensures Front(files, k) == Front(files[1..], k - 1) + {files[0].id}
  {
    var all, rest := IdList(files[..k]), IdList(files[1..][..k - 1]);
    assert files[..k] == [files[0]] + files[1..][..k - 1];
    assert all == [files[0].id] + rest;
  }

  lemma {:induction false} DropIsWithout(t: Table, k: nat)
    requires Distinct(t) && k <= |Unpinned(t)|
    ensures Without(t, Front(Unpinned(t), k)) == Drop(t, k)
    decreases |t|
  {
    var files := Unpinned(t);
    if k == 0 {
      assert Front(files, 0) == {};
      WithoutNothing(t, {});
    } else if t != [] {
      DistinctTail(t);
      if t[0].pinned {
        assert files == Unpinned(t[1..]);
        DropIsWithout(t[1..], k);
        NotInFront(t, k);
      } else {
        assert files[1..] == Unpinned(t[1..]);
        FrontIs(files, k);
        DropIsWithout(t[1..], k - 1);
        WithoutAbsent(t[1..], Front(files[1..], k - 1), t[0].id);
      }
    }
  }

  lemma NotInFront(t: Table, k: nat)
    requires Distinct(t) && t != [] && t[0].pinned && k <= |Unpinned(t)|
    ensures t[0].id !in Front(Unpinned(t), k)
  {
    var files := Unpinned(t);
    var list := IdList(files[..k]);
    if t[0].id in list {
      var i :| 0 <= i < k && list[i] == t[0].id;
      assert files[i] in files;
      UnpinnedIn(t, files[i]);
    }
  }

  lemma {:induction false} DropFacts(t: Table, k: nat)
    requires k <= |Unpinned(t)|
    ensures Unpinned(Drop(t, k)) == Unpinned(t)[k..]
    ensures Total(Drop(t, k)) + Total(Unpinned(t)[..k]) == Total(t)
    ensures |Drop(t, k)| + k == |t|
    ensures Ids(Drop(t, k)) <= Ids(t)
    ensures Distinct(t) ==> Distinct(Drop(t, k))
    decreases |t|
  {
    if t != [] && k > 0 {
      if t[0].pinned {
        DropFacts(t[1..], k);
        DropUnder(t, k);
      } else {
        DropFacts(t[1..], k - 1);
        var files := Unpinned(t);
        assert files[1..] == Unpinned(t[1..]);
        assert files[..k][1..] == files[1..][..k - 1];
        assert files[k..] == files[1..][k - 1..];
        TailIds(t);
      }
    }
  }

  lemma TailIds(t: Table)
    requires t != []
    ensures Ids(t[1..]) <= Ids(t)
  {
    forall x | x in Ids(t[1..]) ensures x in Ids(t) {
      var e :| e in t[1..] && e.id == x;
      assert e in t;
    }
  }

  lemma DropUnder(t: Table, k: nat)
    requires t != [] && t[0].pinned && k > 0 && k <= |Unpinned(t)|
    requires Ids(Drop(t[1..], k)) <= Ids(t[1..])
    requires Distinct(t) ==> Distinct(Drop(t[1..], k))
    ensures Ids(Drop(t, k)) <= Ids(t)
    ensures Distinct(t) ==> Distinct(Drop(t, k))
  {
    var rest := Drop(t[1..], k);
    TailIds(t);
    assert t[0] in t;
    assert Ids([t[0]] + rest) == {t[0].id} + Ids(rest);
    if Distinct(t) {
      DistinctTail(t);
      forall j | 0 <= j < |rest| ensures rest[j].id != t[0].id {
        assert rest[j] in rest;
        assert rest[j].id in Ids(rest);
      }
    }
  }

  lemma {:induction false} DropTwice(t: Table, a: nat, b: nat)
    requires a + b <= |Unpinned(t)|
    ensures Drop(Drop(t, a), b) == Drop(t, a + b)
    decreases |t|
  {
    if t != [] && a > 0 {
      if t[0].pinned {
        DropTwice(t[1..], a, b);
        var rest := Drop(t[1..], a);
        assert Drop(t, a) == [t[0]] + rest && ([t[0]] + rest)[1..] == rest;
      } else {
        DropTwice(t[1..], a - 1, b);
      }
    }
  }

  // ----- The scan -----

  /** A scan of the first candidates finds as many victims as the whole scan, as far as it goes. */
  lemma {:induction false} VictimsOfPrefix(files: Table, c: nat, total: int, cap: int)
    requires c <= |files|
    ensures var k := Victims(files, total, cap);
            Victims(files[..c], total, cap) == if k < c then k else c
    decreases c
  {
    if c > 0 && total > cap {
      assert files[..c][1..] == files[1..][..c - 1];
      VictimsOfPrefix(files[1..], c - 1, total - files[0].size, cap);
    }
  }

  /** With the first victims gone the scan finds the rest of them. */
  lemma {:induction false} VictimsAfter(files: Table, k: nat, total: int, cap: int)
    requires k <= Victims(files, total, cap)
    ensures Victims(files, total, cap) == k + Victims(files[k..], total - Total(files[..k]), cap)
    decreases k
  {
    if k > 0 {
      VictimsAfter(files[1..], k - 1, total - files[0].size, cap);
      assert files[..k][1..] == files[1..][..k - 1];
      assert files[k..] == files[1..][k - 1..];
    } else {
      assert files[0..] == files && files[..0] == [];
    }
  }

  lemma VictimsLeave(files: Table, total: int, cap: int)
    ensures var k := Victims(files, total, cap);
            k < |files| ==> total - Total(files[..k]) <= cap
    decreases |files|
  {
    if files != [] && total > cap {
      VictimsLeave(files[1..], total - files[0].size, cap);
      var k := Victims(files, total, cap);
      assert files[..k][1..] == files[1..][..k - 1];
    }
  }

  /** The inner loop: take candidates until the total is under the cap. */
  method PickVictims(candidates: Table, total: int, cap: int) returns (victims: nat, left: int)
    ensures victims == Victims(candidates, total, cap)
    ensures left == total - Total(candidates[..victims])
  {
    victims, left := 0, total;
    assert candidates[0..] == candidates && candidates[..0] == [];
    while victims < |candidates|
      invariant victims <= |candidates| && left == total - Total(candidates[..victims])
      invariant Victims(candidates, total, cap) == victims + Victims(candidates[victims..], left, cap)
    {
      if left <= cap {
        break;
      }
      assert candidates[victims..][0] == candidates[victims] && candidates[victims..][1..] == candidates[victims + 1..];
      TotalSnoc(candidates, victims);
      left := left - candidates[victims].size;
      victims := victims + 1;
    }
  }

  lemma {:induction false} TotalSnoc(files: Table, k: nat)
    requires k < |files|
    ensures Total(files[..k + 1]) == Total(files[..k]) + files[k].size
    decreases k
  {
    if k > 0 {
      assert files[..k + 1][1..] == files[1..][..k] && files[..k][1..] == files[1..][..k - 1];
      TotalSnoc(files[1..], k - 1);
    } else {
      assert files[..1] == [files[0]] && files[..0] == [];
    }
  }

  // ----- The TTL phase -----

  lemma {:induction false} ExpiredIn(t: Table, cutoff: int, e: Entry)
    ensures e in ExpiredOf(t, cutoff) <==> e in t && Expired(e, cutoff)
    decreases |t|
  {
    if t != [] {
      ExpiredIn(t[1..], cutoff, e);
    }
  }

  lemma {:induction false} AfterTtlIn(t: Table, cutoff: int, e: Entry)
    ensures e in AfterTtl(t, cutoff) <==> e in t && !Expired(e, cutoff)
    decreases |t|
  {
    if t != [] {
      AfterTtlIn(t[1..], cutoff, e);
    }
  }

  lemma {:induction false} TtlIsWithout(t: Table, cutoff: int, ids: set<FileId>)
    requires forall e :: e in t ==> (e.id in ids <==> Expired(e, cutoff))
    ensures Without(t, ids) == AfterTtl(t, cutoff)
    ensures |ExpiredOf(t, cutoff)| == |t| - |AfterTtl(t, cutoff)|
    decreases |t|
  {
    if t != [] {
      assert t[0] in t;
      TtlIsWithout(t[1..], cutoff, ids);
    }
  }

  lemma ExpiredIds(t: Table, cutoff: int)
    requires Distinct(t)
    ensures forall e :: e in t ==> (e.id in AsSet(IdList(ExpiredOf(t, cutoff))) <==> Expired(e, cutoff))
  {
    var gone := ExpiredOf(t, cutoff);
    forall e | e in t ensures e.id in IdList(gone) <==> Expired(e, cutoff) {
      ExpiredIn(t, cutoff, e);
      if Expired(e, cutoff) {
        var i :| 0 <= i < |gone| && gone[i] == e;
        assert IdList(gone)[i] == e.id;
      }
      if e.id in IdList(gone) {
        var i :| 0 <= i < |gone| && IdList(gone)[i] == e.id;
        assert gone[i] in gone;
        ExpiredIn(t, cutoff, gone[i]);
      }
    }
  }

  lemma {:induction false} DistinctAfterTtl(t: Table, cutoff: int)
    requires Distinct(t)
    ensures Distinct(AfterTtl(t, cutoff))
    decreases |t|
  {
    if t != [] {
      DistinctTail(t);
      DistinctAfterTtl(t[1..], cutoff);
      var rest := AfterTtl(t[1..], cutoff);
      forall j | 0 <= j < |rest| ensures rest[j].id != t[0].id {
        assert rest[j] in rest;
        AfterTtlIn(t[1..], cutoff, rest[j]);
      }
    }
  }

  method DropExpired(store: FileStore, cutoff: int) returns (ttl: nat)
    requires Distinct(store.table)
    modifies store
    ensures store.table == AfterTtl(old(store.table), cutoff) && Distinct(store.table)
    ensures forall e :: e in store.table <==> e in old(store.table) && (e.pinned || e.createdAt >= cutoff)
    ensures ttl == |ExpiredOf(old(store.table), cutoff)|
    ensures store.disk == old(store.disk) - (Ids(old(store.table)) - Ids(store.table))
    ensures Ids(store.table) <= Ids(old(store.table))
  {
    ghost var t := store.table;
    forall e ensures e in AfterTtl(t, cutoff) <==> e in t && (e.pinned || e.createdAt >= cutoff) {
      AfterTtlIn(t, cutoff, e);
    }
    var ids := IdList(ExpiredOf(store.table, cutoff));
    ExpiredIds(t, cutoff);
    TtlIsWithout(t, cutoff, AsSet(ids));
    WithoutIds(t, AsSet(ids));
    DistinctAfterTtl(t, cutoff);
    ttl := store.DeleteMany(ids);
  }

  /** `run_eviction_pass`; `scan` is how many candidates it looks at in one query. */
  method RunEvictionPass(store: FileStore, cutoff: int, cap: int, scan: nat) returns (ttl: nat, lru: nat)
    requires Distinct(store.table) && scan >= 1
    modifies store
    ensures store.table == Swept(AfterTtl(old(store.table), cutoff), cap)
    ensures ttl == |ExpiredOf(old(store.table), cutoff)|
    ensures lru == |AfterTtl(old(store.table), cutoff)| - |store.table|
    ensures store.disk == old(store.disk) - (Ids(old(store.table)) - Ids(store.table))
  {
    ttl := DropExpired(store, cutoff);
    lru := SweepOverCap(store, cap, scan);
    hide Ids;
  }

  /** Taking out some of the victims leaves the rest of the sweep to do. */
  lemma SweepAfter(t: Table, k: nat, cap: int)
    requires k <= Victims(Unpinned(t), Total(t), cap)
    ensures Swept(Drop(t, k), cap) == Swept(t, cap)
  {
    DropFacts(t, k);
    VictimsAfter(Unpinned(t), k, Total(t), cap);
    DropTwice(t, k, Victims(Unpinned(t)[k..], Total(Drop(t, k)), cap));
    hide Drop, Total, Distinct, Ids, Victims, Unpinned;
  }

  /** What the LRU loop keeps: the sweep still to do comes to the sweep asked for. */
  ghost predicate Progress(t: Table, disk0: set<FileId>, table: Table, disk: set<FileId>, lru: int, total: int, cap: int) {
    && Swept(table, cap) == Swept(t, cap) && total == Total(table)
    && Distinct(table) && |table| == |t| - lru
    && disk == disk0 - (Ids(t) - Ids(table)) && Ids(table) <= Ids(t)
  }

  lemma ProgressStarts(t: Table, disk: set<FileId>, cap: int)
    requires Distinct(t)
    ensures Progress(t, disk, t, disk, 0, Total(t), cap)
  {
    hide Swept, Total;
  }

  lemma DiskStep(disk: set<FileId>, all: set<FileId>, now: set<FileId>, gone: set<FileId>)
    requires now <= all
    ensures (disk - (all - now)) - (now * gone) == disk - (all - (now - gone))
  {
  }

  /** One turn of the loop: `c` candidates looked at, the victims among them deleted. */
  lemma ProgressSteps(t: Table, disk0: set<FileId>, table: Table, disk: set<FileId>, lru: nat, total: int, cap: int, c: nat)
    requires Progress(t, disk0, table, disk, lru, total, cap) && total > cap && 0 < c <= |Unpinned(table)|
    ensures var files := Unpinned(table);
            var k := Victims(files[..c], total, cap);
            && 0 < k <= c && |table| - |Without(table, Front(files, k))| == k
            && Progress(t, disk0, Without(table, Front(files, k)), disk - (Ids(table) * Front(files, k)), lru + k,
                        total - Total(files[..k]), cap)
            && (k < c ==> total - Total(files[..k]) <= cap)
  {
    var files := Unpinned(table);
    var k := Victims(files[..c], total, cap);
    VictimsOfPrefix(files, c, total, cap);
    VictimsLeave(files, total, cap);
    hide Drop, Without, Total, Distinct, Ids, Front, Unpinned, Swept;
    SweepAfter(table, k, cap);
    DropFacts(table, k);
    DropIsWithout(table, k);
    WithoutIds(table, Front(files, k));
    DiskStep(disk0, Ids(t), Ids(table), Front(files, k));
  }

  lemma ProgressEnds(t: Table, disk0: set<FileId>, table: Table, disk: set<FileId>, lru: nat, total: int, cap: int)
    requires Progress(t, disk0, table, disk, lru, total, cap) && (total <= cap || Unpinned(table) == [])
    ensures table == Swept(t, cap) && lru == |t| - |table| && disk == disk0 - (Ids(t) - Ids(table)) && Ids(table) <= Ids(t)
  {
    assert Swept(table, cap) == table;
    hide Ids, Swept;
  }

  method SweepOverCap(store: FileStore, cap: int, scan: nat) returns (lru: nat)
    requires Distinct(store.table) && scan >= 1
    modifies store
    ensures store.table == Swept(old(store.table), cap)
    ensures lru == |old(store.table)| - |store.table|
    ensures store.disk == old(store.disk) - (Ids(old(store.table)) - Ids(store.table))
    ensures Ids(store.table) <= Ids(old(store.table))
  {
    ghost var t, disk := store.table, store.disk;
    lru := 0;
    var total := store.TotalByteSize();
    ProgressStarts(t, disk, cap);
    hide Progress, Drop, Without, Total, Distinct, Ids, Front, AsSet, Victims, Unpinned, Swept;
    while total > cap
      invariant Progress(t, disk, store.table, store.disk, lru, total, cap) && Distinct(store.table)
      invariant |store.table| == |t| - lru
      decreases |store.table|
    {
      var files := Unpinned(store.table);
      var candidates := if |files| > scan then files[..scan] else files;
      if candidates == [] {
        break;
      }
      assert candidates == files[..|candidates|];
      ProgressSteps(t, disk, store.table, store.disk, lru, total, cap, |candidates|);
      var victims, left := PickVictims(candidates, total, cap);
      FrontOf(files, |candidates|, victims);
      total := left;
      var gone := store.DeleteMany(IdList(candidates[..victims]));
      lru := lru + gone;
      ProgressDistinct(t, disk, store.table, store.disk, lru, total, cap);
      if victims < |candidates| {
        break;
      }
    }
    ProgressEnds(t, disk, store.table, store.disk, lru, total, cap);
  }

  lemma ProgressDistinct(t: Table, disk0: set<FileId>, table: Table, disk: set<FileId>, lru: nat, total: int, cap: int)
    requires Progress(t, disk0, table, disk, lru, total, cap)
    ensures Distinct(table) && |table| == |t| - lru
  {
  }

  lemma FrontOf(files: Table, c: nat, k: nat)
    requires k <= c <= |files|
    ensures AsSet(IdList(files[..c][..k])) == Front(files, k) && files[..c][..k] == files[..k]
  {
    assert files[..c][..k] == files[..k];
  }

  // ----- What a pass comes to -----

  /** The victims are the shortest oldest-accessed prefix of the unpinned files that brings the
      total to the cap, or all of them if none does. */
  lemma ShortestPrefix(t: Table, cap: int, j: nat)
    ensures var k := Victims(Unpinned(t), Total(t), cap);
            && (Total(Swept(t, cap)) <= cap || Unpinned(Swept(t, cap)) == [])
            && (j < k ==> Total(Drop(t, j)) > cap)
            && Unpinned(Swept(t, cap)) == Unpinned(t)[k..]
  {
    var files := Unpinned(t);
    var k := Victims(files, Total(t), cap);
    DropFacts(t, k);
    VictimsLeave(files, Total(t), cap);
    if j < k {
      DropFacts(t, j);
      OverBefore(files, Total(t), cap, j);
    }
  }

  lemma {:induction false} OverBefore(files: Table, total: int, cap: int, j: nat)
    requires j < Victims(files, total, cap)
    ensures total - Total(files[..j]) > cap
    decreases j
  {
    if j > 0 {
      assert files[..j][1..] == files[1..][..j - 1];
      OverBefore(files[1..], total - files[0].size, cap, j - 1);
    }
  }

  /** A pinned file stays, nothing new appears, and every file that goes was accessed no later
      than every unpinned file that stays. */
  lemma {:induction false} DropKeeps(t: Table, k: nat, e: Entry)
    requires k <= |Unpinned(t)|
    ensures e in t && e.pinned ==> e in Drop(t, k)
    ensures e in Drop(t, k) ==> e in t
    decreases |t|
  {
    if t != [] && k > 0 {
      DropKeeps(t[1..], if t[0].pinned then k else k - 1, e);
    }
  }

  lemma {:induction false} OldestGoFirst(t: Table, k: nat, gone: Entry, stays: Entry)
    requires k <= |Unpinned(t)| && Oldest(t) && Distinct(t)
    requires gone in t && gone !in Drop(t, k) && stays in Drop(t, k) && !stays.pinned
    ensures gone.lastAccessedAt <= stays.lastAccessedAt
    decreases |t|
  {
    if t[0].pinned {
      assert k > 0;
      OldestGoFirst(t[1..], k, gone, stays);
    } else if gone == t[0] {
      DropKeeps(t, k, stays);
      var j :| 0 <= j < |t| && t[j] == stays;
      if j > 0 {
        assert t[0].lastAccessedAt <= t[j].lastAccessedAt;
      }
    } else {
      OldestGoFirst(t[1..], k - 1, gone, stays);
    }
  }

  /** A pass keeps every pinned file and deletes, of the rest, the expired ones and then the
      oldest-accessed ones that are over the cap. */
  lemma PassKeepsPinned(t: Table, cutoff: int, cap: int, e: Entry)
    ensures e in t && e.pinned ==> e in Swept(AfterTtl(t, cutoff), cap)
    ensures e in Swept(AfterTtl(t, cutoff), cap) ==> e in t && (e.pinned || e.createdAt >= cutoff)
  {
    AfterTtlIn(t, cutoff, e);
    DropKeeps(AfterTtl(t, cutoff), Victims(Unpinned(AfterTtl(t, cutoff)), Total(AfterTtl(t, cutoff)), cap), e);
  }
}
