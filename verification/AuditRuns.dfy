/** What verification reports after any sequence of openings, recorded verdicts and checks. */
module AuditRuns {
  import opened Json
  import opened Chain
  import opened Events
  import opened Audit

  predicate TimeOrdered(rows: seq<Row>)
  {
    forall i, j :: 0 <= i < j < |rows| ==> rows[i].base.timestamp <= rows[j].base.timestamp
  }

  /** Every stored signature passes under the key on disk. */
  ghost predicate SignaturesHold(c: Crypto, publicKey: Option<string>, rows: seq<Row>)
  {
    forall r :: r in rows && IsSigned(r) ==>
      publicKey.Some? && c.check(SignatureFields(r), r.signature.value, publicKey.value)
  }

  /** A table in chronological order whose chain and signatures are intact. */
  ghost predicate GoodTable(c: Crypto, publicKey: Option<string>, rows: seq<Row>)
  {
    Complete(rows) && TimeOrdered(rows) && Linked(c.hash, Entries(rows)) && SignaturesHold(c, publicKey, rows)
  }

  // ---------------------------------------------------------------- the order verification reads rows in

  lemma {:induction false} InsertByTimeSplits(sorted: seq<Row>, r: Row) returns (p: nat)
    requires TimeOrdered(sorted)
    ensures p <= |sorted| && InsertByTime(sorted, r) == sorted[..p] + ([r] + sorted[p..])
    ensures forall i :: 0 <= i < p ==> sorted[i].base.timestamp <= r.base.timestamp
    ensures forall i :: p <= i < |sorted| ==> r.base.timestamp < sorted[i].base.timestamp
  {
    var n := |sorted| - 1;
    if sorted == [] || sorted[n].base.timestamp <= r.base.timestamp {
      p := |sorted|;
    } else {
      p := InsertByTimeSplits(sorted[..n], r);
      assert sorted[..n][..p] == sorted[..p];
      assert sorted[p..] == sorted[..n][p..] + [sorted[n]];
    }
  }

  lemma {:induction false} InsertSorts(sorted: seq<Row>, r: Row)
    requires TimeOrdered(sorted)
    ensures TimeOrdered(InsertByTime(sorted, r))
    ensures multiset(InsertByTime(sorted, r)) == multiset(sorted) + multiset([r])
  {
    var p := InsertByTimeSplits(sorted, r);
    SplicePermutes(sorted, p, r);
    SpliceOrdered(sorted, p, r);
  }

  /** The read is a permutation of the table in time order. */
  lemma {:induction false} ChronologicalSorts(rows: seq<Row>)
    ensures TimeOrdered(Chronological(rows))
    ensures multiset(Chronological(rows)) == multiset(rows)
  {
    hide InsertByTime, TimeOrdered;
    if rows == [] {
      EmptyIsOrdered();
    } else {
      var front, r := rows[..|rows| - 1], rows[|rows| - 1];
      ChronologicalSorts(front);
      InsertSorts(Chronological(front), r);
      assert rows == front + [r];
    }
  }

  lemma EmptyIsOrdered()
    ensures TimeOrdered([])
  {
  }

  lemma SplicePermutes<T>(s: seq<T>, p: nat, x: T)
    requires p <= |s|
    ensures multiset(s[..p] + ([x] + s[p..])) == multiset(s) + multiset([x])
  {
    assert s == s[..p] + s[p..];
  }

  lemma SpliceOrdered(s: seq<Row>, p: nat, r: Row)
    requires TimeOrdered(s) && p <= |s|
    requires forall i :: 0 <= i < p ==> s[i].base.timestamp <= r.base.timestamp
    requires forall i :: p <= i < |s| ==> r.base.timestamp < s[i].base.timestamp
    ensures TimeOrdered(s[..p] + ([r] + s[p..]))
  {
    var spliced := s[..p] + ([r] + s[p..]);
    forall i, j | 0 <= i < j < |spliced|
      ensures spliced[i].base.timestamp <= spliced[j].base.timestamp
    {
      assert spliced[i] == if i < p then s[i] else if i == p then r else s[i - 1];
      assert spliced[j] == if j < p then s[j] else if j == p then r else s[j - 1];
    }
  }

  lemma {:induction false} ChronologicalKeepsOrder(rows: seq<Row>)
    requires TimeOrdered(rows)
    ensures Chronological(rows) == rows
  {
    if rows == [] {
    } else {
      ChronologicalKeepsOrder(rows[..|rows| - 1]);
    }
  }

  // ---------------------------------------------------------------- good tables are exactly those reported clean

  lemma {:induction false} SignatureFaultsEmpty(c: Crypto, key: string, rows: seq<Row>)
    ensures SignatureFaults(c, key, rows) == [] <==> forall r :: r in rows ==> SignatureHolds(c, key, r)
  {
    if rows == [] {
    } else {
      var front := rows[..|rows| - 1];
      SignatureFaultsEmpty(c, key, front);
      assert rows == front + [rows[|rows| - 1]];
    }
  }

  lemma CleanIffLinkedAndSigned(c: Crypto, publicKey: Option<string>, rows: seq<Row>)
    ensures Findings(c, rows, publicKey) == []
            <==> var fetched := Fetched(rows, FETCH_LIMIT);
              Complete(fetched) && Linked(c.hash, Entries(fetched)) && SignaturesHold(c, publicKey, fetched)
  {
    var fetched := Fetched(rows, FETCH_LIMIT);
    CleanRows(c.hash, fetched);
    ChainFaultsLength(RowErrors(c.hash, fetched));
    if publicKey.Some? {
      SignatureFaultsEmpty(c, publicKey.value, fetched);
    }
  }

  lemma {:induction false} EntriesOfPrefix(rows: seq<Row>, n: nat)
    requires Complete(rows) && n <= |rows|
    ensures |Entries(rows)| == |rows| && Entries(rows[..n]) == Entries(rows)[..n]
  {
    EntriesOfComplete(rows);
    EntriesOfComplete(rows[..n]);
  }

  /** However many rows the fetch limit cuts off, a good table is reported clean. */
  lemma GoodTableIsClean(c: Crypto, publicKey: Option<string>, rows: seq<Row>)
    requires GoodTable(c, publicKey, rows)
    ensures Findings(c, rows, publicKey) == []
  {
    ChronologicalKeepsOrder(rows);
    var n := |Fetched(rows, FETCH_LIMIT)|;
    assert Fetched(rows, FETCH_LIMIT) == rows[..n];
    EntriesOfPrefix(rows, n);
    EntriesOfComplete(rows);
    PrefixLinked(c.hash, Entries(rows), n);
    CleanIffLinkedAndSigned(c, publicKey, rows);
  }

  lemma CleanTableIsGood(c: Crypto, publicKey: Option<string>, rows: seq<Row>)
    requires TimeOrdered(rows) && |rows| <= FETCH_LIMIT
    requires Findings(c, rows, publicKey) == []
    ensures GoodTable(c, publicKey, rows)
  {
    ChronologicalKeepsOrder(rows);
    CleanIffLinkedAndSigned(c, publicKey, rows);
  }

  lemma GoodTableHasHashes(c: Crypto, publicKey: Option<string>, rows: seq<Row>)
    requires NeverEmpty(c.hash) && GoodTable(c, publicKey, rows)
    ensures NoLegacy(rows)
  {
    EntriesOfComplete(rows);
    forall i | 0 <= i < |rows|
      ensures !Legacy(rows[i])
    {
      assert LinkedAt(c.hash, Entries(rows), i);
    }
  }

  // ---------------------------------------------------------------- opening

  predicate NoLegacy(rows: seq<Row>)
  {
    forall r :: r in rows ==> !Legacy(r)
  }

  /** Opening a good table changes nothing. */
  lemma {:induction false} OpeningGoodTable(c: Crypto, publicKey: Option<string>, rows: seq<Row>)
    requires NeverEmpty(c.hash) && GoodTable(c, publicKey, rows)
    ensures Migrated(c, rows) == rows
  {
    GoodTableHasHashes(c, publicKey, rows);
    NothingToMigrate(c, rows);
  }

  lemma {:induction false} NothingToMigrate(c: Crypto, rows: seq<Row>)
    requires NoLegacy(rows)
    ensures Migrated(c, rows) == rows
  {
    if rows == [] {
    } else {
      NothingToMigrate(c, rows[..|rows| - 1]);
    }
  }

  /** Rows without a hash, as they were before hashes were introduced. */
  predicate AllLegacy(rows: seq<Row>)
  {
    forall r :: r in rows ==> Legacy(r) && r.missing == []
  }

  /** A legacy row whose migrated hash covers exactly what verification reads back. */
  predicate Migratable(c: Crypto, r: Row)
  {
    c.round6(r.base.timestamp) == r.base.timestamp && !UsesExtendedHashFields(r.ext.metadataJson)
  }

  /** The entry whose hash migration stores for a row: base fields only, with the rounded timestamp. */
  function StoredEntry(c: Crypto, r: Row, prev: string): ChainEntry
  {
    ChainEntry(r.id, r.base.(timestamp := c.round6(r.base.timestamp)), NO_EXTENDED, prev, LegacyHash(c, r, prev))
  }

  function StoredEntries(c: Crypto, rows: seq<Row>): seq<ChainEntry>
  {
    if rows == [] then []
    else
      var front := rows[..|rows| - 1];
      StoredEntries(c, front) + [StoredEntry(c, rows[|rows| - 1], LastMigrated(c, front))]
  }

  /** Verification of the migrated row hashes the same content as migration did if and only if it is migratable. */
  lemma MigratableIffSamePreimage(c: Crypto, r: Row, prev: string)
    ensures EntryPreimage(StoredEntry(c, r, prev)) == EntryPreimage(RowEntry(MigrateRow(c, r, prev)))
            <==> Migratable(c, r)
  {
    assert UsesExtendedHashFields(r.ext.metadataJson) ==> r.ext != NO_EXTENDED;
  }

  lemma {:induction false} StoredAt(c: Crypto, rows: seq<Row>, i: nat)
    requires i < |rows|
    ensures |StoredEntries(c, rows)| == |rows|
    ensures StoredEntries(c, rows)[i] == StoredEntry(c, rows[i], LastMigrated(c, rows[..i]))
  {
    var n := |rows| - 1;
    StoredLength(c, rows[..n]);
    if i < n {
      StoredAt(c, rows[..n], i);
      assert rows[..n][..i] == rows[..i];
    }
  }

  lemma {:induction false} StoredLength(c: Crypto, rows: seq<Row>)
    ensures |StoredEntries(c, rows)| == |rows|
  {
    if rows == [] {
    } else {
      StoredLength(c, rows[..|rows| - 1]);
    }
  }

  lemma {:induction false} MigratedAt(c: Crypto, rows: seq<Row>, i: nat)
    requires i < |rows|
    ensures Migrated(c, rows)[i] == if Legacy(rows[i]) then MigrateRow(c, rows[i], LastMigrated(c, rows[..i]))
            else rows[i]
  {
    var front := rows[..|rows| - 1];
    if i < |front| {
      MigratedAt(c, front, i);
      assert front[..i] == rows[..i];
    }
  }

  lemma {:induction false} LastMigratedSnoc(c: Crypto, rows: seq<Row>, i: nat)
    requires i < |rows| && Legacy(rows[i])
    ensures LastMigrated(c, rows[..i + 1]) == LegacyHash(c, rows[i], LastMigrated(c, rows[..i]))
  {
    assert rows[..i + 1][..i] == rows[..i];
  }

  /** The stored entries are a linked log. */
  lemma {:induction false} StoredEntriesLinked(c: Crypto, rows: seq<Row>)
    requires AllLegacy(rows)
    ensures |StoredEntries(c, rows)| == |rows| && Linked(c.hash, StoredEntries(c, rows))
  {
    StoredLength(c, rows);
    forall i | 0 <= i < |rows|
      ensures LinkedAt(c.hash, StoredEntries(c, rows), i)
    {
      StoredAt(c, rows, i);
      if i > 0 {
        assert rows[i - 1] in rows;
        StoredAt(c, rows, i - 1);
        LastMigratedSnoc(c, rows, i - 1);
        assert StoredEntries(c, rows)[..i][i - 1] == StoredEntries(c, rows)[i - 1];
      }
    }
  }

  /** Row `i` of the migrated table has the hashes of stored entry `i` and its own columns. */
  lemma {:induction false} MigratedRow(c: Crypto, rows: seq<Row>, i: nat)
    requires AllLegacy(rows) && i < |rows|
    ensures |StoredEntries(c, rows)| == |rows|
    ensures var m, e := Migrated(c, rows)[i], StoredEntries(c, rows)[i];
      && m == MigrateRow(c, rows[i], LastMigrated(c, rows[..i]))
      && e == StoredEntry(c, rows[i], LastMigrated(c, rows[..i]))
      && m.prevHash == e.prevHash && m.entryHash == e.entryHash && m.base == rows[i].base
      && m.missing == []
  {
    assert rows[i] in rows;
    StoredAt(c, rows, i);
    MigratedAt(c, rows, i);
  }

  lemma {:induction false} MigratedKeepsColumns(c: Crypto, rows: seq<Row>)
    requires AllLegacy(rows)
    ensures Complete(Migrated(c, rows))
    ensures forall i :: 0 <= i < |rows| ==> Migrated(c, rows)[i].base == rows[i].base
  {
    forall i | 0 <= i < |rows|
      ensures var m := Migrated(c, rows)[i]; m.missing == [] && m.base == rows[i].base
    {
      MigratedRow(c, rows, i);
    }
  }

  /** Row `i` of the migrated table links in place if and only if what is hashed for it is what was stored, or the
      two contents collide. */
  lemma {:induction false} MigratedLinkIff(c: Crypto, rows: seq<Row>, i: nat)
    requires AllLegacy(rows) && i < |rows|
    requires Migratable(c, rows[i]) || CollisionFree(c.hash, StoredEntries(c, rows) + Entries(Migrated(c, rows)))
    ensures |Entries(Migrated(c, rows))| == |rows|
    ensures LinkedAt(c.hash, Entries(Migrated(c, rows)), i) <==> Migratable(c, rows[i])
  {
    var table, prev := Migrated(c, rows), LastMigrated(c, rows[..i]);
    MigratedKeepsColumns(c, rows);
    EntriesOfComplete(table);
    MigratedRow(c, rows, i);
    MigratedPredecessor(c, rows, i);
    MigratableIffSamePreimage(c, rows[i], prev);
    if !Migratable(c, rows[i]) {
      var all := StoredEntries(c, rows) + Entries(table);
      assert all[i] in all && all[|rows| + i] in all;
    }
  }

  lemma {:induction false} MigratedPredecessor(c: Crypto, rows: seq<Row>, i: nat)
    requires AllLegacy(rows) && Complete(Migrated(c, rows)) && i <= |rows|
    ensures |Entries(Migrated(c, rows))| == |rows|
    ensures LastHash(Entries(Migrated(c, rows))[..i], "") == LastMigrated(c, rows[..i])
  {
    hide LegacyHash;
    var table := Migrated(c, rows);
    EntriesOfComplete(table);
    if i > 0 {
      assert rows[i - 1] in rows;
      MigratedAt(c, rows, i - 1);
      LastMigratedSnoc(c, rows, i - 1);
      assert Entries(table)[..i][i - 1].entryHash == table[i - 1].entryHash;
    }
  }

  /** Hash-less rows in time order that can all be migrated, and whose signatures, if there are any, pass for what
      migration makes of them, make a good table. */
  lemma {:induction false} MigratedTableIsGood(c: Crypto, publicKey: Option<string>, rows: seq<Row>)
    requires AllLegacy(rows) && TimeOrdered(rows) && forall i :: 0 <= i < |rows| ==> Migratable(c, rows[i])
    requires SignaturesHold(c, publicKey, Migrated(c, rows))
    ensures GoodTable(c, publicKey, Migrated(c, rows))
  {
    MigratedKeepsColumns(c, rows);
    EntriesOfComplete(Migrated(c, rows));
    forall i | 0 <= i < |rows|
      ensures LinkedAt(c.hash, Entries(Migrated(c, rows)), i)
    {
      MigratedLinkIff(c, rows, i);
    }
  }

  /** Every row before position `n` is at most as late as all rows after it. */
  predicate TimeOrderedUpTo(rows: seq<Row>, n: nat)
  {
    forall i, j :: 0 <= i < j < |rows| && i < n ==> rows[i].base.timestamp <= rows[j].base.timestamp
  }

  /** The first `n` rows are read as they are stored if and only if they are in time order up to there. */
  lemma {:induction false} PrefixReadAsStoredIff(rows: seq<Row>, n: nat)
    requires n <= |rows|
    ensures |Chronological(rows)| == |rows|
    ensures Chronological(rows)[..n] == rows[..n] <==> TimeOrderedUpTo(rows, n)
  {
    ReadLength(rows);
    ChronologicalSorts(rows);
    if TimeOrderedUpTo(rows, n) {
      OrderedPrefixIsKept(rows, n);
    }
    if Chronological(rows)[..n] == rows[..n] {
      KeptPrefixIsOrdered(rows, Chronological(rows), n);
    }
  }

  lemma {:induction false} ReadLength(rows: seq<Row>)
    ensures |Chronological(rows)| == |rows|
  {
    ChronologicalSorts(rows);
    assert |multiset(rows)| == |rows| && |multiset(Chronological(rows))| == |Chronological(rows)|;
  }

  lemma {:induction false} InsertKeepsPrefix(sorted: seq<Row>, r: Row, n: nat)
    requires TimeOrdered(sorted) && n <= |sorted| && forall i :: 0 <= i < n ==>
      sorted[i].base.timestamp <= r.base.timestamp
    ensures n <= |InsertByTime(sorted, r)| && InsertByTime(sorted, r)[..n] == sorted[..n]
  {
    var p := InsertByTimeSplits(sorted, r);
    var next := if p < |sorted| then Some(sorted[p]) else None;
  }

  lemma {:induction false} OrderedPrefixIsKept(rows: seq<Row>, n: nat)
    requires n <= |rows| && TimeOrderedUpTo(rows, n)
    ensures n <= |Chronological(rows)| && Chronological(rows)[..n] == rows[..n]
  {
    hide InsertByTime, Chronological;
    if n == |rows| {
      ChronologicalKeepsOrder(rows);
    } else {
      var front, r := rows[..|rows| - 1], rows[|rows| - 1];
      OrderedPrefixIsKept(front, n);
      PrefixKeptByLast(front, r, n);
      ReadsLast(rows);
    }
  }

  lemma {:induction false} ReadsLast(rows: seq<Row>)
    requires rows != []
    ensures Chronological(rows) == InsertByTime(Chronological(rows[..|rows| - 1]), rows[|rows| - 1])
  {
    hide InsertByTime;
  }

  lemma {:induction false} PrefixKeptByLast(front: seq<Row>, r: Row, n: nat)
    requires n <= |front| && n <= |Chronological(front)| && Chronological(front)[..n] == front[..n]
    requires forall i :: 0 <= i < n ==> front[i].base.timestamp <= r.base.timestamp
    ensures var read := InsertByTime(Chronological(front), r); n <= |read| && read[..n] == front[..n]
  {
    hide InsertByTime, Chronological;
    ChronologicalSorts(front);
    forall i | 0 <= i < n
      ensures Chronological(front)[i].base.timestamp <= r.base.timestamp
    {
      assert Chronological(front)[..n][i] == front[i];
    }
    InsertKeepsPrefix(Chronological(front), r, n);
  }

  lemma SameTails<T>(a: seq<T>, b: seq<T>, n: nat)
    requires n <= |a| && n <= |b| && multiset(a) == multiset(b) && a[..n] == b[..n]
    ensures multiset(a[n..]) == multiset(b[n..])
  {
    assert a == a[..n] + a[n..] && b == b[..n] + b[n..];
    assert multiset(a[n..]) == multiset(a) - multiset(a[..n]);
    assert multiset(b[n..]) == multiset(b) - multiset(b[..n]);
  }

  lemma KeptPrefixIsOrdered(rows: seq<Row>, read: seq<Row>, n: nat)
    requires n <= |rows| == |read| && TimeOrdered(read) && multiset(read) == multiset(rows) && read[..n] == rows[..n]
    ensures TimeOrderedUpTo(rows, n)
  {
    SameTails(rows, read, n);
    forall i, j | 0 <= i < j < |rows| && i < n
      ensures rows[i].base.timestamp <= rows[j].base.timestamp
    {
      assert rows[i] == read[..n][i];
      if j < n {
        assert rows[j] == read[..n][j];
      } else {
        assert rows[n..][j - n] in multiset(read[n..]);
        var m :| 0 <= m < |read[n..]| && read[n..][m] == rows[j];
        assert rows[j] == read[n + m];
      }
    }
  }

  lemma HashesOfLog(H: Digest, log: seq<ChainEntry>, j: nat)
    requires NeverEmpty(H) && Linked(H, log) && j < |log|
    ensures log[j].prevHash == (if j == 0 then "" else log[j - 1].entryHash) && log[j].entryHash != ""
  {
    assert LinkedAt(H, log, j);
  }

  /** A chain of rows drawn from a linked log is that log from its start, in its order. */
  lemma {:induction false} ChainDrawnFromLog(H: Digest, log: seq<ChainEntry>, rows: seq<Row>, read: seq<Row>, k: nat)
    requires NeverEmpty(H) && Linked(H, log) && CollisionFree(H, log) && |log| == |rows| && k < |read|
    requires forall i :: 0 <= i < |rows| ==>
      log[i].prevHash == rows[i].prevHash && log[i].entryHash == rows[i].entryHash
    requires forall i :: 0 <= i < |read| ==> read[i] in rows
    requires forall i :: 0 <= i < |read| ==> read[i].prevHash == if i == 0 then "" else read[i - 1].entryHash
    ensures k < |rows| && read[k] == rows[k]
  {
    hide EntryPreimage, CollisionFree;
    var j :| 0 <= j < |rows| && rows[j] == read[k];
    HashesOfLog(H, log, j);
    assert log[j].prevHash == rows[j].prevHash == read[k].prevHash;
    if j > 0 {
      HashesOfLog(H, log, j - 1);
    }
    if k == 0 {
      assert read[k].prevHash == "";
    } else {
      ChainDrawnFromLog(H, log, rows, read, k - 1);
      HashesOfLog(H, log, k - 1);
      assert read[k].prevHash == read[k - 1].entryHash == log[k - 1].entryHash;
      if 0 < j < k {
        HashesDistinct(H, log, j - 1, k - 1);
      } else if k < j {
        HashesDistinct(H, log, k - 1, j - 1);
      }
    }
  }

  function Min(a: nat, b: nat): nat
  {
    if a <= b then a else b
  }

  /** A table of hash-less rows verifies after opening if and only if the rows that verification reads are stored in
      time order, with timestamps of at most six decimals and without compact metadata text, and every signature that
      they carry passes for what migration made of them, unless entries collide. */
  lemma {:induction false} MigratedTableCleanIff(c: Crypto, publicKey: Option<string>, rows: seq<Row>)
    requires NeverEmpty(c.hash) && AllLegacy(rows)
    requires CollisionFree(c.hash, StoredEntries(c, rows) + Entries(Migrated(c, rows)))
    ensures var n := Min(|rows|, FETCH_LIMIT);
      Findings(c, Migrated(c, rows), publicKey) == []
      <==> && TimeOrderedUpTo(rows, n) && (forall i :: 0 <= i < n ==> Migratable(c, rows[i]))
           && SignaturesHold(c, publicKey, Migrated(c, rows)[..n])
  {
    hide Findings, Migrated, Chronological;
    var table, n := Migrated(c, rows), Min(|rows|, FETCH_LIMIT);
    var read := Fetched(table, FETCH_LIMIT);
    MigratedKeepsColumns(c, rows);
    assert TimeOrderedUpTo(table, n) <==> TimeOrderedUpTo(rows, n);
    PrefixReadAsStoredIff(table, n);
    assert |read| == n && (read == table[..n] <==> Chronological(table)[..n] == table[..n]);
    CleanIffLinkedAndSigned(c, publicKey, table);
    FetchedIsComplete(table);
    if Linked(c.hash, Entries(read)) {
      CleanReadIsStored(c, rows, read);
    }
    MigratedPrefixLinkedIff(c, rows, n);
  }

  lemma FetchedIsComplete(table: seq<Row>)
    requires Complete(table)
    ensures Complete(Fetched(table, FETCH_LIMIT))
    ensures forall r :: r in Fetched(table, FETCH_LIMIT) ==> r in table
  {
    ChronologicalSorts(table);
    forall r | r in Fetched(table, FETCH_LIMIT)
      ensures r in table && r.missing == []
    {
      assert r in multiset(Chronological(table)) && r in multiset(table);
    }
  }

  /** A migrated table that reads back as a chain was stored in time order. */
  lemma {:induction false} CleanReadIsStored(c: Crypto, rows: seq<Row>, read: seq<Row>)
    requires NeverEmpty(c.hash) && AllLegacy(rows)
    requires CollisionFree(c.hash, StoredEntries(c, rows) + Entries(Migrated(c, rows)))
    requires Complete(read) && Linked(c.hash, Entries(read)) && forall r :: r in read ==> r in Migrated(c, rows)
    ensures |read| <= |rows| && read == Migrated(c, rows)[..|read|]
  {
    var table, log := Migrated(c, rows), StoredEntries(c, rows);
    StoredEntriesLinked(c, rows);
    ChainOfLinked(c.hash, read);
    CollisionFreePart(c.hash, log, Entries(table));
    forall i | 0 <= i < |rows|
      ensures log[i].prevHash == table[i].prevHash && log[i].entryHash == table[i].entryHash
    {
      MigratedRow(c, rows, i);
    }
    forall k | 0 <= k < |read|
      ensures k < |table| && read[k] == table[k]
    {
      ChainDrawnFromLog(c.hash, log, table, read, k);
    }
    var last := if read == [] then None else Some(read[|read| - 1]);
  }

  lemma CollisionFreePart(H: Digest, a: seq<ChainEntry>, b: seq<ChainEntry>)
    requires CollisionFree(H, a + b)
    ensures CollisionFree(H, a)
  {
    assert forall e :: e in a ==> e in a + b;
  }

  lemma {:induction false} ChainOfLinked(H: Digest, rows: seq<Row>)
    requires Complete(rows) && Linked(H, Entries(rows))
    ensures forall i :: 0 <= i < |rows| ==> rows[i].prevHash == if i == 0 then "" else rows[i - 1].entryHash
    ensures forall i :: 0 <= i < |rows| ==> rows[i].entryHash == H(EntryPreimage(RowEntry(rows[i])))
  {
    EntriesOfComplete(rows);
    forall i | 0 <= i < |rows|
      ensures rows[i].prevHash == if i == 0 then "" else rows[i - 1].entryHash
      ensures rows[i].entryHash == H(EntryPreimage(RowEntry(rows[i])))
    {
      assert LinkedAt(H, Entries(rows), i);
    }
  }

  lemma {:induction false} ChainLink(H: Digest, rows: seq<Row>, i: nat)
    requires Complete(rows) && Linked(H, Entries(rows)) && i < |rows|
    ensures rows[i].prevHash == (if i == 0 then "" else rows[i - 1].entryHash)
    ensures rows[i].entryHash == H(EntryPreimage(RowEntry(rows[i])))
    ensures i > 0 ==> rows[i - 1].entryHash == H(EntryPreimage(RowEntry(rows[i - 1])))
  {
    hide EntryPreimage;
    EntriesOfComplete(rows);
    assert LinkedAt(H, Entries(rows), i);
    assert i > 0 ==> LinkedAt(H, Entries(rows), i - 1);
  }

  lemma {:induction false} MigratedPrefixLinkedIff(c: Crypto, rows: seq<Row>, n: nat)
    requires AllLegacy(rows) && n <= |rows|
    requires CollisionFree(c.hash, StoredEntries(c, rows) + Entries(Migrated(c, rows)))
    ensures Linked(c.hash, Entries(Migrated(c, rows)[..n])) <==> forall i :: 0 <= i < n ==> Migratable(c, rows[i])
  {
    hide Migrated, Entries, StoredEntries, LinkedAt, Migratable, CollisionFree;
    var table := Migrated(c, rows);
    MigratedKeepsColumns(c, rows);
    EntriesOfPrefix(table, n);
    forall i | 0 <= i < n
      ensures LinkedAt(c.hash, Entries(table)[..n], i) <==> Migratable(c, rows[i])
    {
      MigratedLinkIff(c, rows, i);
      LinkedInPrefix(c.hash, Entries(table), n, i);
    }
  }

  lemma LinkedInPrefix(H: Digest, es: seq<ChainEntry>, n: nat, i: nat)
    requires i < n <= |es|
    ensures LinkedAt(H, es[..n], i) <==> LinkedAt(H, es, i)
  {
    assert es[..n][..i] == es[..i];
  }

  /** A new row later than as many rows as verification reads is not read. */
  predicate BeyondLimit(rows: seq<Row>, timestamp: real)
  {
    |rows| >= FETCH_LIMIT && rows[FETCH_LIMIT - 1].base.timestamp <= timestamp
  }

  /** Where a new row is read in a table that was in time order. */
  lemma ReadPosition(rows: seq<Row>, r: Row) returns (p: nat)
    requires TimeOrdered(rows)
    ensures p <= |rows| && Fetched(rows + [r], FETCH_LIMIT) == Prefix(rows[..p] + ([r] + rows[p..]), FETCH_LIMIT)
    ensures Fetched(rows, FETCH_LIMIT) == Prefix(rows, FETCH_LIMIT)
    ensures p >= FETCH_LIMIT <==> BeyondLimit(rows, r.base.timestamp)
  {
    assert (rows + [r])[..|rows|] == rows;
    ChronologicalKeepsOrder(rows);
    p := InsertByTimeSplits(rows, r);
  }

  lemma SplicedPrefix<T>(s: seq<T>, x: T, p: nat, n: nat)
    requires p <= |s| && n > 1
    ensures var t := Prefix(s[..p] + ([x] + s[p..]), n);
      && (p >= n ==> t == Prefix(s, n))
      && (p < n ==> p < |t| && t[p] == x)
      && (0 < p < n ==> t[p - 1] == s[p - 1])
      && (p == 0 && s != [] ==> |t| > 1 && t[1] == s[0])
  {
  }

  /** Migration starts its chain afresh: a hash-less row behind a good table verifies after opening if and only if the
      table was empty and the row can be migrated, or it is not read at all. */
  lemma {:induction false} LateLegacyRow(c: Crypto, publicKey: Option<string>, rows: seq<Row>, r: Row)
    requires NeverEmpty(c.hash) && GoodTable(c, publicKey, rows) && AllLegacy([r])
    requires CollisionFree(c.hash, StoredEntries(c, [r]) + Entries(Migrated(c, [r])))
    ensures Findings(c, Migrated(c, rows + [r]), publicKey) == []
            <==> || (rows == [] && Migratable(c, r) && SignaturesHold(c, publicKey, [MigrateRow(c, r, "")]))
                 || BeyondLimit(rows, r.base.timestamp)
  {
    if rows == [] {
      assert rows + [r] == [r];
      MigratedTableCleanIff(c, publicKey, [r]);
      assert Migrated(c, [r])[..1] == [MigrateRow(c, r, "")];
    } else {
      assert r in [r];
      LateLegacyRowBreaks(c, publicKey, rows, r);
    }
  }

  /** So it is with any number of hash-less rows behind a good table that is not empty, whatever their times, if the
      whole table is read, and in time order however long it is: it verifies after opening only where verification
      reads none of them. */
  lemma {:induction false} LateLegacyRows(c: Crypto, publicKey: Option<string>, rows: seq<Row>, late: seq<Row>)
    requires NeverEmpty(c.hash) && GoodTable(c, publicKey, rows) && rows != [] && AllLegacy(late) && late != []
    requires |rows| + |late| <= FETCH_LIMIT || TimeOrdered(rows + late)
    ensures Findings(c, Migrated(c, rows + late), publicKey) == [] <==> |rows| >= FETCH_LIMIT
  {
    hide Findings, Migrated, Chronological, Linked, SignaturesHold;
    var table := Migrated(c, rows + late);
    var read := Fetched(table, FETCH_LIMIT);
    LateRowsMigrated(c, publicKey, rows, late);
    ReadLength(table);
    if TimeOrdered(rows + late) {
      assert TimeOrdered(table);
      ChronologicalKeepsOrder(table);
    }
    if |rows| >= FETCH_LIMIT {
      ChronologicalKeepsOrder(rows);
      assert read == Fetched(rows, FETCH_LIMIT);
      CleanIffLinkedAndSigned(c, publicKey, table);
      CleanIffLinkedAndSigned(c, publicKey, rows);
      GoodTableIsClean(c, publicKey, rows);
    } else {
      var i, j := 0, |rows|;
      if |table| <= FETCH_LIMIT {
        ChronologicalSorts(table);
        i, j := PositionsOfTwo(table, read, 0, |rows|);
      }
      ChainNotRestarted(c, publicKey, table, i, j);
    }
  }

  lemma {:induction false} LateRowsMigrated(c: Crypto, publicKey: Option<string>, rows: seq<Row>, late: seq<Row>)
    requires NeverEmpty(c.hash) && GoodTable(c, publicKey, rows) && rows != [] && AllLegacy(late) && late != []
    ensures var table := Migrated(c, rows + late);
      && table[..|rows|] == rows && table[0].prevHash == "" == table[|rows|].prevHash
      && forall i :: 0 <= i < |table| ==> table[i].base == (rows + late)[i].base && table[i].entryHash != ""
  {
    hide Migrated;
    var all := rows + late;
    assert all[..|rows|] == rows && all[|rows|] == late[0];
    GoodTableHasHashes(c, publicKey, rows);
    NothingMigrated(c, rows);
    ChainLink(c.hash, rows, 0);
    forall i | 0 <= i < |all|
      ensures var m := Migrated(c, all)[i];
        && m.base == all[i].base && m.entryHash != "" && (i < |rows| ==> m == rows[i])
        && (i == |rows| ==> m.prevHash == "")
    {
      MigratedAt(c, all, i);
      if i < |rows| {
        assert all[i] == rows[i] && rows[i] in rows;
      } else {
        assert all[i] == late[i - |rows|] && all[i] in late;
      }
    }
  }

  /** A chain names no predecessor only once. */
  lemma {:induction false} ChainNotRestarted(c: Crypto, publicKey: Option<string>, table: seq<Row>, i: nat, j: nat)
    requires forall r :: r in table ==> r.entryHash != ""
    requires var read := Fetched(table, FETCH_LIMIT); i < j < |read| && read[j].prevHash == ""
    ensures Findings(c, table, publicKey) != []
  {
    hide Findings, Linked, SignaturesHold;
    var read := Fetched(table, FETCH_LIMIT);
    CleanIffLinkedAndSigned(c, publicKey, table);
    RowsReadAreStored(table);
    if Complete(read) && Linked(c.hash, Entries(read)) {
      assert read[j - 1] in read;
      ChainLink(c.hash, read, j);
    }
  }

  function Without<T>(s: seq<T>, a: nat): seq<T>
    requires a < |s|
  {
    s[..a] + s[a + 1..]
  }

  lemma WithoutOne<T>(s: seq<T>, a: nat)
    requires a < |s|
    ensures multiset(Without(s, a)) == multiset(s) - multiset([s[a]])
  {
    assert s == s[..a] + [s[a]] + s[a + 1..];
  }

  lemma PositionOf<T>(s: seq<T>, t: seq<T>, k: nat) returns (i: nat)
    requires multiset(s) == multiset(t) && k < |s|
    ensures i < |t| && t[i] == s[k]
  {
    assert s[k] in multiset(t);
    i :| 0 <= i < |t| && t[i] == s[k];
  }

  /** What stands at two positions of a sequence stands at two positions of every permutation of it. */
  lemma PositionsOfTwo<T>(s: seq<T>, t: seq<T>, a: nat, b: nat) returns (i: nat, j: nat)
    requires multiset(s) == multiset(t) && a < b < |s|
    ensures i < j < |t| && {t[i], t[j]} == {s[a], s[b]}
  {
    i := PositionOf(s, t, a);
    WithoutOne(s, a);
    WithoutOne(t, i);
    j := PositionOf(Without(s, a), Without(t, i), b - 1);
    if j < i {
      i, j := j, i;
    } else {
      j := j + 1;
    }
  }

  lemma {:induction false} LateLegacyRowBreaks(c: Crypto, publicKey: Option<string>, rows: seq<Row>, r: Row)
    requires NeverEmpty(c.hash) && GoodTable(c, publicKey, rows) && rows != [] && Legacy(r) && r.missing == []
    ensures Findings(c, Migrated(c, rows + [r]), publicKey) == [] <==> BeyondLimit(rows, r.base.timestamp)
  {
    hide Migrated, Chronological, RowErrors, SignatureFaults, Linked;
    var m := MigrateRow(c, r, "");
    MigratedLateRow(c, publicKey, rows, r);
    var p := ReadPosition(rows, m);
    SplicedPrefix(rows, m, p, FETCH_LIMIT);
    GoodTableIsClean(c, publicKey, rows);
    if p < FETCH_LIMIT {
      CleanIffLinkedAndSigned(c, publicKey, rows + [m]);
      RestartBreaksChain(c, publicKey, rows, m, Fetched(rows + [m], FETCH_LIMIT), p);
    }
  }

  /** A chain that restarts inside a table, or in front of one, is broken. */
  lemma {:induction false} RestartBreaksChain(c: Crypto, publicKey: Option<string>, rows: seq<Row>, m: Row,
          read: seq<Row>, p: nat)
    requires NeverEmpty(c.hash) && GoodTable(c, publicKey, rows) && rows != [] && m.prevHash == "" && m.entryHash != ""
    requires p < |read| && p <= |rows| && read[p] == m
    requires p > 0 ==> read[p - 1] == rows[p - 1]
    requires p == 0 ==> |read| > 1 && read[1] == rows[0]
    ensures !(Complete(read) && Linked(c.hash, Entries(read)))
  {
    ChainLink(c.hash, rows, if p == 0 then 0 else p - 1);
    if Complete(read) && Linked(c.hash, Entries(read)) {
      ChainLink(c.hash, read, if p == 0 then 1 else p);
    }
  }

  lemma {:induction false} MigratedLateRow(c: Crypto, publicKey: Option<string>, rows: seq<Row>, r: Row)
    requires NeverEmpty(c.hash) && GoodTable(c, publicKey, rows) && Legacy(r)
    ensures Migrated(c, rows + [r]) == rows + [MigrateRow(c, r, "")]
  {
    assert (rows + [r])[..|rows|] == rows;
    OpeningGoodTable(c, publicKey, rows);
    GoodTableHasHashes(c, publicKey, rows);
    NothingMigrated(c, rows);
  }

  lemma {:induction false} NothingMigrated(c: Crypto, rows: seq<Row>)
    requires NoLegacy(rows)
    ensures LastMigrated(c, rows) == ""
  {
    if rows == [] {
    } else {
      NothingMigrated(c, rows[..|rows| - 1]);
    }
  }

  // ---------------------------------------------------------------- recording

  /** The condition a caller can check before recording. */
  predicate Recordable(c: Crypto, rows: seq<Row>, v: Verdict)
  {
    Plain(v.requiredCapability) && (rows == [] || rows[|rows| - 1].base.timestamp <= c.round6(v.timestamp))
  }

  /** The key on disk is the one rows are signed with, if rows are signed. */
  ghost predicate KeyUnchanged(c: Crypto, keys: Option<Keypair>, publicKey: Option<string>)
  {
    && NeverEmpty(c.hash) && RoundsMonotonically(c)
    && (keys.Some? ==> Sound(c, keys.value) && publicKey == Some(keys.value.publicKey))
  }

  lemma RecordedSignatureHolds(t: Text, c: Crypto, rows: seq<Row>, id: int, keys: Option<Keypair>,
          publicKey: Option<string>, v: Verdict)
    requires KeyUnchanged(c, keys, publicKey)
    ensures var r := RecordedRow(t, c, rows, id, keys, v);
      IsSigned(r) ==> publicKey.Some? && c.check(SignatureFields(r), r.signature.value, publicKey.value)
  {
  }

  lemma {:induction false} RecordedEntryLinks(t: Text, c: Crypto, publicKey: Option<string>, rows: seq<Row>, id: int,
          keys: Option<Keypair>, v: Verdict)
    requires GoodTable(c, publicKey, rows)
    ensures var r := RecordedRow(t, c, rows, id, keys, v);
      && Entries(rows + [r]) == Entries(rows) + [RowEntry(r)]
      && r.prevHash == LastHash(Entries(rows), "")
      && (Plain(v.requiredCapability) ==> r.entryHash == c.hash(EntryPreimage(RowEntry(r))))
  {
    var r := RecordedRow(t, c, rows, id, keys, v);
    EntriesOfComplete(rows);
    assert (rows + [r])[..|rows|] == rows;
  }

  /** A linked, correctly signed row that is not older than the newest one extends a good table. */
  lemma {:induction false} AppendKeepsGood(c: Crypto, publicKey: Option<string>, rows: seq<Row>, r: Row)
    requires GoodTable(c, publicKey, rows) && r.missing == []
    requires r.prevHash == LastHash(Entries(rows), "") && r.entryHash == c.hash(EntryPreimage(RowEntry(r)))
    requires IsSigned(r) ==> publicKey.Some? && c.check(SignatureFields(r), r.signature.value, publicKey.value)
    requires rows != [] ==> rows[|rows| - 1].base.timestamp <= r.base.timestamp
    ensures GoodTable(c, publicKey, rows + [r])
  {
    hide TimeOrdered, Complete, Linked, SignaturesHold, Entries, EntryPreimage;
    AppendOrdered(rows, r);
    AppendComplete(rows, r);
    AppendSigned(c, publicKey, rows, r);
    AppendLinked(c.hash, Entries(rows), RowEntry(r));
  }

  lemma {:induction false} AppendComplete(rows: seq<Row>, r: Row)
    requires Complete(rows) && r.missing == []
    ensures Complete(rows + [r]) && Entries(rows + [r]) == Entries(rows) + [RowEntry(r)]
  {
    hide RowEntry;
    assert (rows + [r])[..|rows|] == rows;
  }

  lemma {:induction false} AppendSigned(c: Crypto, publicKey: Option<string>, rows: seq<Row>, r: Row)
    requires SignaturesHold(c, publicKey, rows)
    requires IsSigned(r) ==> publicKey.Some? && c.check(SignatureFields(r), r.signature.value, publicKey.value)
    ensures SignaturesHold(c, publicKey, rows + [r])
  {
    hide SignatureFields;
  }

  lemma {:induction false} AppendOrdered(rows: seq<Row>, r: Row)
    requires TimeOrdered(rows) && (rows != [] ==> rows[|rows| - 1].base.timestamp <= r.base.timestamp)
    ensures TimeOrdered(rows + [r])
  {
  }

  lemma RecordingKeepsGood(t: Text, c: Crypto, rows: seq<Row>, id: int, keys: Option<Keypair>,
          publicKey: Option<string>, v: Verdict)
    requires KeyUnchanged(c, keys, publicKey)
    requires GoodTable(c, publicKey, rows) && Recordable(c, rows, v)
    ensures GoodTable(c, publicKey, rows + [RecordedRow(t, c, rows, id, keys, v)])
  {
    var r := RecordedRow(t, c, rows, id, keys, v);
    RecordedSignatureHolds(t, c, rows, id, keys, publicKey, v);
    RecordedEntryLinks(t, c, publicKey, rows, id, keys, v);
    AppendKeepsGood(c, publicKey, rows, r);
  }

  /** The entry as it was hashed when it was recorded, extended columns included. */
  function HashedEntry(r: Row): ChainEntry
  {
    RowEntry(r).(ext := r.ext)
  }

  /** Recording one more verdict on a good table leaves a table that verifies if and only if the capability
      text is plain and the clock did not run backwards, or the row is not read, unless entries at hand collide. */
  lemma {:induction false} RecordingCleanIff(t: Text, c: Crypto, rows: seq<Row>, id: int, keys: Option<Keypair>,
          publicKey: Option<string>, v: Verdict)
    requires KeyUnchanged(c, keys, publicKey) && GoodTable(c, publicKey, rows)
    requires var r := RecordedRow(t, c, rows, id, keys, v);
      CollisionFree(c.hash, Entries(rows + [r]) + [HashedEntry(r)])
    ensures Findings(c, rows + [RecordedRow(t, c, rows, id, keys, v)], publicKey) == []
            <==> Recordable(c, rows, v) || BeyondLimit(rows, c.round6(v.timestamp))
  {
    var r := RecordedRow(t, c, rows, id, keys, v);
    var p := ReadPosition(rows, r);
    SplicedPrefix(rows, r, p, FETCH_LIMIT);
    if Recordable(c, rows, v) {
      RecordingKeepsGood(t, c, rows, id, keys, publicKey, v);
      GoodTableIsClean(c, publicKey, rows + [r]);
    } else if p < FETCH_LIMIT {
      RecordedRowFits(t, c, rows, id, keys, v);
      ScarredTableFails(c, publicKey, publicKey, rows, r, rows + [r]);
    } else {
      GoodTableIsClean(c, publicKey, rows);
    }
  }

  /** A row as recording makes it: chained to the newest row, hashed with its extended columns. */
  predicate Chained(c: Crypto, rows: seq<Row>, r: Row)
  {
    && r.missing == [] && r.prevHash == PreviousHash(rows)
    && r.ext != NO_EXTENDED && r.entryHash == c.hash(EntryPreimage(HashedEntry(r)))
  }

  /** What makes a recorded row fail: its extended columns are not read as protected, or it is older than the newest. */
  predicate Scarred(rows: seq<Row>, r: Row)
  {
    || !UsesExtendedHashFields(r.ext.metadataJson)
    || (rows != [] && r.base.timestamp < rows[|rows| - 1].base.timestamp)
  }

  lemma RecordedRowFits(t: Text, c: Crypto, rows: seq<Row>, id: int, keys: Option<Keypair>, v: Verdict)
    ensures var r := RecordedRow(t, c, rows, id, keys, v);
      && Chained(c, rows, r) && (Scarred(rows, r) <==> !Recordable(c, rows, v))
      && r.base.timestamp == c.round6(v.timestamp)
  {
  }

  /** A table fails verification as long as it reads a scarred row that was recorded on a good table it contains,
      unless entries collide. */
  lemma {:induction false} ScarredTableFails(c: Crypto, publicKey: Option<string>, now: Option<string>,
          before: seq<Row>, r: Row, table: seq<Row>)
    requires NeverEmpty(c.hash) && GoodTable(c, publicKey, before) && Chained(c, before, r) && Scarred(before, r)
    requires before + [r] <= table && CollisionFree(c.hash, Entries(table) + [HashedEntry(r)])
    requires r in Fetched(table, FETCH_LIMIT)
    ensures Findings(c, table, now) != []
  {
    var read, es := Fetched(table, FETCH_LIMIT), Entries(table) + [HashedEntry(r)];
    CleanIffLinkedAndSigned(c, now, table);
    RowsReadAreStored(table);
    var k :| 0 <= k < |read| && read[k] == r;
    if !Complete(read) {
    } else if UsesExtendedHashFields(r.ext.metadataJson) {
      var b := before[|before| - 1];
      assert table[|before| - 1] == b;
      EntryOfRow(table, b);
      if k > 0 {
        assert read[k - 1] in read;
        EntryOfRow(table, read[k - 1]);
      }
      LateRowCannotFollow(c, publicKey, before, r, es, read, k);
    } else {
      EntryOfRow(table, r);
      assert es[|Entries(table)|] == HashedEntry(r);
      UnprotectedRowFails(c, r, es, read, k);
    }
  }

  /** A row hashed with its extended columns does not verify when they are not read as protected. */
  lemma {:induction false} UnprotectedRowFails(c: Crypto, r: Row, es: seq<ChainEntry>, read: seq<Row>, k: nat)
    requires r.ext != NO_EXTENDED && !UsesExtendedHashFields(r.ext.metadataJson)
    requires r.entryHash == c.hash(EntryPreimage(HashedEntry(r)))
    requires RowEntry(r) in es && HashedEntry(r) in es && CollisionFree(c.hash, es)
    requires k < |read| && read[k] == r
    ensures !(Complete(read) && Linked(c.hash, Entries(read)))
  {
    assert EntryPreimage(RowEntry(r)) != EntryPreimage(HashedEntry(r));
    if Complete(read) && Linked(c.hash, Entries(read)) {
      ChainOfLinked(c.hash, read);
    }
  }

  lemma RowsReadAreStored(table: seq<Row>)
    ensures TimeOrdered(Fetched(table, FETCH_LIMIT)) && forall x :: x in Fetched(table, FETCH_LIMIT) ==> x in table
  {
    ChronologicalSorts(table);
    forall x | x in Fetched(table, FETCH_LIMIT)
      ensures x in table
    {
      assert x in multiset(Chronological(table)) && x in multiset(table);
    }
  }

  lemma {:induction false} EntryOfRow(table: seq<Row>, r: Row)
    requires r in table && r.missing == []
    ensures RowEntry(r) in Entries(table)
  {
    var n := |table| - 1;
    if table[n] != r {
      assert table == table[..n] + [table[n]];
      EntryOfRow(table[..n], r);
    }
  }

  /** The row read before a late row is not newer than it, so it is not the row that the late one names. */
  lemma {:induction false} LateRowCannotFollow(c: Crypto, publicKey: Option<string>, before: seq<Row>, r: Row,
          es: seq<ChainEntry>, read: seq<Row>, k: nat)
    requires NeverEmpty(c.hash) && GoodTable(c, publicKey, before) && before != [] && r.prevHash == PreviousHash(before)
    requires RowEntry(before[|before| - 1]) in es && CollisionFree(c.hash, es)
    requires r.base.timestamp < before[|before| - 1].base.timestamp
    requires k < |read| && read[k] == r && TimeOrdered(read) && (k > 0 ==> RowEntry(read[k - 1]) in es)
    ensures !(Complete(read) && Linked(c.hash, Entries(read)))
  {
    var b := before[|before| - 1];
    ChainLink(c.hash, before, |before| - 1);
    if k > 0 {
      PreimageDeterminesFields(RowEntry(b), RowEntry(read[k - 1]));
      assert read[k - 1].base.timestamp <= read[k].base.timestamp;
    }
    if Complete(read) && Linked(c.hash, Entries(read)) {
      ChainLink(c.hash, read, k);
    }
  }

  // ---------------------------------------------------------------- whole runs

  /** Several loggers can share a table; each records with its own signing keys, or without. */
  datatype Op = Open | Record(keys: Option<Keypair>, v: Verdict) | Check

  datatype Table = Table(rows: seq<Row>, nextId: int)

  function Step(t: Text, c: Crypto, s: Table, op: Op): Table
  {
    match op
    case Open => Table(Migrated(c, s.rows), s.nextId)
    case Record(keys, v) => Table(s.rows + [RecordedRow(t, c, s.rows, s.nextId, keys, v)], s.nextId + 1)
    case Check => s
  }

  function Run(t: Text, c: Crypto, s: Table, ops: seq<Op>): Table
  {
    if ops == [] then s else Step(t, c, Run(t, c, s, ops[..|ops| - 1]), ops[|ops| - 1])
  }

  /** The clock reading of the last verdict recorded, `start` when there is none. */
  function LastReading(ops: seq<Op>, start: real): real
  {
    if ops == [] then start
    else if ops[|ops| - 1].Record? then ops[|ops| - 1].v.timestamp
    else LastReading(ops[..|ops| - 1], start)
  }

  /** The row of this operation, if it records one, will verify: the capability is plain, the clock, last read at
      `reading`, did not run backwards, and the key on disk is the one that signs. */
  ghost predicate Orderly(c: Crypto, publicKey: Option<string>, reading: real, op: Op)
  {
    op.Record? ==> Plain(op.v.requiredCapability) && reading <= op.v.timestamp && KeyUnchanged(c, op.keys, publicKey)
  }

  ghost predicate OrderlyRun(c: Crypto, publicKey: Option<string>, ops: seq<Op>, start: real)
  {
    forall i :: 0 <= i < |ops| ==> Orderly(c, publicKey, LastReading(ops[..i], start), ops[i])
  }

  function Verdicts(ops: seq<Op>): seq<Verdict>
  {
    if ops == [] then []
    else Verdicts(ops[..|ops| - 1]) + if ops[|ops| - 1].Record? then [ops[|ops| - 1].v] else []
  }

  /** After every run that mixes openings, recordings and checks, the table is good (so every check in the run
      is clean), the rows that were there are still there, and there is one new row per verdict. */
  lemma {:induction false} RunsStayClean(t: Text, c: Crypto, publicKey: Option<string>, s: Table, ops: seq<Op>,
          start: real)
    requires NeverEmpty(c.hash) && OrderlyRun(c, publicKey, ops, start)
    requires RunInvariant(c, publicKey, s, s, 0, start)
    ensures RunInvariant(c, publicKey, s, Run(t, c, s, ops), |Verdicts(ops)|, LastReading(ops, start))
    ensures Findings(c, Run(t, c, s, ops).rows, publicKey) == []
  {
    if ops == [] {
    } else {
      var n := |ops| - 1;
      OrderlyPrefix(c, publicKey, ops, start);
      RunsStayClean(t, c, publicKey, s, ops[..n], start);
      StepKeepsInvariant(t, c, publicKey, s, Run(t, c, s, ops[..n]), |Verdicts(ops[..n])|,
          LastReading(ops[..n], start), ops[n]);
    }
    GoodTableIsClean(c, publicKey, Run(t, c, s, ops).rows);
  }

  /** The same from a table of hash-less rows that can be migrated, the empty table among them: opened once, it
      stays clean through every later run. */
  lemma {:induction false} MigratedTableStaysClean(t: Text, c: Crypto, publicKey: Option<string>, s: Table,
          ops: seq<Op>, start: real)
    requires NeverEmpty(c.hash) && OrderlyRun(c, publicKey, ops, start)
    requires AllLegacy(s.rows) && TimeOrdered(s.rows) && forall i :: 0 <= i < |s.rows| ==> Migratable(c, s.rows[i])
    requires SignaturesHold(c, publicKey, Migrated(c, s.rows))
    requires s.rows != [] ==> s.rows[|s.rows| - 1].base.timestamp <= c.round6(start)
    ensures var first := Step(t, c, s, Open);
      && RunInvariant(c, publicKey, first, Run(t, c, first, ops), |Verdicts(ops)|, LastReading(ops, start))
      && Findings(c, Run(t, c, first, ops).rows, publicKey) == []
  {
    MigratedTableIsGood(c, publicKey, s.rows);
    MigratedKeepsColumns(c, s.rows);
    RunsStayClean(t, c, publicKey, Step(t, c, s, Open), ops, start);
  }

  /** The table is good, extends the first table by `recorded` rows, and is no newer than the last clock reading. */
  ghost predicate RunInvariant(c: Crypto, publicKey: Option<string>, first: Table, now: Table, recorded: nat,
          reading: real)
  {
    && GoodTable(c, publicKey, now.rows)
    && first.rows <= now.rows
    && |now.rows| == |first.rows| + recorded
    && now.nextId == first.nextId + recorded
    && (now.rows != [] ==> now.rows[|now.rows| - 1].base.timestamp <= c.round6(reading))
  }

  lemma {:induction false} OrderlyPrefix(c: Crypto, publicKey: Option<string>, ops: seq<Op>, start: real)
    requires OrderlyRun(c, publicKey, ops, start) && ops != []
    ensures OrderlyRun(c, publicKey, ops[..|ops| - 1], start)
    ensures Orderly(c, publicKey, LastReading(ops[..|ops| - 1], start), ops[|ops| - 1])
  {
    var front := ops[..|ops| - 1];
    forall i | 0 <= i < |front|
      ensures Orderly(c, publicKey, LastReading(front[..i], start), front[i])
    {
      assert front[..i] == ops[..i];
    }
  }

  lemma StepKeepsInvariant(t: Text, c: Crypto, publicKey: Option<string>, first: Table, s: Table, recorded: nat,
          reading: real, op: Op)
    requires NeverEmpty(c.hash) && Orderly(c, publicKey, reading, op)
    requires RunInvariant(c, publicKey, first, s, recorded, reading)
    ensures RunInvariant(c, publicKey, first, Step(t, c, s, op),
      if op.Record? then recorded + 1 else recorded, if op.Record? then op.v.timestamp else reading)
  {
    match op {
      case Open => OpeningGoodTable(c, publicKey, s.rows);
      case Check =>
      case Record(keys, v) => RecordKeepsInvariant(t, c, keys, publicKey, first, s, recorded, reading, v);
    }
  }

  lemma RecordKeepsInvariant(t: Text, c: Crypto, keys: Option<Keypair>, publicKey: Option<string>, first: Table,
          s: Table, recorded: nat, reading: real, v: Verdict)
    requires KeyUnchanged(c, keys, publicKey) && RunInvariant(c, publicKey, first, s, recorded, reading)
    requires Plain(v.requiredCapability) && reading <= v.timestamp
    ensures RunInvariant(c, publicKey, first, Step(t, c, s, Record(keys, v)), recorded + 1, v.timestamp)
  {
    hide GoodTable, RecordedRow, Plain;
    assert c.round6(reading) <= c.round6(v.timestamp);
    RecordingKeepsGood(t, c, s.rows, s.nextId, keys, publicKey, v);
    var r := RecordedRow(t, c, s.rows, s.nextId, keys, v);
    RecordedTime(t, c, s.rows, s.nextId, keys, v);
    assert (s.rows + [r])[|s.rows|] == r;
  }

  lemma RecordedTime(t: Text, c: Crypto, rows: seq<Row>, id: int, keys: Option<Keypair>, v: Verdict)
    ensures RecordedRow(t, c, rows, id, keys, v).base.timestamp == c.round6(v.timestamp)
  {
  }

  // ---------------------------------------------------------------- after a bad row

  /** Rows with hashes stay as they are through every run. */
  lemma {:induction false} RowsStay(t: Text, c: Crypto, s: Table, ops: seq<Op>)
    requires NeverEmpty(c.hash) && NoLegacy(s.rows)
    ensures s.rows <= Run(t, c, s, ops).rows && NoLegacy(Run(t, c, s, ops).rows)
  {
    if ops == [] {
    } else {
      var n := |ops| - 1;
      RowsStay(t, c, s, ops[..n]);
      NothingToMigrate(c, Run(t, c, s, ops[..n]).rows);
    }
  }

  /** Once a verdict was recorded that does not verify, no later run repairs the log: as long as its row is read,
      verification fails under every key, unless entries collide. */
  lemma {:induction false} BrokenForGood(t: Text, c: Crypto, keys: Option<Keypair>, publicKey: Option<string>,
          now: Option<string>, s: Table, v: Verdict, ops: seq<Op>)
    requires NeverEmpty(c.hash) && GoodTable(c, publicKey, s.rows) && !Recordable(c, s.rows, v)
    requires var r, table := RecordedRow(t, c, s.rows, s.nextId, keys, v),
            Run(t, c, Step(t, c, s, Record(keys, v)), ops).rows;
      r in Fetched(table, FETCH_LIMIT) && CollisionFree(c.hash, Entries(table) + [HashedEntry(r)])
    ensures Findings(c, Run(t, c, Step(t, c, s, Record(keys, v)), ops).rows, now) != []
  {
    var r := RecordedRow(t, c, s.rows, s.nextId, keys, v);
    RecordedRowFits(t, c, s.rows, s.nextId, keys, v);
    GoodTableHasHashes(c, publicKey, s.rows);
    RowsStay(t, c, Step(t, c, s, Record(keys, v)), ops);
    ScarredTableFails(c, publicKey, now, s.rows, r, Run(t, c, Step(t, c, s, Record(keys, v)), ops).rows);
  }
}
