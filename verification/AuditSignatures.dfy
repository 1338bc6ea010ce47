/** What signing audit entries adds to chaining them: capfence/core/audit.py:158-161, 232-286. */
module AuditSignatures {
  import opened Json
  import opened Chain
  import opened Events
  import opened Audit
  import opened AuditRuns

  // ---------------------------------------------------------------- recorded rows are signed

  /** The scheme never signs with the empty text, which verification takes for no signature. */
  ghost predicate NeverBlank(c: Crypto, keys: Keypair)
  {
    forall m :: c.sign(m, keys.privateKey) != ""
  }

  /** A row as a logger with these keys leaves it: without a signature, or with one that passes under its public key. */
  ghost predicate SignedBy(c: Crypto, keys: Option<Keypair>, r: Row)
  {
    match keys
    case None => r.signature == None
    case Some(k) =>
      && r.signature.Some? && c.check(SignatureFields(r), r.signature.value, k.publicKey)
      && (NeverBlank(c, k) ==> IsSigned(r))
  }

  lemma RecordedRowIsSigned(t: Text, c: Crypto, rows: seq<Row>, id: int, keys: Option<Keypair>, v: Verdict)
    requires keys.Some? ==> Sound(c, keys.value)
    ensures SignedBy(c, keys, RecordedRow(t, c, rows, id, keys, v))
  {
  }

  /** The keys of the loggers that recorded, in order. */
  function Signers(ops: seq<Op>): seq<Option<Keypair>>
  {
    if ops == [] then []
    else Signers(ops[..|ops| - 1]) + if ops[|ops| - 1].Record? then [ops[|ops| - 1].keys] else []
  }

  ghost predicate SoundKeys(c: Crypto, ops: seq<Op>)
  {
    forall i :: 0 <= i < |ops| && ops[i].Record? && ops[i].keys.Some? ==> Sound(c, ops[i].keys.value)
  }

  /** The rows from position `first` on are signed by these keys, one each, and have hashes. */
  ghost predicate RowsSigned(c: Crypto, rows: seq<Row>, first: nat, signers: seq<Option<Keypair>>)
  {
    && |rows| == first + |signers|
    && forall i :: first <= i < |rows| ==> !Legacy(rows[i]) && SignedBy(c, signers[i - first], rows[i])
  }

  /** In every run, from any table, each row that is recorded is signed exactly if its logger signs, and its signature
      passes under the key of that logger, whatever else is opened, recorded and checked. */
  lemma {:induction false} RecordedRowsAreSigned(t: Text, c: Crypto, s: Table, ops: seq<Op>)
    requires NeverEmpty(c.hash) && SoundKeys(c, ops)
    ensures RowsSigned(c, Run(t, c, s, ops).rows, |s.rows|, Signers(ops))
  {
    hide SignedBy, RecordedRow, Legacy, Migrated, Sound;
    if ops == [] {
    } else {
      var n := |ops| - 1;
      assert forall i :: 0 <= i < n ==> ops[..n][i] == ops[i];
      RecordedRowsAreSigned(t, c, s, ops[..n]);
      var was := Run(t, c, s, ops[..n]);
      match ops[n] {
        case Open => MigrationKeepsSigned(c, was.rows, |s.rows|, Signers(ops[..n]));
        case Record(keys, v) =>
          RecordedRowIsSigned(t, c, was.rows, was.nextId, keys, v);
          RecordedRowHasHash(t, c, was.rows, was.nextId, keys, v);
        case Check =>
      }
    }
  }

  lemma RecordedRowHasHash(t: Text, c: Crypto, rows: seq<Row>, id: int, keys: Option<Keypair>, v: Verdict)
    requires NeverEmpty(c.hash)
    ensures !Legacy(RecordedRow(t, c, rows, id, keys, v))
  {
  }

  lemma {:induction false} MigrationKeepsSigned(c: Crypto, rows: seq<Row>, first: nat, signers: seq<Option<Keypair>>)
    requires RowsSigned(c, rows, first, signers)
    ensures RowsSigned(c, Migrated(c, rows), first, signers)
  {
    hide SignedBy, Migrated, Legacy;
    forall i | first <= i < |rows|
      ensures Migrated(c, rows)[i] == rows[i]
    {
      MigratedAt(c, rows, i);
    }
  }

  // ---------------------------------------------------------------- what verification names

  /** The row has a signature that is not empty, and it does not pass for the columns and hashes of the row. */
  predicate FailsCheck(c: Crypto, publicKey: string, r: Row)
  {
    && r.signature !in {None, Some("")}
    && !c.check(Signed(r.base, if r.ext == NO_EXTENDED then None else Some(r.ext), r.prevHash, r.entryHash),
                r.signature.value, publicKey)
  }

  /** The findings name each chain error of the rows read, each of these rows by id whose signature fails, and a missing
      key if one of them is signed; and nothing else. */
  lemma {:induction false} FindingsName(c: Crypto, rows: seq<Row>, publicKey: Option<string>, finding: AuditError)
    ensures var read := Fetched(rows, FETCH_LIMIT);
      finding in Findings(c, rows, publicKey) <==>
        match finding
        case ChainFault(e) => e in RowErrors(c.hash, read)
        case NoPublicKey => publicKey == None && exists r :: r in read && r.signature !in {None, Some("")}
        case BadSignature(id) =>
          publicKey.Some? && exists r :: r in read && r.id == id && FailsCheck(c, publicKey.value, r)
  {
    hide Fetched, RowErrors;
    var read := Fetched(rows, FETCH_LIMIT);
    assert forall r :: IsSigned(r) <==> r.signature !in {None, Some("")};
    FaultsWrapped(RowErrors(c.hash, read), finding);
    if publicKey.Some? {
      FailuresNamed(c, publicKey.value, read, finding);
    }
  }

  lemma {:induction false} FaultsWrapped(errors: seq<ChainError>, finding: AuditError)
    ensures finding in ChainFaults(errors) <==> finding.ChainFault? && finding.e in errors
  {
    if errors == [] {
    } else {
      FaultsWrapped(errors[..|errors| - 1], finding);
      assert errors == errors[..|errors| - 1] + [errors[|errors| - 1]];
    }
  }

  lemma {:induction false} FailuresNamed(c: Crypto, key: string, rows: seq<Row>, finding: AuditError)
    ensures finding in SignatureFaults(c, key, rows) <==>
      finding.BadSignature? && exists r :: r in rows && r.id == finding.id && FailsCheck(c, key, r)
  {
    assert forall r :: SignatureHolds(c, key, r) <==> !FailsCheck(c, key, r);
    hide SignatureHolds, FailsCheck;
    if rows == [] {
    } else {
      FailuresNamed(c, key, rows[..|rows| - 1], finding);
      assert rows == rows[..|rows| - 1] + [rows[|rows| - 1]];
    }
  }

  // ---------------------------------------------------------------- what a signature covers

  /** A signature covers all columns of a row and both its hashes; only the id is not part of it. */
  lemma SignatureCovers(a: Row, b: Row)
    ensures SignatureFields(a) == SignatureFields(b)
            <==> a.base == b.base && a.ext == b.ext && a.prevHash == b.prevHash && a.entryHash == b.entryHash
  {
  }

  /** The signature of the row passes for nothing but what it was made for. */
  ghost predicate Binds(c: Crypto, publicKey: string, r: Row)
  {
    IsSigned(r) && forall m :: c.check(m, r.signature.value, publicKey) ==> m == SignatureFields(r)
  }

  /** One signed row vouches for the whole log before it: where a table that verifies reads a row with the signature
      of row `k` of a good log, it is row `k`, and it and all rows before it are as they were in all that is protected,
      unless that signature passes for something else or entries collide. */
  lemma {:induction false} SignedRowVouches(c: Crypto, publicKey: Option<string>, rows: seq<Row>, k: nat,
          table: seq<Row>, j: nat)
    requires NeverEmpty(c.hash) && publicKey.Some? && GoodTable(c, publicKey, rows)
    requires k < |rows| && Binds(c, publicKey.value, rows[k])
    requires var read := Fetched(table, FETCH_LIMIT);
      && j < |read| && read[j].signature == rows[k].signature
      && CollisionFree(c.hash, Entries(rows) + Entries(read))
    requires Findings(c, table, publicKey) == []
    ensures var read := Fetched(table, FETCH_LIMIT);
      && j == k && read[k].(id := rows[k].id) == rows[k]
      && forall i :: 0 <= i <= k ==> SameRowProtected(read[i], rows[i])
  {
    hide EntryPreimage, CollisionFree, TimeOrdered, SameRowProtected, Findings, Linked, Entries, Fetched;
    var read := Fetched(table, FETCH_LIMIT);
    CleanIffLinkedAndSigned(c, publicKey, table);
    SameSignature(c, publicKey, rows[k], read, j);
    SameUpTo(c.hash, rows, k, read, j);
  }

  /** A row that carries a signature which passes for one row only is that row. */
  lemma {:induction false} SameSignature(c: Crypto, publicKey: Option<string>, r: Row, read: seq<Row>, j: nat)
    requires publicKey.Some? && Binds(c, publicKey.value, r) && SignaturesHold(c, publicKey, read)
    requires j < |read| && read[j].signature == r.signature && read[j].missing == r.missing
    ensures read[j].(id := r.id) == r
  {
    hide SignatureFields;
    assert read[j] in read;
    SignatureCovers(read[j], r);
  }

  /** Two chains that meet in one hash are the same up to there. */
  lemma {:induction false} SameUpTo(H: Digest, rows: seq<Row>, k: nat, read: seq<Row>, j: nat)
    requires NeverEmpty(H) && Complete(rows) && Linked(H, Entries(rows)) && Complete(read) && Linked(H, Entries(read))
    requires CollisionFree(H, Entries(rows) + Entries(read))
    requires k < |rows| && j < |read| && read[j].entryHash == rows[k].entryHash
    ensures j == k && forall i :: 0 <= i <= k ==> SameRowProtected(read[i], rows[i])
  {
    hide EntryPreimage, CollisionFree, SameRowProtected, Linked, Entries;
    PrefixIsClean(H, read, j + 1);
    PrefixIsClean(H, rows, k + 1);
    FewerCollide(H, Entries(rows), Entries(read), k + 1, j + 1);
    RowTamperEvidence(H, rows[..k + 1], read[..j + 1]);
    forall i | 0 <= i <= k
      ensures SameRowProtected(read[i], rows[i])
    {
      assert SameRowProtected(rows[..k + 1][i], read[..j + 1][i]);
      ProtectedBothWays(rows[i], read[i]);
    }
  }

  lemma ProtectedBothWays(a: Row, b: Row)
    requires SameRowProtected(a, b)
    ensures SameRowProtected(b, a)
  {
  }

  lemma {:induction false} PrefixIsClean(H: Digest, rows: seq<Row>, n: nat)
    requires Complete(rows) && Linked(H, Entries(rows)) && n <= |rows|
    ensures RowErrors(H, rows[..n]) == [] && |Entries(rows)| == |rows| && Entries(rows[..n]) == Entries(rows)[..n]
    ensures n > 0 ==> LastHash(Entries(rows[..n]), "") == rows[n - 1].entryHash
  {
    hide EntryPreimage;
    EntriesOfComplete(rows);
    EntriesOfPrefix(rows, n);
    PrefixLinked(H, Entries(rows), n);
    CleanRows(H, rows[..n]);
  }

  lemma FewerCollide(H: Digest, a: seq<ChainEntry>, b: seq<ChainEntry>, m: nat, n: nat)
    requires CollisionFree(H, a + b) && m <= |a| && n <= |b|
    ensures CollisionFree(H, a[..m] + b[..n])
  {
    assert forall e :: e in a[..m] + b[..n] ==> e in a + b;
  }

  // ---------------------------------------------------------------- a log that is written anew

  function Rehash(c: Crypto, r: Row, prev: string): Row
  {
    var linked := r.(prevHash := prev);
    linked.(entryHash := c.hash(EntryPreimage(RowEntry(linked))))
  }

  /** The table with all links and hashes computed again. */
  function Rehashed(c: Crypto, rows: seq<Row>): (h: seq<Row>)
    ensures |h| == |rows|
  {
    if rows == [] then []
    else
      var front := Rehashed(c, rows[..|rows| - 1]);
      front + [Rehash(c, rows[|rows| - 1], PreviousHash(front))]
  }

  lemma {:induction false} RehashedAt(c: Crypto, rows: seq<Row>, i: nat)
    requires i < |rows|
    ensures var h := Rehashed(c, rows); h[i] == Rehash(c, rows[i], if i == 0 then "" else h[i - 1].entryHash)
  {
    hide Rehash;
    if i < |rows| - 1 {
      RehashedAt(c, rows[..|rows| - 1], i);
    }
  }

  lemma RehashFits(c: Crypto, r: Row, prev: string)
    ensures var h := Rehash(c, r, prev);
      && h.prevHash == prev && h.entryHash == c.hash(EntryPreimage(RowEntry(h)))
      && h.missing == r.missing && h.base == r.base && h.ext == r.ext && h.signature == r.signature
  {
  }

  lemma {:induction false} RehashedKeeps(c: Crypto, rows: seq<Row>)
    requires Complete(rows)
    ensures Complete(Rehashed(c, rows))
    ensures forall i :: 0 <= i < |rows| ==> Rehashed(c, rows)[i].base == rows[i].base
    ensures forall i :: 0 <= i < |rows| ==> Rehashed(c, rows)[i].signature == rows[i].signature
  {
    hide Rehash;
    var h := Rehashed(c, rows);
    forall i | 0 <= i < |rows|
      ensures h[i].missing == [] && h[i].base == rows[i].base && h[i].signature == rows[i].signature
    {
      RehashedAt(c, rows, i);
      RehashFits(c, rows[i], if i == 0 then "" else h[i - 1].entryHash);
    }
  }

  lemma {:induction false} RehashedIsLinked(c: Crypto, rows: seq<Row>)
    requires Complete(rows)
    ensures Complete(Rehashed(c, rows)) && Linked(c.hash, Entries(Rehashed(c, rows)))
  {
    hide EntryPreimage, Rehash, Rehashed;
    var h := Rehashed(c, rows);
    RehashedKeeps(c, rows);
    EntriesOfComplete(h);
    forall i | 0 <= i < |rows|
      ensures LinkedAt(c.hash, Entries(h), i)
    {
      RehashedAt(c, rows, i);
      RehashFits(c, rows[i], if i == 0 then "" else h[i - 1].entryHash);
      RowLinks(c.hash, h, i);
    }
  }

  lemma {:induction false} RowLinks(H: Digest, rows: seq<Row>, i: nat)
    requires Complete(rows) && i < |rows|
    requires rows[i].prevHash == (if i == 0 then "" else rows[i - 1].entryHash)
    requires rows[i].entryHash == H(EntryPreimage(RowEntry(rows[i])))
    ensures |Entries(rows)| == |rows| && LinkedAt(H, Entries(rows), i)
  {
    EntriesOfComplete(rows);
    assert i > 0 ==> Entries(rows)[..i][i - 1] == RowEntry(rows[i - 1]);
    assert EntryPreimage(Entries(rows)[i]) == EntryPreimage(RowEntry(rows[i]));
    hide EntryPreimage;
  }

  /** Chaining alone does not hold a log together: complete rows in time order, whatever is in them, verify once all
      hashes are computed again, if and only if every signature that is read with them passes for what it is then
      next to. */
  lemma {:induction false} RehashedVerifiesIff(c: Crypto, publicKey: Option<string>, rows: seq<Row>)
    requires Complete(rows) && TimeOrdered(rows)
    ensures Findings(c, Rehashed(c, rows), publicKey) == []
            <==> SignaturesHold(c, publicKey, Prefix(Rehashed(c, rows), FETCH_LIMIT))
  {
    hide Findings, SignaturesHold, Linked;
    var h := Rehashed(c, rows);
    RehashedIsLinked(c, rows);
    RehashedInOrder(c, rows);
    ChronologicalKeepsOrder(h);
    CleanIffLinkedAndSigned(c, publicKey, h);
    var n := |Prefix(h, FETCH_LIMIT)|;
    assert Prefix(h, FETCH_LIMIT) == h[..n];
    EntriesOfPrefix(h, n);
    EntriesOfComplete(h);
    PrefixLinked(c.hash, Entries(h), n);
  }

  lemma {:induction false} RehashedInOrder(c: Crypto, rows: seq<Row>)
    requires Complete(rows) && TimeOrdered(rows)
    ensures TimeOrdered(Rehashed(c, rows))
  {
    RehashedKeeps(c, rows);
  }

  /** A linked log is as it is when its hashes are computed again. */
  lemma {:induction false} RehashedLinked(c: Crypto, rows: seq<Row>, n: nat)
    requires Complete(rows) && Linked(c.hash, Entries(rows)) && n <= |rows|
    ensures Rehashed(c, rows[..n]) == rows[..n]
  {
    hide EntryPreimage, RowEntry, Entries, Linked;
    if n > 0 {
      RehashedLinked(c, rows, n - 1);
      ChainLink(c.hash, rows, n - 1);
      assert rows[..n][..n - 1] == rows[..n - 1];
    }
  }

  /** Two chains whose rows `k` differ in what is protected carry different hashes from there on, unless entries
      collide. */
  lemma {:induction false} DifferenceSpreads(H: Digest, a: seq<Row>, b: seq<Row>, k: nat, j: nat)
    requires Complete(a) && Linked(H, Entries(a)) && Complete(b) && Linked(H, Entries(b))
    requires k <= j < |a| && j < |b| && !SameRowProtected(a[k], b[k])
    requires CollisionFree(H, Entries(a) + Entries(b))
    ensures a[j].entryHash != b[j].entryHash
  {
    hide EntryPreimage, CollisionFree, Linked, Entries;
    if j > k {
      DifferenceSpreads(H, a, b, k, j - 1);
      DifferentLinks(H, a, b, j);
    }
    ChainLink(H, a, j);
    ChainLink(H, b, j);
    EntryOfRow(a, a[j]);
    EntryOfRow(b, b[j]);
    DifferentHashes(H, Entries(a) + Entries(b), a[j], b[j]);
  }

  lemma {:induction false} DifferentLinks(H: Digest, a: seq<Row>, b: seq<Row>, j: nat)
    requires Complete(a) && Linked(H, Entries(a)) && Complete(b) && Linked(H, Entries(b))
    requires 0 < j < |a| && j < |b| && a[j - 1].entryHash != b[j - 1].entryHash
    ensures !SameRowProtected(a[j], b[j])
  {
    hide EntryPreimage, Linked, Entries;
    ChainLink(H, a, j);
    ChainLink(H, b, j);
  }

  lemma DifferentHashes(H: Digest, es: seq<ChainEntry>, a: Row, b: Row)
    requires CollisionFree(H, es) && RowEntry(a) in es && RowEntry(b) in es && !SameRowProtected(a, b)
    ensures H(EntryPreimage(RowEntry(a))) != H(EntryPreimage(RowEntry(b)))
  {
    hide RowEntry, EntryPreimage;
    RowProtection(a, b);
    PreimageDeterminesFields(RowEntry(a), RowEntry(b));
  }

  /** Row `j` of the log in which row `k` was edited and everything was hashed again: rows before the edit are as they
      were, and from the edit on no row keeps what was signed for it. */
  lemma {:induction false} EditChangesWhatIsSigned(c: Crypto, rows: seq<Row>, k: nat, edited: Row, j: nat)
    requires Complete(rows) && Linked(c.hash, Entries(rows)) && k < |rows| && j < |rows|
    requires edited.missing == [] && !SameRowProtected(Rehash(c, edited, rows[k].prevHash), rows[k])
    requires CollisionFree(c.hash, Entries(Rehashed(c, rows[k := edited])) + Entries(rows))
    ensures var h := Rehashed(c, rows[k := edited])[j];
      if j < k then h == rows[j] else h.entryHash != rows[j].entryHash && SignatureFields(h) != SignatureFields(rows[j])
  {
    hide EntryPreimage, CollisionFree, Linked, Entries, Rehash;
    var after := Rehashed(c, rows[k := edited]);
    RehashedIsLinked(c, rows[k := edited]);
    BeforeTheEdit(c, rows, k, edited);
    if j < k {
      assert after[..k][j] == rows[..k][j];
    } else {
      DifferenceSpreads(c.hash, after, rows, k, j);
    }
  }

  lemma {:induction false} BeforeTheEdit(c: Crypto, rows: seq<Row>, k: nat, edited: Row)
    requires Complete(rows) && Linked(c.hash, Entries(rows)) && k < |rows|
    ensures Rehashed(c, rows[k := edited])[..k] == rows[..k]
    ensures Rehashed(c, rows[k := edited])[k] == Rehash(c, edited, rows[k].prevHash)
  {
    hide Rehash;
    var after, all := Rehashed(c, rows[k := edited]), rows[k := edited];
    assert all[..k] == rows[..k];
    RehashedLinked(c, rows, k);
    RehashedPrefix(c, all, k);
    RehashedAt(c, all, k);
    ChainLink(c.hash, rows, k);
    assert k > 0 ==> after[..k][k - 1] == rows[..k][k - 1];
  }

  lemma {:induction false} RehashedPrefix(c: Crypto, rows: seq<Row>, n: nat)
    requires n <= |rows|
    ensures Rehashed(c, rows)[..n] == Rehashed(c, rows[..n])
  {
    hide Rehash;
    if n < |rows| {
      RehashedPrefix(c, rows[..|rows| - 1], n);
      assert rows[..|rows| - 1][..n] == rows[..n];
    } else {
      assert rows[..n] == rows;
    }
  }

  /** Editing protected columns of a row that is read, and computing all the hashes again, is found out if and only if
      some row from the edited one on is read whose signature, kept as it was, does not pass for what is in its place
      now, which is never what it was made for, unless entries collide. */
  lemma {:induction false} EditedLogVerifiesIff(c: Crypto, publicKey: Option<string>, rows: seq<Row>, k: nat,
          edited: Row)
    requires GoodTable(c, publicKey, rows) && k < |rows| && TimeOrdered(rows[k := edited])
    requires edited.missing == [] && !SameRowProtected(Rehash(c, edited, rows[k].prevHash), rows[k])
    requires CollisionFree(c.hash, Entries(Rehashed(c, rows[k := edited])) + Entries(rows))
    ensures Findings(c, Rehashed(c, rows[k := edited]), publicKey) == []
            <==> forall j :: k <= j < |rows| && j < FETCH_LIMIT ==>
                   KeptSignaturePasses(c, publicKey, rows, k, edited, j)
  {
    hide Findings, SignatureFields, EntryPreimage, CollisionFree, Rehash, TimeOrdered, SameRowProtected, Linked;
    hide SignaturesHold, Rehashed, Entries, IsSigned;
    var after, all := Rehashed(c, rows[k := edited]), rows[k := edited];
    assert Complete(all);
    RehashedVerifiesIff(c, publicKey, all);
    var read := Prefix(after, FETCH_LIMIT);
    RowByRow(c, publicKey, read);
    RowByRow(c, publicKey, rows);
    forall j | 0 <= j < |read|
      ensures j < k ==> read[j] == rows[j]
      ensures j >= k ==> (KeptSignaturePasses(c, publicKey, rows, k, edited, j) <==> Passes(c, publicKey, read[j]))
    {
      EditChangesWhatIsSigned(c, rows, k, edited, j);
    }
  }

  predicate Passes(c: Crypto, publicKey: Option<string>, r: Row)
  {
    IsSigned(r) ==> publicKey.Some? && c.check(SignatureFields(r), r.signature.value, publicKey.value)
  }

  lemma {:induction false} RowByRow(c: Crypto, publicKey: Option<string>, rows: seq<Row>)
    ensures SignaturesHold(c, publicKey, rows) <==> forall j :: 0 <= j < |rows| ==> Passes(c, publicKey, rows[j])
  {
    hide IsSigned, SignatureFields;
    if SignaturesHold(c, publicKey, rows) {
      forall j | 0 <= j < |rows|
        ensures Passes(c, publicKey, rows[j])
      {
        assert rows[j] in rows;
      }
    }
  }

  /** Row `j` is unsigned, or its signature passes for other columns or hashes than those it was made for. */
  ghost predicate KeptSignaturePasses(c: Crypto, publicKey: Option<string>, rows: seq<Row>, k: nat, edited: Row, j: nat)
    requires k < |rows| && j < |rows|
  {
    var now := Rehashed(c, rows[k := edited])[j];
    IsSigned(now) ==>
      && publicKey.Some? && c.check(SignatureFields(now), now.signature.value, publicKey.value)
      && SignatureFields(now) != SignatureFields(rows[j])
  }
}
