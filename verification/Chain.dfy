/** The hash-chain verifier of capfence/core/chain.py.

    SHA-256 over canonical JSON is a function `H` on the values the JSON text stands for. Nothing is
    assumed of it except that a digest is never the empty string. Where the source relies on collision
    resistance, a lemma asks that no two entries at hand collide; read the other way round, it finds
    the collision among those entries. */
module Chain {
  import opened Json

  /** The stored metadata text, seen through `json.loads`: the compact sorted-key text of a value with
      `ensure_ascii=False`, the text of a value with characters escaped, or any other text. */
  datatype JsonText = Compact(value: Canonical) | Escaped(value: Canonical) | Other(text: string)

  /** The ten fields that every entry hash covers. */
  datatype Base = Base(
    agentId: string, taskContext: Option<string>, riskCategory: Option<string>, decision: string,
    riskScore: Option<real>, threshold: Option<real>, payloadHash: Option<string>,
    reason: Option<string>, latencyMs: Option<int>, timestamp: real)

  /** The nine fields that are covered only when some of them is present. */
  datatype Extended = Extended(
    actor: Option<string>, action: Option<string>, resource: Option<string>, environment: Option<string>,
    capability: Option<string>, approvalState: Option<string>, policyDecision: Option<string>,
    executionResult: Option<string>, metadataJson: Option<JsonText>)

  const NO_EXTENDED := Extended(None, None, None, None, None, None, None, None, None)

  datatype ChainEntry = ChainEntry(id: int, base: Base, ext: Extended, prevHash: string, entryHash: string)

  /** What `compute_entry_hash` serialises: the fields and the previous hash. */
  datatype Preimage = Preimage(base: Base, ext: Option<Extended>, prevHash: string)

  type Digest = Preimage -> string

  datatype ChainError =
    | PrevMismatch(id: int, index: nat, expected: string, got: string)
    | HashMismatch(id: int, index: nat, expected: string, got: string)
    | MissingKeys(row: nat, keys: seq<Column>)

  datatype Column = Id | AgentId | Decision | Timestamp

  function EntryPreimage(e: ChainEntry): Preimage
  {
    Preimage(e.base, if e.ext == NO_EXTENDED then None else Some(e.ext), e.prevHash)
  }

  // ---------------------------------------------------------------- the verifier

  function EntryErrors(H: Digest, e: ChainEntry, i: nat, prev: string): seq<ChainError>
  {
    (if e.prevHash != prev then [PrevMismatch(e.id, i, prev, e.prevHash)] else [])
    + (if e.entryHash != H(EntryPreimage(e)) then [HashMismatch(e.id, i, H(EntryPreimage(e)), e.entryHash)] else [])
  }

  /** The errors of `es` when they start at index `i` and follow an entry hash `prev`. */
  function Errors(H: Digest, es: seq<ChainEntry>, i: nat, prev: string): seq<ChainError>
  {
    if es == [] then []
    else EntryErrors(H, es[0], i, prev) + Errors(H, es[1..], i + 1, es[0].entryHash)
  }

  function LastHash(es: seq<ChainEntry>, prev: string): string
  {
    if es == [] then prev else es[|es| - 1].entryHash
  }

  method VerifyChain(H: Digest, entries: seq<ChainEntry>) returns (valid: bool, errors: seq<ChainError>)
    ensures errors == Errors(H, entries, 0, "")
    ensures valid <==> Linked(H, entries)
  {
    errors := [];
    var prevHash := "";
    for i := 0 to |entries|
      invariant prevHash == LastHash(entries[..i], "")
      invariant errors == Errors(H, entries[..i], 0, "")
    {
      var entry := entries[i];
      ghost var before := errors;
      if entry.prevHash != prevHash {
        errors := errors + [PrevMismatch(entry.id, i, prevHash, entry.prevHash)];
      }
      var expected := H(EntryPreimage(entry));
      if entry.entryHash != expected {
        errors := errors + [HashMismatch(entry.id, i, expected, entry.entryHash)];
      }
      assert errors == before + EntryErrors(H, entry, i, prevHash);
      assert entries[..i + 1] == entries[..i] + [entry];
      ErrorsSnoc(H, entries[..i], entry);
      prevHash := entry.entryHash;
    }
    assert entries[..|entries|] == entries;
    NoErrorsIffLinked(H, entries);
    valid := |errors| == 0;
  }

  /** What a valid log means: every entry names the hash before it and carries its own hash. */
  ghost predicate Linked(H: Digest, es: seq<ChainEntry>)
  {
    forall i :: 0 <= i < |es| ==> LinkedAt(H, es, i)
  }

  ghost predicate LinkedAt(H: Digest, es: seq<ChainEntry>, i: nat)
    requires i < |es|
  {
    es[i].prevHash == LastHash(es[..i], "") && es[i].entryHash == H(EntryPreimage(es[i]))
  }

  ghost predicate NeverEmpty(H: Digest)
  {
    forall p :: H(p) != ""
  }

  /** No two of these entries hash different contents to the same digest. */
  ghost predicate CollisionFree(H: Digest, es: seq<ChainEntry>)
  {
    forall x, y :: x in es && y in es && H(EntryPreimage(x)) == H(EntryPreimage(y)) ==>
      EntryPreimage(x) == EntryPreimage(y)
  }

  /** Everything the hash of an entry protects; the row id is not part of it. */
  predicate SameProtected(a: ChainEntry, b: ChainEntry)
  {
    a.base == b.base && a.ext == b.ext && a.prevHash == b.prevHash
  }

  lemma PreimageDeterminesFields(a: ChainEntry, b: ChainEntry)
    ensures EntryPreimage(a) == EntryPreimage(b) <==> SameProtected(a, b)
  {
  }

  // ---------------------------------------------------------------- the verifier as a fold

  lemma {:induction false} ErrorsCompose(H: Digest, a: seq<ChainEntry>, b: seq<ChainEntry>, i: nat, prev: string)
    ensures Errors(H, a + b, i, prev) == Errors(H, a, i, prev) + Errors(H, b, i + |a|, LastHash(a, prev))
  {
    if a == [] {
      assert a + b == b;
    } else {
      var first, rest := EntryErrors(H, a[0], i, prev), a[1..];
      var hash := a[0].entryHash;
      calc {
        Errors(H, a + b, i, prev);
      ==  { assert (a + b)[0] == a[0] && (a + b)[1..] == rest + b; }
        first + Errors(H, rest + b, i + 1, hash);
      ==  { ErrorsCompose(H, rest, b, i + 1, hash); }
        first + (Errors(H, rest, i + 1, hash) + Errors(H, b, i + |a|, LastHash(rest, hash)));
      ==  { assert LastHash(rest, hash) == LastHash(a, prev); }
        (first + Errors(H, rest, i + 1, hash)) + Errors(H, b, i + |a|, LastHash(a, prev));
      }
    }
  }

  lemma {:induction false} ErrorsSnoc(H: Digest, es: seq<ChainEntry>, e: ChainEntry)
    ensures Errors(H, es + [e], 0, "") == Errors(H, es, 0, "") + EntryErrors(H, e, |es|, LastHash(es, ""))
  {
    ErrorsCompose(H, es, [e], 0, "");
    assert Errors(H, [e], |es|, LastHash(es, "")) == EntryErrors(H, e, |es|, LastHash(es, ""));
  }

  lemma {:induction false} NoErrorsIffLinked(H: Digest, es: seq<ChainEntry>)
    ensures Errors(H, es, 0, "") == [] <==> Linked(H, es)
  {
    if es == [] {
    } else {
      var n := |es| - 1;
      var front := es[..n];
      assert es == front + [es[n]];
      NoErrorsIffLinked(H, front);
      ErrorsSnoc(H, front, es[n]);
      assert forall i :: 0 <= i < n ==> front[..i] == es[..i] && (LinkedAt(H, front, i) <==> LinkedAt(H, es, i));
      assert Linked(H, es) <==> Linked(H, front) && LinkedAt(H, es, n);
    }
  }

  /** Cutting off the newest entries of a valid log leaves a valid log. */
  lemma PrefixLinked(H: Digest, es: seq<ChainEntry>, n: nat)
    requires Linked(H, es) && n <= |es|
    ensures Linked(H, es[..n])
  {
    forall i | 0 <= i < n
      ensures LinkedAt(H, es[..n], i)
    {
      assert LinkedAt(H, es, i);
      assert es[..n][..i] == es[..i];
    }
  }

  /** A valid log stays valid exactly when the entry appended to it links to the last hash. */
  lemma AppendLinked(H: Digest, es: seq<ChainEntry>, e: ChainEntry)
    requires Linked(H, es)
    ensures Linked(H, es + [e]) <==> e.prevHash == LastHash(es, "") && e.entryHash == H(EntryPreimage(e))
  {
    var all := es + [e];
    assert all[..|es|] == es;
    forall i | 0 <= i < |es|
      ensures LinkedAt(H, all, i)
    {
      assert LinkedAt(H, es, i);
      assert all[..i] == es[..i];
    }
    assert Linked(H, all) <==> LinkedAt(H, all, |es|);
  }

  // ---------------------------------------------------------------- tamper evidence

  /** Two valid logs that end in the same hash are the same log in everything the hashes protect, or two
      of their entries are a collision. */
  lemma {:induction false} TamperEvidence(H: Digest, a: seq<ChainEntry>, b: seq<ChainEntry>)
    requires NeverEmpty(H) && Linked(H, a) && Linked(H, b)
    requires CollisionFree(H, a + b)
    requires LastHash(a, "") == LastHash(b, "")
    ensures |a| == |b|
    ensures forall i :: 0 <= i < |a| ==> SameProtected(a[i], b[i]) && a[i].entryHash == b[i].entryHash
  {
    hide EntryPreimage;
    if a == [] {
    } else {
      assert LinkedAt(H, a, |a| - 1);
    }
    if b != [] {
      assert LinkedAt(H, b, |b| - 1);
    }
    if a != [] && b != [] {
      var x, y := a[|a| - 1], b[|b| - 1];
      assert x in a + b && y in a + b;
      PreimageDeterminesFields(x, y);
      PrefixLinked(H, a, |a| - 1);
      PrefixLinked(H, b, |b| - 1);
      var a', b' := a[..|a| - 1], b[..|b| - 1];
      assert forall e :: e in a' + b' ==> e in a + b;
      TamperEvidence(H, a', b');
    }
  }

  /** No two positions of a valid log carry the same hash. */
  lemma HashesDistinct(H: Digest, es: seq<ChainEntry>, i: nat, j: nat)
    requires NeverEmpty(H) && Linked(H, es) && CollisionFree(H, es)
    requires i < j < |es|
    ensures es[i].entryHash != es[j].entryHash
  {
    if es[i].entryHash == es[j].entryHash {
      var a, b := es[..i + 1], es[..j + 1];
      PrefixLinked(H, es, i + 1);
      PrefixLinked(H, es, j + 1);
      assert forall e :: e in a + b ==> e in es;
      TamperEvidence(H, a, b);
    }
  }

  /** Editing protected fields of one entry of a valid log is reported once, at that entry, unless the
      edit is a collision with the original. */
  lemma EditReportedOnce(H: Digest, es: seq<ChainEntry>, k: nat, edited: ChainEntry)
    requires Linked(H, es) && k < |es|
    requires edited.prevHash == es[k].prevHash && edited.entryHash == es[k].entryHash
    requires !SameProtected(edited, es[k])
    requires CollisionFree(H, [es[k], edited])
    ensures Errors(H, es[k := edited], 0, "")
            == [HashMismatch(edited.id, k, H(EntryPreimage(edited)), es[k].entryHash)]
  {
    var after := es[k + 1..];
    assert LinkedAt(H, es, k);
    PreimageDeterminesFields(es[k], edited);
    assert es[k] in [es[k], edited] && edited in [es[k], edited];
    SplicedErrors(H, es, k, edited, k + 1);
    assert es[..k] + ([edited] + after) == es[k := edited];
    assert LastHash(es[..k + 1], "") == edited.entryHash;
  }

  /** Deleting one entry that is not the newest is reported once, as a broken link at its successor. */
  lemma DeletionReportedOnce(H: Digest, es: seq<ChainEntry>, k: nat)
    requires NeverEmpty(H) && Linked(H, es) && k + 1 < |es|
    requires CollisionFree(H, es)
    ensures Errors(H, es[..k] + es[k + 1..], 0, "")
            == [PrevMismatch(es[k + 1].id, k, LastHash(es[..k], ""), es[k].entryHash)]
  {
    hide Errors, EntryPreimage, CollisionFree;
    assert LinkedAt(H, es, k) && LinkedAt(H, es, k + 1);
    assert LastHash(es[..k + 1], "") == es[k].entryHash;
    if k > 0 {
      HashesDistinct(H, es, k - 1, k);
    }
    assert LastHash(es[..k + 2], "") == es[k + 1].entryHash;
    SplicedErrors(H, es, k, es[k + 1], k + 2);
    TailSplits(es, k + 1);
  }

  lemma TailSplits<T>(s: seq<T>, k: nat)
    requires k < |s|
    ensures s[k..] == [s[k]] + s[k + 1..]
  {
  }

  /** The first `k` entries of a valid log, one foreign entry, and the entries of the log from `m` on: only
      the foreign entry can be reported when it carries the hash those last entries follow. */
  lemma SplicedErrors(H: Digest, es: seq<ChainEntry>, k: nat, x: ChainEntry, m: nat)
    requires Linked(H, es) && k <= m <= |es|
    requires x.entryHash == LastHash(es[..m], "")
    ensures Errors(H, es[..k] + ([x] + es[m..]), 0, "") == EntryErrors(H, x, k, LastHash(es[..k], ""))
  {
    var tail := [x] + es[m..];
    PrefixLinked(H, es, k);
    NoErrorsIffLinked(H, es[..k]);
    ErrorsCompose(H, es[..k], tail, 0, "");
    SuffixClean(H, es, m, k + 1);
    assert tail[1..] == es[m..];
  }

  lemma {:induction false} SuffixClean(H: Digest, es: seq<ChainEntry>, m: nat, i: nat)
    requires Linked(H, es) && m <= |es|
    ensures Errors(H, es[m..], i, LastHash(es[..m], "")) == []
  {
    NoErrorsIffLinked(H, es);
    assert es == es[..m] + es[m..];
    ErrorsCompose(H, es[..m], es[m..], 0, "");
    ErrorsIndexFree(H, es[m..], m, i, LastHash(es[..m], ""));
  }

  /** Whether a suffix is clean does not depend on the index it starts at. */
  lemma {:induction false} ErrorsIndexFree(H: Digest, es: seq<ChainEntry>, i: nat, j: nat, prev: string)
    ensures Errors(H, es, i, prev) == [] <==> Errors(H, es, j, prev) == []
  {
    if es == [] {
    } else {
      ErrorsIndexFree(H, es[1..], i + 1, j + 1, es[0].entryHash);
    }
  }

  // ---------------------------------------------------------------- verifying raw rows

  /** One row dictionary. `missing` lists the required keys it lacks; the matching fields are then unused. */
  datatype Row = Row(
    missing: seq<Column>, id: int, base: Base, prevHash: string, entryHash: string,
    signature: Option<string>, ext: Extended)

  /** The extended columns are protected exactly when the metadata text is the compact text of a JSON value. */
  predicate UsesExtendedHashFields(metadataJson: Option<JsonText>)
  {
    metadataJson.Some? && metadataJson.value.Compact?
  }

  function RowEntry(r: Row): ChainEntry
  {
    ChainEntry(r.id, r.base, if UsesExtendedHashFields(r.ext.metadataJson) then r.ext
        else NO_EXTENDED, r.prevHash, r.entryHash)
  }

  function Entries(rows: seq<Row>): (r: seq<ChainEntry>)
  {
    if rows == [] then []
    else if rows[|rows| - 1].missing != [] then Entries(rows[..|rows| - 1])
    else Entries(rows[..|rows| - 1]) + [RowEntry(rows[|rows| - 1])]
  }

  function MissingErrors(rows: seq<Row>): seq<ChainError>
  {
    if rows == [] then []
    else
      MissingErrors(rows[..|rows| - 1])
      + if rows[|rows| - 1].missing != [] then [MissingKeys(|rows| - 1, rows[|rows| - 1].missing)] else []
  }

  function RowErrors(H: Digest, rows: seq<Row>): seq<ChainError>
  {
    MissingErrors(rows) + Errors(H, Entries(rows), 0, "")
  }

  method VerifyChainFromRows(H: Digest, rows: seq<Row>) returns (valid: bool, errors: seq<ChainError>)
    ensures errors == RowErrors(H, rows)
    ensures valid <==> Complete(rows) && Linked(H, Entries(rows))
  {
    errors := [];
    var entries: seq<ChainEntry> := [];
    for i := 0 to |rows|
      invariant errors == MissingErrors(rows[..i])
      invariant entries == Entries(rows[..i])
    {
      assert rows[..i + 1][..i] == rows[..i];
      var row := rows[i];
      if row.missing != [] {
        errors := errors + [MissingKeys(i, row.missing)];
        continue;
      }
      entries := entries + [RowEntry(row)];
    }
    assert rows[..|rows|] == rows;
    NoMissingIffComplete(rows);
    var ok, verifyErrors := VerifyChain(H, entries);
    valid := ok && errors == [];
    errors := errors + verifyErrors;
  }

  predicate Complete(rows: seq<Row>)
  {
    forall i :: 0 <= i < |rows| ==> rows[i].missing == []
  }

  lemma {:induction false} NoMissingIffComplete(rows: seq<Row>)
    ensures MissingErrors(rows) == [] <==> Complete(rows)
  {
    if rows == [] {
    } else {
      var front := rows[..|rows| - 1];
      NoMissingIffComplete(front);
      assert Complete(rows) ==> Complete(front);
      assert rows == front + [rows[|rows| - 1]];
    }
  }

  lemma {:induction false} EntriesOfComplete(rows: seq<Row>)
    requires Complete(rows)
    ensures |Entries(rows)| == |rows|
    ensures forall i :: 0 <= i < |rows| ==> Entries(rows)[i] == RowEntry(rows[i])
  {
    if rows == [] {
    } else {
      EntriesOfComplete(rows[..|rows| - 1]);
    }
  }

  /** What a table protects: two tables that both pass and end in the same hash have the same number of
      rows and agree on the base fields of each, on whether the extended columns of a row are protected,
      and on those columns where they are. */
  lemma {:induction false} RowTamperEvidence(H: Digest, a: seq<Row>, b: seq<Row>)
    requires NeverEmpty(H) && RowErrors(H, a) == [] && RowErrors(H, b) == []
    requires CollisionFree(H, Entries(a) + Entries(b))
    requires LastHash(Entries(a), "") == LastHash(Entries(b), "")
    ensures |a| == |b|
    ensures forall i :: 0 <= i < |a| ==> SameRowProtected(a[i], b[i])
  {
    CleanRows(H, a);
    CleanRows(H, b);
    TamperEvidence(H, Entries(a), Entries(b));
    forall i | 0 <= i < |a|
      ensures SameRowProtected(a[i], b[i])
    {
      assert SameProtected(Entries(a)[i], Entries(b)[i]);
      RowProtection(a[i], b[i]);
    }
  }

  /** Two rows agree on what their hashes protect. */
  predicate SameRowProtected(a: Row, b: Row)
  {
    && a.base == b.base
    && a.prevHash == b.prevHash
    && (UsesExtendedHashFields(a.ext.metadataJson) <==> UsesExtendedHashFields(b.ext.metadataJson))
    && (UsesExtendedHashFields(a.ext.metadataJson) ==> a.ext == b.ext)
  }

  lemma RowProtection(a: Row, b: Row)
    ensures SameProtected(RowEntry(a), RowEntry(b)) <==> SameRowProtected(a, b)
  {
    assert !UsesExtendedHashFields(NO_EXTENDED.metadataJson);
  }

  /** The hash of a row does not depend on its extended columns if and only if its metadata text is not the compact text
      of a JSON value. */
  lemma ExtendedColumnsCountIff(r: Row)
    ensures (forall x: Extended :: x.metadataJson == r.ext.metadataJson ==>
              EntryPreimage(RowEntry(r.(ext := x))) == EntryPreimage(RowEntry(r)))
            <==> !(r.ext.metadataJson.Some? && r.ext.metadataJson.value.Compact?)
  {
    var other := r.ext.(actor := if r.ext.actor == None then Some("") else None);
    assert EntryPreimage(RowEntry(r.(ext := other))) == EntryPreimage(RowEntry(r))
      <==> !UsesExtendedHashFields(r.ext.metadataJson);
  }

  /** Rows that lack required keys are passed over: what else is found is found without them. */
  lemma {:induction false} IncompleteRowsSkipped(a: seq<Row>, r: Row, b: seq<Row>)
    requires r.missing != []
    ensures Entries(a + [r] + b) == Entries(a + b)
  {
    if b == [] {
      assert a + [r] + b == a + [r] && a + b == a && (a + [r])[..|a|] == a;
    } else {
      var n := |b| - 1;
      IncompleteRowsSkipped(a, r, b[..n]);
      assert (a + [r] + b)[..|a| + 1 + n] == a + [r] + b[..n];
      assert (a + b)[..|a| + n] == a + b[..n];
    }
  }

  /** Rows that lack required keys are reported with their position and with what they lack, and no others are. */
  lemma {:induction false} MissingReportedAt(H: Digest, rows: seq<Row>, i: nat, keys: seq<Column>)
    ensures MissingKeys(i, keys) in RowErrors(H, rows) <==> i < |rows| && rows[i].missing == keys && keys != []
  {
    MissingAmong(rows, i, keys);
    NeverMissing(H, Entries(rows), 0, "", i, keys);
  }

  lemma {:induction false} MissingAmong(rows: seq<Row>, i: nat, keys: seq<Column>)
    ensures MissingKeys(i, keys) in MissingErrors(rows) <==> i < |rows| && rows[i].missing == keys && keys != []
  {
    if rows == [] {
    } else {
      MissingAmong(rows[..|rows| - 1], i, keys);
    }
  }

  lemma {:induction false} NeverMissing(H: Digest, es: seq<ChainEntry>, start: nat, prev: string, i: nat,
          keys: seq<Column>)
    ensures MissingKeys(i, keys) !in Errors(H, es, start, prev)
  {
    hide EntryPreimage;
    if es == [] {
    } else {
      NeverMissing(H, es[1..], start + 1, es[0].entryHash, i, keys);
    }
  }

  lemma {:induction false} CleanRows(H: Digest, rows: seq<Row>)
    ensures RowErrors(H, rows) == [] <==> Complete(rows) && Linked(H, Entries(rows))
    ensures Complete(rows) ==> |Entries(rows)| == |rows|
    ensures Complete(rows) ==> forall i :: 0 <= i < |rows| ==> Entries(rows)[i] == RowEntry(rows[i])
  {
    NoMissingIffComplete(rows);
    NoErrorsIffLinked(H, Entries(rows));
    if Complete(rows) {
      EntriesOfComplete(rows);
    }
  }
}
