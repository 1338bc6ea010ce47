/** The audit trail of capfence/core/audit.py: a table of hash-chained rows. */
module Audit {
  import opened Json
  import opened Chain
  import opened Events

  /** What a signature covers. */
  datatype Signed = Signed(base: Base, ext: Option<Extended>, prevHash: string, entryHash: string)

  /** The digest, `round(x, 6)` on floats, and a signature scheme: `sign(message, private key)`,
      `check(message, signature, public key)`. */
  datatype Crypto = Crypto(
    hash: Digest,
    round6: real -> real,
    sign: (Signed, string) -> string,
    check: (Signed, string, string) -> bool)

  datatype Keypair = Keypair(publicKey: string, privateKey: string)

  /** A signature made with the private key of a pair passes under its public key. */
  ghost predicate Sound(c: Crypto, keys: Keypair)
  {
    NeverEmpty(c.hash) && forall m :: c.check(m, c.sign(m, keys.privateKey), keys.publicKey)
  }

  datatype AuditError = ChainFault(e: ChainError) | NoPublicKey | BadSignature(id: int)

  ghost predicate RoundsMonotonically(c: Crypto)
  {
    forall x, y :: x <= y ==> c.round6(x) <= c.round6(y)
  }

  // ---------------------------------------------------------------- migration of rows without hashes

  predicate Legacy(r: Row)
  {
    r.entryHash == ""
  }

  /** The hash migration stores: base fields only, with the timestamp rounded in the hash but not in the row. */
  function LegacyHash(c: Crypto, r: Row, prev: string): string
  {
    c.hash(Preimage(r.base.(timestamp := c.round6(r.base.timestamp)), None, prev))
  }

  function MigrateRow(c: Crypto, r: Row, prev: string): Row
  {
    r.(prevHash := prev, entryHash := LegacyHash(c, r, prev))
  }

  /** The hash of the last legacy row among `rows` after migration, "" when there is none. */
  function LastMigrated(c: Crypto, rows: seq<Row>): string
  {
    if rows == [] then ""
    else
      var r := rows[|rows| - 1];
      var prev := LastMigrated(c, rows[..|rows| - 1]);
      if Legacy(r) then LegacyHash(c, r, prev) else prev
  }

  function Migrated(c: Crypto, rows: seq<Row>): (m: seq<Row>)
    ensures |m| == |rows|
  {
    if rows == [] then []
    else
      var front, r := rows[..|rows| - 1], rows[|rows| - 1];
      Migrated(c, front) + [if Legacy(r) then MigrateRow(c, r, LastMigrated(c, front)) else r]
  }

  // ---------------------------------------------------------------- reading the table back

  /** `ORDER BY timestamp ASC, id ASC` over rows given in id order. */
  function Chronological(rows: seq<Row>): (s: seq<Row>)
  {
    if rows == [] then []
    else InsertByTime(Chronological(rows[..|rows| - 1]), rows[|rows| - 1])
  }

  function InsertByTime(sorted: seq<Row>, r: Row): (s: seq<Row>)
  {
    if sorted == [] || sorted[|sorted| - 1].base.timestamp <= r.base.timestamp then sorted + [r]
    else InsertByTime(sorted[..|sorted| - 1], r) + [sorted[|sorted| - 1]]
  }

  /** `LIMIT n`. */
  function Prefix<T>(s: seq<T>, n: nat): seq<T>
  {
    if |s| <= n then s else s[..n]
  }

  function Fetched(rows: seq<Row>, limit: nat): seq<Row>
  {
    Prefix(Chronological(rows), limit)
  }

  const FETCH_LIMIT: nat := 1000000

  /** `_signature_fields_from_row`: the extended columns are included when any of them is present. */
  function SignatureFields(r: Row): Signed
  {
    Signed(r.base, if r.ext == NO_EXTENDED then None else Some(r.ext), r.prevHash, r.entryHash)
  }

  predicate IsSigned(r: Row)
  {
    r.signature.Some? && r.signature.value != ""
  }

  function ChainFaults(errors: seq<ChainError>): seq<AuditError>
  {
    if errors == [] then [] else ChainFaults(errors[..|errors| - 1]) + [ChainFault(errors[|errors| - 1])]
  }

  predicate SignatureHolds(c: Crypto, publicKey: string, r: Row)
  {
    IsSigned(r) ==> c.check(SignatureFields(r), r.signature.value, publicKey)
  }

  function SignatureFaults(c: Crypto, publicKey: string, rows: seq<Row>): seq<AuditError>
  {
    if rows == [] then []
    else
      SignatureFaults(c, publicKey, rows[..|rows| - 1])
      + if SignatureHolds(c, publicKey, rows[|rows| - 1]) then [] else [BadSignature(rows[|rows| - 1].id)]
  }

  /** The errors `verify` reports for a table, given the public key on disk. */
  function Findings(c: Crypto, rows: seq<Row>, publicKey: Option<string>): seq<AuditError>
  {
    var fetched := Fetched(rows, FETCH_LIMIT);
    var faults := ChainFaults(RowErrors(c.hash, fetched));
    if forall r :: r in fetched ==> !IsSigned(r) then faults
    else
      match publicKey
      case None => faults + [NoPublicKey]
      case Some(key) => faults + SignatureFaults(c, key, fetched)
  }

  // ---------------------------------------------------------------- recording a verdict

  /** Characters JSON writes alike with and without `ensure_ascii`: everything up to '~'. */
  predicate Plain(s: string)
  {
    forall i :: 0 <= i < |s| ==> s[i] <= '~'
  }

  /** The metadata of a verdict, dumped with `ensure_ascii=True`. */
  function MetadataText(v: Verdict): JsonText
  {
    var value := CObj(map[
      "latency_ms" := CInt(v.latencyMs),
      "required_capability" := CStr(v.requiredCapability),
      "observe_mode" := CBool(v.observeMode)]);
    if Plain(v.requiredCapability) then Compact(value) else Escaped(value)
  }

  function DecisionText(d: Decision): string
  {
    match d
    case Permit => "allow"
    case Refuse => "deny"
    case Hold => "require_approval"
  }

  function ApprovalState(v: Verdict): string
  {
    if v.authorized && v.approvalId.Some? then "approved"
    else if v.decision == Hold then "pending"
    else "none"
  }

  function PayloadHash(e: ActionEvent): string
  {
    var h := Get(e.metadata, "payload_hash");
    if h.JStr? then h.s else ""
  }

  function RiskScore(e: ActionEvent): real
  {
    if IsNumber(e.risk) then NumberValue(e.risk) else 0.0
  }

  function BaseColumns(t: Text, c: Crypto, v: Verdict): Base
  {
    Base(v.event.actor, Some(v.event.action), Some(Str(t, v.event.risk)),
         if v.authorized then "pass" else "fail", Some(RiskScore(v.event)), Some(0.0),
         Some(PayloadHash(v.event)), Some(v.reason), Some(v.latencyMs), c.round6(v.timestamp))
  }

  function ExtendedColumns(v: Verdict): Extended
  {
    Extended(Some(v.event.actor), Some(v.event.action), Some(v.event.resource), Some(v.event.environment),
             Some(v.requiredCapability), Some(ApprovalState(v)), Some(DecisionText(v.decision)),
             Some(if v.authorized then "authorized" else "blocked"), Some(MetadataText(v)))
  }

  function PreviousHash(rows: seq<Row>): string
  {
    if rows == [] then "" else rows[|rows| - 1].entryHash
  }

  /** The row inserted for a verdict. */
  function RecordedRow(t: Text, c: Crypto, rows: seq<Row>, id: int, keys: Option<Keypair>, v: Verdict): Row
  {
    var prev := PreviousHash(rows);
    var hash := c.hash(Preimage(BaseColumns(t, c, v), Some(ExtendedColumns(v)), prev));
    var signature :=
      if keys.Some? then
        Some(c.sign(Signed(BaseColumns(t, c, v), Some(ExtendedColumns(v)), prev, hash), keys.value.privateKey))
      else None;
    Row([], id, BaseColumns(t, c, v), prev, hash, signature, ExtendedColumns(v))
  }

  class AuditLogger {
    const text: Text
    const crypto: Crypto
    /** The key pair, present exactly when entries are signed. */
    const keys: Option<Keypair>
    /** The table in id order, and the next AUTOINCREMENT id. */
    var rows: seq<Row>
    var nextId: int

    /** Opening a database file: existing rows that lack hashes are filled in. */
    constructor (text: Text, crypto: Crypto, keys: Option<Keypair>, stored: seq<Row>, nextId: int)
      ensures this.text == text && this.crypto == crypto && this.keys == keys
      ensures rows == Migrated(crypto, stored) && this.nextId == nextId
    {
      this.text, this.crypto, this.keys := text, crypto, keys;
      rows, this.nextId := stored, nextId;
      new;
      MigrateLegacyEntries();
    }

    /** `SELECT id ... WHERE entry_hash = ''`: the positions of the rows without a hash. */
    method LegacyPositions() returns (legacy: seq<nat>)
      ensures ListsLegacy(rows, legacy)
    {
      legacy := [];
      for i := 0 to |rows|
        invariant ListsLegacy(rows[..i], legacy)
      {
        if Legacy(rows[i]) {
          legacy := legacy + [i];
        }
      }
      assert rows[..|rows|] == rows;
    }

    method MigrateLegacyEntries()
      modifies this`rows
      ensures rows == Migrated(crypto, old(rows))
    {
      ghost var was := rows;
      var legacy := LegacyPositions();
      var prevHash := "";
      ghost var p := Upcoming(was, legacy, 0);
      MigratedSkip(crypto, was, 0, p);
      for k := 0 to |legacy|
        invariant p == Upcoming(was, legacy, k)
        invariant rows == HalfMigrated(crypto, was, p)
        invariant prevHash == LastMigrated(crypto, was[..p])
      {
        MigratedStep(crypto, was, p);
        var row := rows[legacy[k]];
        var entryHash := LegacyHash(crypto, row, prevHash);
        rows := rows[legacy[k] := row.(prevHash := prevHash, entryHash := entryHash)];
        prevHash := entryHash;
        MigratedSkip(crypto, was, p + 1, Upcoming(was, legacy, k + 1));
        p := Upcoming(was, legacy, k + 1);
      }
      assert was[..|was|] == was;
    }

    method RecordEvent(v: Verdict)
      modifies this`rows, this`nextId
      ensures rows == old(rows) + [RecordedRow(text, crypto, old(rows), old(nextId), keys, v)]
      ensures nextId == old(nextId) + 1
    {
      var prevHash := if rows == [] then "" else rows[|rows| - 1].entryHash;
      var timestamp := crypto.round6(v.timestamp);
      var decision := if v.authorized then "pass" else "fail";
      var approvalState :=
        if v.authorized && v.approvalId.Some? then "approved" else if v.decision == Hold then "pending" else "none";
      var executionResult := if v.authorized then "authorized" else "blocked";
      var base := Base(v.event.actor, Some(v.event.action), Some(Str(text, v.event.risk)), decision,
                       Some(if IsNumber(v.event.risk) then NumberValue(v.event.risk) else 0.0), Some(0.0),
                       Some(PayloadHash(v.event)), Some(v.reason), Some(v.latencyMs), timestamp);
      var ext := Extended(Some(v.event.actor), Some(v.event.action), Some(v.event.resource), Some(v.event.environment),
                          Some(v.requiredCapability), Some(approvalState), Some(DecisionText(v.decision)),
                          Some(executionResult), Some(MetadataText(v)));
      var entryHash := crypto.hash(Preimage(base, Some(ext), prevHash));
      var signature: Option<string> := None;
      if keys.Some? {
        signature := Some(crypto.sign(Signed(base, Some(ext), prevHash, entryHash), keys.value.privateKey));
      }
      rows := rows + [Row([], nextId, base, prevHash, entryHash, signature, ext)];
      nextId := nextId + 1;
    }

    /** The public key on disk at the time of the check may differ from the one rows were signed with. */
    method Verify(publicKey: Option<string>) returns (valid: bool, errors: seq<AuditError>)
      ensures errors == Findings(crypto, rows, publicKey)
      ensures valid <==> errors == []
    {
      var fetched := Fetched(rows, FETCH_LIMIT);
      var chainValid, chainErrors := VerifyChainFromRows(crypto.hash, fetched);
      CleanRows(crypto.hash, fetched);
      ChainFaultsLength(chainErrors);
      errors := ChainFaults(chainErrors);
      var signedRows := SignedOnly(fetched);
      SignedOnlyEmpty(fetched);
      if signedRows == [] {
        return chainValid, errors;
      }
      if publicKey.None? {
        errors := errors + [NoPublicKey];
        return false, errors;
      }
      var faults := CheckSignatures(signedRows, publicKey.value);
      errors := errors + faults;
      UnsignedRowsHaveNoFaults(crypto, publicKey.value, fetched);
      valid := chainValid && errors == [];
    }

    /** The loop of `verify` over the signed rows. */
    method CheckSignatures(signedRows: seq<Row>, publicKey: string) returns (faults: seq<AuditError>)
      requires forall i :: 0 <= i < |signedRows| ==> IsSigned(signedRows[i])
      ensures faults == SignatureFaults(crypto, publicKey, signedRows)
    {
      faults := [];
      for i := 0 to |signedRows|
        invariant faults == SignatureFaults(crypto, publicKey, signedRows[..i])
      {
        var row := signedRows[i];
        SignatureFaultsSnoc(crypto, publicKey, signedRows, i);
        if !crypto.check(SignatureFields(row), row.signature.value, publicKey) {
          faults := faults + [BadSignature(row.id)];
        }
      }
      assert signedRows[..|signedRows|] == signedRows;
    }
  }

  // ---------------------------------------------------------------- facts the methods use

  ghost predicate ListsLegacy(rows: seq<Row>, legacy: seq<nat>)
  {
    && (forall k :: 0 <= k < |legacy| ==> legacy[k] < |rows| && Legacy(rows[legacy[k]]))
    && (forall j, k :: 0 <= j < k < |legacy| ==> legacy[j] < legacy[k])
    && (forall i :: 0 <= i < |rows| && Legacy(rows[i]) ==> i in legacy)
  }

  /** The position migration works on next, or the end of the table. */
  ghost function Upcoming(rows: seq<Row>, legacy: seq<nat>, k: nat): (p: nat)
    requires ListsLegacy(rows, legacy) && k <= |legacy|
    ensures p <= |rows|
    ensures forall i :: (if k == 0 then 0 else legacy[k - 1] + 1) <= i < p ==> !Legacy(rows[i])
    ensures k > 0 ==> legacy[k - 1] < p
  {
    if k < |legacy| then legacy[k] else |rows|
  }

  /** The table when migration has dealt with the first `p` rows. */
  ghost function HalfMigrated(c: Crypto, rows: seq<Row>, p: nat): (half: seq<Row>)
    requires p <= |rows|
    ensures |half| == |rows|
  {
    Migrated(c, rows[..p]) + rows[p..]
  }

  lemma {:induction false} MigratedStep(c: Crypto, rows: seq<Row>, p: nat)
    requires p < |rows| && Legacy(rows[p])
    ensures var prev := LastMigrated(c, rows[..p]);
      && HalfMigrated(c, rows, p)[p] == rows[p]
      && HalfMigrated(c, rows, p + 1) == HalfMigrated(c, rows, p)[p := MigrateRow(c, rows[p], prev)]
      && LastMigrated(c, rows[..p + 1]) == LegacyHash(c, rows[p], prev)
  {
    assert rows[..p + 1][..p] == rows[..p];
    assert rows[p..] == [rows[p]] + rows[p + 1..];
  }

  /** Rows that already have a hash are passed over. */
  lemma {:induction false} MigratedSkip(c: Crypto, rows: seq<Row>, p: nat, q: nat)
    requires p <= q <= |rows|
    requires forall i :: p <= i < q ==> !Legacy(rows[i])
    ensures HalfMigrated(c, rows, q) == HalfMigrated(c, rows, p)
    ensures LastMigrated(c, rows[..q]) == LastMigrated(c, rows[..p])
  {
    if p < q {
      MigratedSkip(c, rows, p, q - 1);
      assert rows[..q][..q - 1] == rows[..q - 1];
      assert rows[q - 1..] == [rows[q - 1]] + rows[q..];
    }
  }

  lemma {:induction false} ChainFaultsLength(errors: seq<ChainError>)
    ensures |ChainFaults(errors)| == |errors|
  {
    if errors == [] {
    } else {
      ChainFaultsLength(errors[..|errors| - 1]);
    }
  }

  function SignedOnly(rows: seq<Row>): (signed: seq<Row>)
    ensures forall i :: 0 <= i < |signed| ==> IsSigned(signed[i])
  {
    if rows == [] then []
    else SignedOnly(rows[..|rows| - 1]) + if IsSigned(rows[|rows| - 1]) then [rows[|rows| - 1]] else []
  }

  lemma {:induction false} SignedOnlyEmpty(rows: seq<Row>)
    ensures SignedOnly(rows) == [] <==> forall r :: r in rows ==> !IsSigned(r)
  {
    if rows == [] {
    } else {
      SignedOnlyEmpty(rows[..|rows| - 1]);
      assert rows == rows[..|rows| - 1] + [rows[|rows| - 1]];
    }
  }

  lemma {:induction false} SignatureFaultsSnoc(c: Crypto, key: string, rows: seq<Row>, i: nat)
    requires i < |rows|
    ensures SignatureFaults(c, key, rows[..i + 1])
            == SignatureFaults(c, key, rows[..i])
               + if SignatureHolds(c, key, rows[i]) then [] else [BadSignature(rows[i].id)]
  {
    assert rows[..i + 1][..i] == rows[..i];
  }

  lemma {:induction false} UnsignedRowsHaveNoFaults(c: Crypto, key: string, rows: seq<Row>)
    ensures SignatureFaults(c, key, SignedOnly(rows)) == SignatureFaults(c, key, rows)
  {
    if rows == [] {
    } else {
      var front, last := rows[..|rows| - 1], rows[|rows| - 1];
      UnsignedRowsHaveNoFaults(c, key, front);
      if IsSigned(last) {
        assert SignedOnly(rows) == SignedOnly(front) + [last];
        assert SignedOnly(rows)[..|SignedOnly(rows)| - 1] == SignedOnly(front);
      } else {
        assert SignedOnly(rows) == SignedOnly(front);
      }
    }
  }
}
