/** The accounts table: what its operations mean on the rows in creation order, the
    two storage drivers, and the repository with the patches the service issues. */
module AccountStore {
  import opened Common

  datatype AccountRecord = AccountRecord(
    id: string,
    email: string,
    passwordHash: Option<PasswordHash>,
    googleId: Option<string>,
    issuerDid: Option<string>,
    companyName: Option<string>,
    fieldOfOperation: Option<string>,
    emailVerifiedAt: Option<int>,
    emailVerificationTokenHash: Option<Digest>,
    emailVerificationExpiresAt: Option<int>,
    createdAt: int,
    updatedAt: int)

  type Rows = seq<AccountRecord>

  datatype AccountCreateData = AccountCreateData(
    email: string,
    passwordHash: Option<PasswordHash>,
    googleId: Option<string>,
    companyName: Option<string>,
    fieldOfOperation: Option<string>)

  /** A field of a partial record: left out, or present (possibly as null). */
  datatype Field<+T> = Absent | Present(value: Option<T>)

  datatype AccountPatch = AccountPatch(
    googleId: Field<string>,
    issuerDid: Field<string>,
    passwordHash: Field<PasswordHash>,
    emailVerifiedAt: Field<int>,
    emailVerificationTokenHash: Field<Digest>,
    emailVerificationExpiresAt: Field<int>)

  datatype AccountKey =
    | ById(id: string)
    | ByEmail(email: string)
    | ByGoogleId(googleId: string)
    | ByVerificationHash(hash: Digest)

  datatype StoreError = UniqueViolation | NoRows

  // ---- Meaning of the operations ------------------------------------------------

  predicate Matches(a: AccountRecord, key: AccountKey) {
    match key
    case ById(id) => a.id == id
    case ByEmail(email) => a.email == email
    case ByGoogleId(googleId) => a.googleId == Some(googleId)
    case ByVerificationHash(hash) => a.emailVerificationTokenHash == Some(hash)
  }

  function IndexOf(rows: Rows, key: AccountKey): (i: nat)
    ensures i <= |rows|
    ensures i < |rows| ==> Matches(rows[i], key)
    ensures forall j :: 0 <= j < i ==> !Matches(rows[j], key)
  {
    if rows == [] then 0
    else if Matches(rows[0], key) then 0
    else 1 + IndexOf(rows[1..], key)
  }

  function Lookup(rows: Rows, key: AccountKey): Option<AccountRecord> {
    var i := IndexOf(rows, key);
    if i < |rows| then Some(rows[i]) else None
  }

  /** What a finder may answer: some matching row, or nothing when no row matches. */
  predicate IsSelection(rows: Rows, key: AccountKey, r: Option<AccountRecord>) {
    match r
    case Some(a) => a in rows && Matches(a, key)
    case None => forall i :: 0 <= i < |rows| ==> !Matches(rows[i], key)
  }

  predicate AtMostOne(rows: Rows, key: AccountKey) {
    forall i, j :: 0 <= i < j < |rows| ==> !(Matches(rows[i], key) && Matches(rows[j], key))
  }

  lemma SelectionIsLookup(rows: Rows, key: AccountKey, r: Option<AccountRecord>)
    requires IsSelection(rows, key, r) && AtMostOne(rows, key)
    ensures r == Lookup(rows, key)
  {
    var i := IndexOf(rows, key);
    if r.Some? {
      var j :| 0 <= j < |rows| && rows[j] == r.value;
      assert i == j;
    }
  }

  predicate HasId(rows: Rows, id: string) {
    exists i :: 0 <= i < |rows| && rows[i].id == id
  }

  predicate UniqueIds(rows: Rows) {
    forall i, j :: 0 <= i < j < |rows| ==> rows[i].id != rows[j].id
  }

  /** Two rows that PRIMARY KEY (id) and UNIQUE (email), (google_id), (issuer_did) forbid together. */
  predicate Clash(a: AccountRecord, b: AccountRecord) {
    || a.id == b.id
    || a.email == b.email
    || (a.googleId.Some? && a.googleId == b.googleId)
    || (a.issuerDid.Some? && a.issuerDid == b.issuerDid)
  }

  predicate NoClash(rows: Rows) {
    forall i, j :: 0 <= i < j < |rows| ==> !Clash(rows[i], rows[j])
  }

  lemma NoClashKeepsIdsApart(rows: Rows)
    requires NoClash(rows)
    ensures UniqueIds(rows)
  {
    forall i, j | 0 <= i < j < |rows| ensures rows[i].id != rows[j].id {
      assert !Clash(rows[i], rows[j]);
    }
  }

  function Created(id: string, data: AccountCreateData, now: int): AccountRecord {
    AccountRecord(id, data.email, data.passwordHash, data.googleId, None,
                  data.companyName, data.fieldOfOperation, None, None, None, now, now)
  }

  /** `Map.set` on the id. */
  function Put(rows: Rows, record: AccountRecord): Rows {
    var i := IndexOf(rows, ById(record.id));
    if i < |rows| then rows[i := record] else rows + [record]
  }

  function Overlay<T>(field: Field<T>, current: Option<T>): Option<T> {
    if field.Present? then field.value else current
  }

  function Patched(a: AccountRecord, patch: AccountPatch, now: int): AccountRecord {
    a.(googleId := Overlay(patch.googleId, a.googleId),
       issuerDid := Overlay(patch.issuerDid, a.issuerDid),
       passwordHash := Overlay(patch.passwordHash, a.passwordHash),
       emailVerifiedAt := Overlay(patch.emailVerifiedAt, a.emailVerifiedAt),
       emailVerificationTokenHash := Overlay(patch.emailVerificationTokenHash, a.emailVerificationTokenHash),
       emailVerificationExpiresAt := Overlay(patch.emailVerificationExpiresAt, a.emailVerificationExpiresAt),
       updatedAt := now)
  }

  function PatchRow(a: AccountRecord, id: string, patch: AccountPatch, now: int): AccountRecord {
    if a.id == id then Patched(a, patch, now) else a
  }

  function Update(rows: Rows, id: string, patch: AccountPatch, now: int): Rows {
    seq(|rows|, i requires 0 <= i < |rows| => PatchRow(rows[i], id, patch, now))
  }

  // ---- The four patches ---------------------------------------------------------

  const NOTHING := AccountPatch(Absent, Absent, Absent, Absent, Absent, Absent)

  function LinkGoogleId(googleId: string): AccountPatch {
    NOTHING.(googleId := Present(Some(googleId)))
  }

  function SetIssuerDid(issuerDid: string): AccountPatch {
    NOTHING.(issuerDid := Present(Some(issuerDid)))
  }

  function SetEmailVerificationToken(hash: Digest, expiresAt: int): AccountPatch {
    NOTHING.(emailVerificationTokenHash := Present(Some(hash)), emailVerificationExpiresAt := Present(Some(expiresAt)))
  }

  function MarkEmailVerified(now: int): AccountPatch {
    NOTHING.(emailVerifiedAt := Present(Some(now)),
             emailVerificationTokenHash := Present(None),
             emailVerificationExpiresAt := Present(None))
  }

  // ---- Drivers ------------------------------------------------------------------

  /** The map keyed by id holds exactly the rows. */
  ghost predicate Indexes(byId: map<string, AccountRecord>, rows: Rows) {
    && UniqueIds(rows)
    && (forall id :: id in byId ==> HasId(rows, id))
    && (forall i :: 0 <= i < |rows| ==> rows[i].id in byId && byId[rows[i].id] == rows[i])
  }

  lemma IndexOfId(rows: Rows, id: string)
    ensures var i := IndexOf(rows, ById(id));
            (i < |rows| ==> rows[i].id == id) && forall j :: 0 <= j < i ==> rows[j].id != id
  {
  }

  lemma PutIndexes(byId: map<string, AccountRecord>, rows: Rows, record: AccountRecord)
    requires Indexes(byId, rows)
    ensures Indexes(byId[record.id := record], Put(rows, record))
    ensures record.id in byId ==> Put(rows, record) == rows[IndexOf(rows, ById(record.id)) := record]
  {
    hide Matches, IndexOf;
    IndexOfId(rows, record.id);
    var at := IndexOf(rows, ById(record.id));
    var rows' := Put(rows, record);
    assert rows'[at] == record;
    forall k | k in byId[record.id := record] ensures HasId(rows', k) {
      if k != record.id {
        var j :| 0 <= j < |rows| && rows[j].id == k;
        assert rows'[j].id == k;
      }
    }
  }

  lemma UpdateIsPut(rows: Rows, id: string, patch: AccountPatch, now: int)
    requires UniqueIds(rows)
    ensures match Lookup(rows, ById(id))
            case None => Update(rows, id, patch, now) == rows
            case Some(a) => Update(rows, id, patch, now) == Put(rows, Patched(a, patch, now))
  {
    var at := IndexOf(rows, ById(id));
    if at < |rows| {
      assert Update(rows, id, patch, now) == rows[at := Patched(rows[at], patch, now)];
    }
  }

  class InMemoryAccountStorageDriver {
    var byId: map<string, AccountRecord>
    /** The map's values in insertion order. */
    ghost var rows: Rows

    ghost predicate Valid()
      reads this
    {
      Indexes(byId, rows)
    }

    constructor ()
      ensures Valid() && rows == []
    {
      byId := map[];
      rows := [];
    }

    method Create(id: string, data: AccountCreateData, now: int) returns (record: AccountRecord)
      requires Valid()
      modifies this
      ensures Valid()
      ensures record == Created(id, data, now)
      ensures rows == Put(old(rows), record)
    {
      record := AccountRecord(id, data.email, data.passwordHash, data.googleId, None,
                              data.companyName, data.fieldOfOperation, None, None, None, now, now);
      byId := byId[id := record];
      PutIndexes(old(byId), rows, record);
      rows := Put(rows, record);
    }

    /** Scans the map's values and answers the first match it meets. */
    method FindBy(key: AccountKey) returns (r: Option<AccountRecord>)
      requires Valid()
      ensures IsSelection(rows, key, r)
    {
      if key.ById? {
        r := if key.id in byId then Some(byId[key.id]) else None;
        return;
      }
      var todo := byId.Keys;
      while todo != {}
        invariant todo <= byId.Keys
        invariant forall k :: k in byId && k !in todo ==> !Matches(byId[k], key)
        decreases todo
      {
        var k :| k in todo;
        if Matches(byId[k], key) {
          return Some(byId[k]);
        }
        todo := todo - {k};
      }
      r := None;
    }

    method ApplyUpdate(id: string, patch: AccountPatch, now: int) returns (r: Result<AccountRecord, StoreError>)
      requires Valid()
      modifies this
      ensures Valid()
      ensures match Lookup(old(rows), ById(id))
              case None => r == Err(NoRows) && rows == old(rows)
              case Some(a) => r == Ok(Patched(a, patch, now)) && rows == Update(old(rows), id, patch, now)
    {
      hide Patched, Matches, IndexOf;
      IndexOfId(rows, id);
      ghost var at := IndexOf(rows, ById(id));
      if id !in byId {
        return Err(NoRows);
      }
      var updated := Patched(byId[id], patch, now);
      UpdateIsPut(rows, id, patch, now);
      PatchKeepsId(byId[id], patch, now);
      PutIndexes(byId, rows, updated);
      byId := byId[id := updated];
      rows := Update(rows, id, patch, now);
      r := Ok(updated);
    }
  }

  lemma PatchKeepsId(a: AccountRecord, patch: AccountPatch, now: int)
    ensures Patched(a, patch, now).id == a.id
  {
  }

  class SqliteAccountStorageDriver {
    var table: set<AccountRecord>
    /** The rows in insertion order. */
    ghost var rows: Rows

    ghost predicate Valid()
      reads this
    {
      && NoClash(rows)
      && (forall r :: r in table <==> r in rows)
    }

    constructor ()
      ensures Valid() && rows == []
    {
      table := {};
      rows := [];
    }

    method Create(id: string, data: AccountCreateData, now: int) returns (r: Result<AccountRecord, StoreError>)
      requires Valid()
      modifies this
      ensures Valid()
      ensures var record := Created(id, data, now);
              if exists i :: 0 <= i < |old(rows)| && Clash(old(rows)[i], record)
              then r == Err(UniqueViolation) && rows == old(rows)
              else r == Ok(record) && rows == old(rows) + [record]
    {
      var record := AccountRecord(id, data.email, data.passwordHash, data.googleId, None,
                                  data.companyName, data.fieldOfOperation, None, None, None, now, now);
      if other :| other in table && Clash(other, record) {
        ghost var i :| 0 <= i < |rows| && rows[i] == other;
        return Err(UniqueViolation);
      }
      forall i | 0 <= i < |rows| ensures !Clash(rows[i], record) {
        assert rows[i] in table;
      }
      table := table + {record};
      rows := rows + [record];
      r := Ok(record);
    }

    /** SELECT ... LIMIT 1: any matching row. */
    method FindBy(key: AccountKey) returns (r: Option<AccountRecord>)
      requires Valid()
      ensures IsSelection(rows, key, r)
    {
      if row :| row in table && Matches(row, key) {
        return Some(row);
      }
      forall i | 0 <= i < |rows| ensures !Matches(rows[i], key) {
        assert rows[i] in table;
      }
      r := None;
    }

    /** The row as the SET clauses, built field by field, leave it. */
    static method SetClauses(current: AccountRecord, patch: AccountPatch, now: int) returns (updated: AccountRecord)
      ensures updated == Patched(current, patch, now)
    {
      updated := current;
      if patch.googleId.Present? { updated := updated.(googleId := patch.googleId.value); }
      if patch.issuerDid.Present? { updated := updated.(issuerDid := patch.issuerDid.value); }
      if patch.passwordHash.Present? { updated := updated.(passwordHash := patch.passwordHash.value); }
      if patch.emailVerifiedAt.Present? { updated := updated.(emailVerifiedAt := patch.emailVerifiedAt.value); }
      if patch.emailVerificationTokenHash.Present? {
        updated := updated.(emailVerificationTokenHash := patch.emailVerificationTokenHash.value);
      }
      if patch.emailVerificationExpiresAt.Present? {
        updated := updated.(emailVerificationExpiresAt := patch.emailVerificationExpiresAt.value);
      }
      updated := updated.(updatedAt := now);
    }

    /** Updates the row; a UNIQUE violation leaves the table alone. */
    method ApplyUpdate(id: string, patch: AccountPatch, now: int) returns (r: Result<AccountRecord, StoreError>)
      requires Valid()
      modifies this
      ensures Valid()
      ensures match Lookup(old(rows), ById(id))
              case None => r == Err(NoRows) && rows == old(rows)
              case Some(a) =>
                if exists i :: 0 <= i < |old(rows)| && old(rows)[i].id != id && Clash(old(rows)[i], Patched(a, patch, now))
                then r == Err(UniqueViolation) && rows == old(rows)
                else r == Ok(Patched(a, patch, now)) && rows == Update(old(rows), id, patch, now)
    {
      hide Patched, Clash, Matches, IndexOf;
      NoClashKeepsIdsApart(rows);
      IndexOfId(rows, id);
      ghost var at := IndexOf(rows, ById(id));
      if current :| current in table && current.id == id {
        assert at < |rows| && rows[at] == current by {
          var i :| 0 <= i < |rows| && rows[i] == current;
        }
        var updated := SetClauses(current, patch, now);
        PatchKeepsId(current, patch, now);
        if other :| other in table && other.id != id && Clash(other, updated) {
          ghost var i :| 0 <= i < |rows| && rows[i] == other;
          return Err(UniqueViolation);
        }
        forall i | 0 <= i < |rows| && rows[i].id != id ensures !Clash(rows[i], updated) {
          assert rows[i] in table;
        }
        table := table - {current} + {updated};
        rows := Update(rows, id, patch, now);
        UpdateIsPut(old(rows), id, patch, now);
        UpdatedTable(old(table), old(rows), at, updated, table, rows);
        return Ok(updated);
      }
      forall i | 0 <= i < |rows| ensures rows[i].id != id {
        assert rows[i] in table;
      }
      r := Err(NoRows);
    }
  }

  lemma UpdatedTable(table: set<AccountRecord>, rows: Rows, at: nat, updated: AccountRecord,
                     table': set<AccountRecord>, rows': Rows)
    requires NoClash(rows) && (forall r :: r in table <==> r in rows)
    requires at < |rows| && updated.id == rows[at].id
    requires forall i :: 0 <= i < |rows| && i != at ==> !Clash(rows[i], updated)
    requires table' == table - {rows[at]} + {updated}
    requires rows' == rows[at := updated]
    ensures NoClash(rows') && (forall r :: r in table' <==> r in rows')
  {
    forall r ensures r in table' <==> r in rows' {
      if r in rows && r != rows[at] {
        var i :| 0 <= i < |rows| && rows[i] == r;
        assert rows'[i] == r;
      }
      if r in rows' && r != updated {
        var i :| 0 <= i < |rows'| && rows'[i] == r;
        assert i != at && rows[i] == r;
      }
      assert rows'[at] == updated;
    }
  }

  // ---- Repository ---------------------------------------------------------------

  class AccountRepository {
    const memory: InMemoryAccountStorageDriver?
    const sqlite: SqliteAccountStorageDriver?

    ghost predicate Valid()
      reads memory, sqlite
    {
      && (memory == null) != (sqlite == null)
      && (memory != null ==> memory.Valid())
      && (sqlite != null ==> sqlite.Valid())
    }

    ghost function Rows(): Rows
      reads memory, sqlite
    {
      if memory != null then memory.rows else if sqlite != null then sqlite.rows else []
    }

    constructor (useSqlite: bool)
      ensures Valid() && Rows() == []
      ensures useSqlite <==> sqlite != null
      ensures memory != null ==> fresh(memory)
      ensures sqlite != null ==> fresh(sqlite)
    {
      if useSqlite {
        memory := null;
        sqlite := new SqliteAccountStorageDriver();
      } else {
        memory := new InMemoryAccountStorageDriver();
        sqlite := null;
      }
    }

    /** Only a clash can tell the drivers apart: the map sets its id, the table refuses. */
    method Create(id: string, data: AccountCreateData, now: int) returns (r: Result<AccountRecord, StoreError>)
      requires Valid()
      modifies memory, sqlite
      ensures Valid()
      ensures var record := Created(id, data, now);
              if exists i :: 0 <= i < |old(Rows())| && Clash(old(Rows())[i], record)
              then if sqlite != null then r == Err(UniqueViolation) && Rows() == old(Rows())
                   else r == Ok(record) && Rows() == Put(old(Rows()), record)
              else r == Ok(record) && Rows() == old(Rows()) + [record]
    {
      ghost var at := IndexOf(Rows(), ById(id));
      assert at < |Rows()| ==> Clash(Rows()[at], Created(id, data, now));
      if memory != null {
        var record := memory.Create(id, data, now);
        r := Ok(record);
      } else {
        r := sqlite.Create(id, data, now);
      }
    }

    method FindBy(key: AccountKey) returns (r: Option<AccountRecord>)
      requires Valid()
      ensures IsSelection(Rows(), key, r)
    {
      if memory != null {
        r := memory.FindBy(key);
      } else {
        r := sqlite.FindBy(key);
      }
    }

    /** Only a clash can tell the drivers apart: the map spreads the patch, the table refuses. */
    method ApplyUpdate(id: string, patch: AccountPatch, now: int) returns (r: Result<AccountRecord, StoreError>)
      requires Valid()
      modifies memory, sqlite
      ensures Valid()
      ensures match Lookup(old(Rows()), ById(id))
              case None => r == Err(NoRows) && Rows() == old(Rows())
              case Some(a) =>
                if sqlite != null && exists i :: 0 <= i < |old(Rows())| && old(Rows())[i].id != id && Clash(old(Rows())[i], Patched(a, patch, now))
                then r == Err(UniqueViolation) && Rows() == old(Rows())
                else r == Ok(Patched(a, patch, now)) && Rows() == Update(old(Rows()), id, patch, now)
    {
      if memory != null {
        r := memory.ApplyUpdate(id, patch, now);
      } else {
        r := sqlite.ApplyUpdate(id, patch, now);
      }
    }
  }
}
