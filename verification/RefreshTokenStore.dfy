/** The refresh-token table: what its operations mean on the rows in creation order,
    and the two storage drivers that implement it. */
module RefreshTokenStore {
  import opened Common

  datatype RefreshTokenRecord = RefreshTokenRecord(
    id: string,
    accountId: string,
    tokenHash: Digest,
    expiresAt: int,
    revokedAt: Option<int>,
    replacedByTokenId: Option<string>,
    createdAt: int)

  type Rows = seq<RefreshTokenRecord>

  datatype StoreError = UniqueViolation

  // ---- Meaning of the operations ------------------------------------------------

  predicate UniqueHashes(rows: Rows) {
    forall i, j :: 0 <= i < j < |rows| ==> rows[i].tokenHash != rows[j].tokenHash
  }

  predicate UniqueIds(rows: Rows) {
    forall i, j :: 0 <= i < j < |rows| ==> rows[i].id != rows[j].id
  }

  predicate HasHash(rows: Rows, tokenHash: Digest) {
    exists i :: 0 <= i < |rows| && rows[i].tokenHash == tokenHash
  }

  predicate HasId(rows: Rows, id: string) {
    exists i :: 0 <= i < |rows| && rows[i].id == id
  }

  function IndexOfHash(rows: Rows, tokenHash: Digest): (i: nat)
    ensures i <= |rows|
    ensures i < |rows| ==> rows[i].tokenHash == tokenHash
    ensures forall j :: 0 <= j < i ==> rows[j].tokenHash != tokenHash
  {
    if rows == [] then 0
    else if rows[0].tokenHash == tokenHash then 0
    else 1 + IndexOfHash(rows[1..], tokenHash)
  }

  function Find(rows: Rows, tokenHash: Digest): Option<RefreshTokenRecord> {
    var i := IndexOfHash(rows, tokenHash);
    if i < |rows| then Some(rows[i]) else None
  }

  function Issued(id: string, accountId: string, tokenHash: Digest, expiresAt: int, now: int): RefreshTokenRecord {
    RefreshTokenRecord(id, accountId, tokenHash, expiresAt, None, None, now)
  }

  /** `Map.set`: a key already present keeps its place and loses its old value. */
  function Put(rows: Rows, record: RefreshTokenRecord): Rows {
    var i := IndexOfHash(rows, record.tokenHash);
    if i < |rows| then rows[i := record] else rows + [record]
  }

  function RevokeRow(r: RefreshTokenRecord, id: string, now: int, replacedBy: Option<string>): RefreshTokenRecord {
    if r.id == id then r.(revokedAt := Some(now), replacedByTokenId := replacedBy) else r
  }

  function RevokeAccountRow(r: RefreshTokenRecord, accountId: string, now: int): RefreshTokenRecord {
    if r.accountId == accountId && r.revokedAt.None? then r.(revokedAt := Some(now)) else r
  }

  function Revoke(rows: Rows, id: string, now: int, replacedBy: Option<string>): Rows {
    seq(|rows|, i requires 0 <= i < |rows| => RevokeRow(rows[i], id, now, replacedBy))
  }

  function RevokeAllForAccount(rows: Rows, accountId: string, now: int): Rows {
    seq(|rows|, i requires 0 <= i < |rows| => RevokeAccountRow(rows[i], accountId, now))
  }

  // ---- Drivers ------------------------------------------------------------------

  /** The map keyed by hash holds exactly the rows. */
  ghost predicate Indexes(byHash: map<Digest, RefreshTokenRecord>, rows: Rows) {
    && UniqueHashes(rows)
    && (forall h :: h in byHash ==> HasHash(rows, h))
    && (forall i :: 0 <= i < |rows| ==> rows[i].tokenHash in byHash && byHash[rows[i].tokenHash] == rows[i])
  }

  lemma PutIndexes(byHash: map<Digest, RefreshTokenRecord>, rows: Rows, record: RefreshTokenRecord)
    requires Indexes(byHash, rows)
    ensures Indexes(byHash[record.tokenHash := record], Put(rows, record))
  {
    var at := IndexOfHash(rows, record.tokenHash);
    var rows' := Put(rows, record);
    assert rows'[at] == record;
    forall h | h in byHash[record.tokenHash := record] ensures HasHash(rows', h) {
      if h != record.tokenHash {
        var j :| 0 <= j < |rows| && rows[j].tokenHash == h;
        assert rows'[j].tokenHash == h;
      }
    }
  }

  /** Rewriting every value of the map is rewriting every row, as long as the hashes stay. */
  lemma RewriteIndexes(byHash: map<Digest, RefreshTokenRecord>, rows: Rows, byHash': map<Digest, RefreshTokenRecord>, rows': Rows)
    requires Indexes(byHash, rows)
    requires |rows'| == |rows| && byHash'.Keys == byHash.Keys
    requires forall i :: 0 <= i < |rows| ==> rows'[i].tokenHash == rows[i].tokenHash && rows'[i].id == rows[i].id
    requires forall i :: 0 <= i < |rows| ==> byHash'[rows[i].tokenHash] == rows'[i]
    ensures Indexes(byHash', rows')
  {
    KeepsKeys(rows, rows');
  }

  class InMemoryRefreshTokenStorageDriver {
    var rowsByHash: map<Digest, RefreshTokenRecord>
    /** The map's values in insertion order. */
    ghost var rows: Rows

    ghost predicate Valid()
      reads this
    {
      Indexes(rowsByHash, rows)
    }

    constructor ()
      ensures Valid() && rows == []
    {
      rowsByHash := map[];
      rows := [];
    }

    method Create(id: string, accountId: string, tokenHash: Digest, expiresAt: int, now: int)
      returns (record: RefreshTokenRecord)
      requires Valid()
      modifies this
      ensures Valid()
      ensures record == Issued(id, accountId, tokenHash, expiresAt, now)
      ensures rows == Put(old(rows), record)
    {
      record := RefreshTokenRecord(id, accountId, tokenHash, expiresAt, None, None, now);
      rowsByHash := rowsByHash[tokenHash := record];
      PutIndexes(old(rowsByHash), rows, record);
      rows := Put(rows, record);
    }

    method FindByTokenHash(tokenHash: Digest) returns (r: Option<RefreshTokenRecord>)
      requires Valid()
      ensures r == Find(rows, tokenHash)
    {
      if tokenHash in rowsByHash {
        r := Some(rowsByHash[tokenHash]);
      } else {
        r := None;
      }
    }

    method RevokeById(id: string, replacedBy: Option<string>, now: int)
      requires Valid()
      modifies this
      ensures Valid()
      ensures rows == Revoke(old(rows), id, now, replacedBy)
    {
      var todo := rowsByHash.Keys;
      ghost var before := rowsByHash;
      while todo != {}
        invariant todo <= rowsByHash.Keys == before.Keys
        invariant rows == old(rows)
        invariant forall h :: h in before ==>
                    rowsByHash[h] == if h in todo then before[h] else RevokeRow(before[h], id, now, replacedBy)
        decreases todo
      {
        var h :| h in todo;
        if rowsByHash[h].id == id {
          rowsByHash := rowsByHash[h := rowsByHash[h].(revokedAt := Some(now), replacedByTokenId := replacedBy)];
        }
        todo := todo - {h};
      }
      RewriteIndexes(before, rows, rowsByHash, Revoke(rows, id, now, replacedBy));
      rows := Revoke(rows, id, now, replacedBy);
    }

    method RevokeEveryForAccount(accountId: string, now: int)
      requires Valid()
      modifies this
      ensures Valid()
      ensures rows == RevokeAllForAccount(old(rows), accountId, now)
    {
      var todo := rowsByHash.Keys;
      ghost var before := rowsByHash;
      while todo != {}
        invariant todo <= rowsByHash.Keys == before.Keys
        invariant rows == old(rows)
        invariant forall h :: h in before ==>
                    rowsByHash[h] == if h in todo then before[h] else RevokeAccountRow(before[h], accountId, now)
        decreases todo
      {
        var h :| h in todo;
        if rowsByHash[h].accountId == accountId && rowsByHash[h].revokedAt.None? {
          rowsByHash := rowsByHash[h := rowsByHash[h].(revokedAt := Some(now))];
        }
        todo := todo - {h};
      }
      RewriteIndexes(before, rows, rowsByHash, RevokeAllForAccount(rows, accountId, now));
      rows := RevokeAllForAccount(rows, accountId, now);
    }
  }

  /** Rewriting rows in place without touching their keys keeps the keys unique. */
  lemma KeepsKeys(rows: Rows, rows': Rows)
    requires |rows| == |rows'|
    requires forall i :: 0 <= i < |rows| ==> rows'[i].tokenHash == rows[i].tokenHash && rows'[i].id == rows[i].id
    ensures UniqueHashes(rows) ==> UniqueHashes(rows')
    ensures UniqueIds(rows) ==> UniqueIds(rows')
    ensures forall h :: HasHash(rows, h) <==> HasHash(rows', h)
  {
    forall h ensures HasHash(rows, h) <==> HasHash(rows', h) {
      if HasHash(rows, h) {
        var i :| 0 <= i < |rows| && rows[i].tokenHash == h;
        assert rows'[i].tokenHash == h;
      }
      if HasHash(rows', h) {
        var i :| 0 <= i < |rows'| && rows'[i].tokenHash == h;
        assert rows[i].tokenHash == h;
      }
    }
  }

  /** UPDATE refresh_tokens SET revoked_at, replaced_by_token_id WHERE id. */
  function UpdateById(table: set<RefreshTokenRecord>, id: string, now: int, replacedBy: Option<string>): set<RefreshTokenRecord> {
    set r | r in table :: RevokeRow(r, id, now, replacedBy)
  }

  /** UPDATE refresh_tokens SET revoked_at WHERE account_id AND revoked_at IS NULL. */
  function UpdateByAccount(table: set<RefreshTokenRecord>, accountId: string, now: int): set<RefreshTokenRecord> {
    set r | r in table :: RevokeAccountRow(r, accountId, now)
  }

  ghost predicate Holds(table: set<RefreshTokenRecord>, rows: Rows) {
    forall r :: r in table <==> r in rows
  }

  lemma UpdateByIdHolds(table: set<RefreshTokenRecord>, rows: Rows, id: string, now: int, replacedBy: Option<string>)
    requires Holds(table, rows)
    ensures Holds(UpdateById(table, id, now, replacedBy), Revoke(rows, id, now, replacedBy))
  {
    var table', rows' := UpdateById(table, id, now, replacedBy), Revoke(rows, id, now, replacedBy);
    forall r ensures r in table' <==> r in rows' {
      if r in table' {
        var before :| before in table && r == RevokeRow(before, id, now, replacedBy);
        var i :| 0 <= i < |rows| && rows[i] == before;
        assert rows'[i] == r;
      }
      if r in rows' {
        var i :| 0 <= i < |rows'| && rows'[i] == r;
        assert rows[i] in table;
      }
    }
  }

  lemma UpdateByAccountHolds(table: set<RefreshTokenRecord>, rows: Rows, accountId: string, now: int)
    requires Holds(table, rows)
    ensures Holds(UpdateByAccount(table, accountId, now), RevokeAllForAccount(rows, accountId, now))
  {
    var table', rows' := UpdateByAccount(table, accountId, now), RevokeAllForAccount(rows, accountId, now);
    forall r ensures r in table' <==> r in rows' {
      if r in table' {
        var before :| before in table && r == RevokeAccountRow(before, accountId, now);
        var i :| 0 <= i < |rows| && rows[i] == before;
        assert rows'[i] == r;
      }
      if r in rows' {
        var i :| 0 <= i < |rows'| && rows'[i] == r;
        assert rows[i] in table;
      }
    }
  }

  /** A table with PRIMARY KEY (id) and UNIQUE (token_hash). A SELECT may return any matching row. */
  class SqliteRefreshTokenStorageDriver {
    var table: set<RefreshTokenRecord>
    /** The rows in insertion order. */
    ghost var rows: Rows

    ghost predicate Valid()
      reads this
    {
      && UniqueHashes(rows)
      && UniqueIds(rows)
      && Holds(table, rows)
    }

    constructor ()
      ensures Valid() && rows == []
    {
      table := {};
      rows := [];
    }

    method Create(id: string, accountId: string, tokenHash: Digest, expiresAt: int, now: int)
      returns (r: Result<RefreshTokenRecord, StoreError>)
      requires Valid()
      modifies this
      ensures Valid()
      ensures r.Err? <==> HasId(old(rows), id) || HasHash(old(rows), tokenHash)
      ensures r.Err? ==> rows == old(rows)
      ensures r.Ok? ==>
                && r.value == Issued(id, accountId, tokenHash, expiresAt, now)
                && rows == old(rows) + [r.value]
    {
      if clash :| clash in table && (clash.id == id || clash.tokenHash == tokenHash) {
        ghost var i :| 0 <= i < |rows| && rows[i] == clash;
        return Err(UniqueViolation);
      }
      forall i | 0 <= i < |rows| ensures rows[i].id != id && rows[i].tokenHash != tokenHash {
        assert rows[i] in table;
      }
      var record := RefreshTokenRecord(id, accountId, tokenHash, expiresAt, None, None, now);
      table := table + {record};
      rows := rows + [record];
      r := Ok(record);
    }

    method FindByTokenHash(tokenHash: Digest) returns (r: Option<RefreshTokenRecord>)
      requires Valid()
      ensures r == Find(rows, tokenHash)
    {
      if row :| row in table && row.tokenHash == tokenHash {
        ghost var i :| 0 <= i < |rows| && rows[i] == row;
        return Some(row);
      }
      forall i | 0 <= i < |rows| ensures rows[i].tokenHash != tokenHash {
        assert rows[i] in table;
      }
      r := None;
    }

    method RevokeById(id: string, replacedBy: Option<string>, now: int)
      requires Valid()
      modifies this
      ensures Valid()
      ensures rows == Revoke(old(rows), id, now, replacedBy)
    {
      UpdateByIdHolds(table, rows, id, now, replacedBy);
      table := UpdateById(table, id, now, replacedBy);
      rows := Revoke(rows, id, now, replacedBy);
      KeepsKeys(old(rows), rows);
    }

    method RevokeEveryForAccount(accountId: string, now: int)
      requires Valid()
      modifies this
      ensures Valid()
      ensures rows == RevokeAllForAccount(old(rows), accountId, now)
    {
      UpdateByAccountHolds(table, rows, accountId, now);
      table := UpdateByAccount(table, accountId, now);
      rows := RevokeAllForAccount(rows, accountId, now);
      KeepsKeys(old(rows), rows);
    }
  }

  // ---- Repository ---------------------------------------------------------------

  /** Delegates to whichever driver the process was configured with. */
  class RefreshTokenRepository {
    const memory: InMemoryRefreshTokenStorageDriver?
    const sqlite: SqliteRefreshTokenStorageDriver?

    ghost predicate Valid()
      reads memory, sqlite
    {
      && (memory == null) != (sqlite == null)
      && (memory != null ==> memory.Valid())
      && (sqlite != null ==> sqlite.Valid())
    }

    ghost function Rows(): Rows
      reads memory, sqlite
    {
      if memory != null then memory.rows else if sqlite != null then sqlite.rows else []
    }

    constructor (useSqlite: bool)
      ensures Valid() && Rows() == []
      ensures useSqlite <==> sqlite != null
      ensures memory != null ==> fresh(memory)
      ensures sqlite != null ==> fresh(sqlite)
    {
      if useSqlite {
        memory := null;
        sqlite := new SqliteRefreshTokenStorageDriver();
      } else {
        memory := new InMemoryRefreshTokenStorageDriver();
        sqlite := null;
      }
    }

    /** Only a clash of id or hash can tell the drivers apart: the map overwrites, the table refuses. */
    method Create(id: string, accountId: string, tokenHash: Digest, expiresAt: int, now: int)
      returns (r: Result<RefreshTokenRecord, StoreError>)
      requires Valid()
      modifies memory, sqlite
      ensures Valid()
      ensures !HasId(old(Rows()), id) && !HasHash(old(Rows()), tokenHash) ==>
                && r == Ok(Issued(id, accountId, tokenHash, expiresAt, now))
                && Rows() == old(Rows()) + [r.value]
      ensures HasId(old(Rows()), id) || HasHash(old(Rows()), tokenHash) ==>
                if sqlite != null then r.Err? && Rows() == old(Rows()) else r.Ok? && Rows() == Put(old(Rows()), r.value)
    {
      if memory != null {
        var record := memory.Create(id, accountId, tokenHash, expiresAt, now);
        r := Ok(record);
      } else {
        r := sqlite.Create(id, accountId, tokenHash, expiresAt, now);
      }
    }

    method FindByTokenHash(tokenHash: Digest) returns (r: Option<RefreshTokenRecord>)
      requires Valid()
      ensures r == Find(Rows(), tokenHash)
    {
      if memory != null {
        r := memory.FindByTokenHash(tokenHash);
      } else {
        r := sqlite.FindByTokenHash(tokenHash);
      }
    }

    method RevokeById(id: string, replacedBy: Option<string>, now: int)
      requires Valid()
      modifies memory, sqlite
      ensures Valid()
      ensures Rows() == Revoke(old(Rows()), id, now, replacedBy)
    {
      if memory != null {
        memory.RevokeById(id, replacedBy, now);
      } else {
        sqlite.RevokeById(id, replacedBy, now);
      }
    }

    method RevokeEveryForAccount(accountId: string, now: int)
      requires Valid()
      modifies memory, sqlite
      ensures Valid()
      ensures Rows() == RevokeAllForAccount(old(Rows()), accountId, now)
    {
      if memory != null {
        memory.RevokeEveryForAccount(accountId, now);
      } else {
        sqlite.RevokeEveryForAccount(accountId, now);
      }
    }
  }
}
