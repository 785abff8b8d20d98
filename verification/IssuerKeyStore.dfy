/** Issuer-key rows, one per account, and the two drivers that store them. */
module IssuerKeyStore {
  import opened Common

  datatype IssuerKeyRow = IssuerKeyRow(id: string, accountId: string, did: string, encryptedPrivateKey: string, createdAt: int)

  type Rows = seq<IssuerKeyRow>

  predicate Clash(a: IssuerKeyRow, b: IssuerKeyRow) {
    a.id == b.id || a.accountId == b.accountId || a.did == b.did
  }

  predicate Clashes(rows: Rows, row: IssuerKeyRow) {
    exists i :: 0 <= i < |rows| && Clash(rows[i], row)
  }

  predicate UniqueAccounts(rows: Rows) {
    forall i, j :: 0 <= i < j < |rows| ==> rows[i].accountId != rows[j].accountId
  }

  function IndexOfAccount(rows: Rows, accountId: string): (i: nat)
    ensures i <= |rows|
    ensures i < |rows| ==> rows[i].accountId == accountId
    ensures forall j :: 0 <= j < i ==> rows[j].accountId != accountId
  {
    if rows == [] then 0
    else if rows[0].accountId == accountId then 0
    else 1 + IndexOfAccount(rows[1..], accountId)
  }

  function FindByAccount(rows: Rows, accountId: string): Option<IssuerKeyRow> {
    var i := IndexOfAccount(rows, accountId);
    if i < |rows| then Some(rows[i]) else None
  }

  /** `Map.set` on the account id. */
  function Put(rows: Rows, row: IssuerKeyRow): Rows {
    var i := IndexOfAccount(rows, row.accountId);
    if i < |rows| then rows[i := row] else rows + [row]
  }

  predicate HasAccount(rows: Rows, accountId: string) {
    exists i :: 0 <= i < |rows| && rows[i].accountId == accountId
  }

  /** The map keyed by account holds exactly the rows. */
  ghost predicate Indexes(byAccount: map<string, IssuerKeyRow>, rows: Rows) {
    && UniqueAccounts(rows)
    && (forall a :: a in byAccount ==> HasAccount(rows, a))
    && (forall i :: 0 <= i < |rows| ==> rows[i].accountId in byAccount && byAccount[rows[i].accountId] == rows[i])
  }

  lemma PutIndexes(byAccount: map<string, IssuerKeyRow>, rows: Rows, row: IssuerKeyRow)
    requires Indexes(byAccount, rows)
    ensures Indexes(byAccount[row.accountId := row], Put(rows, row))
  {
    var at := IndexOfAccount(rows, row.accountId);
    var rows' := Put(rows, row);
    assert rows'[at] == row;
    forall a | a in byAccount[row.accountId := row] ensures HasAccount(rows', a) {
      if a != row.accountId {
        var j :| 0 <= j < |rows| && rows[j].accountId == a;
        assert rows'[j].accountId == a;
      }
    }
  }

  class InMemoryIssuerKeyStorageDriver {
    var rowsByAccount: map<string, IssuerKeyRow>
    ghost var rows: Rows

    ghost predicate Valid()
      reads this
    {
      Indexes(rowsByAccount, rows)
    }

    constructor ()
      ensures Valid() && rows == []
    {
      rowsByAccount := map[];
      rows := [];
    }

    method Create(row: IssuerKeyRow)
      requires Valid()
      modifies this
      ensures Valid() && rows == Put(old(rows), row)
    {
      PutIndexes(rowsByAccount, rows, row);
      rowsByAccount := rowsByAccount[row.accountId := row];
      rows := Put(rows, row);
    }

    method FindByAccountId(accountId: string) returns (r: Option<IssuerKeyRow>)
      requires Valid()
      ensures r == FindByAccount(rows, accountId)
    {
      r := if accountId in rowsByAccount then Some(rowsByAccount[accountId]) else None;
    }
  }

  /** PRIMARY KEY (id), UNIQUE (account_id), UNIQUE (did). */
  class SqliteIssuerKeyStorageDriver {
    var table: set<IssuerKeyRow>
    ghost var rows: Rows

    ghost predicate Valid()
      reads this
    {
      && UniqueAccounts(rows)
      && (forall r :: r in table <==> r in rows)
    }

    constructor ()
      ensures Valid() && rows == []
    {
      table := {};
      rows := [];
    }

    method Create(row: IssuerKeyRow) returns (ok: bool)
      requires Valid()
      modifies this
      ensures Valid()
      ensures ok <==> !Clashes(old(rows), row)
      ensures rows == if ok then old(rows) + [row] else old(rows)
    {
      if other :| other in table && Clash(other, row) {
        ghost var i :| 0 <= i < |rows| && rows[i] == other;
        return false;
      }
      forall i | 0 <= i < |rows| ensures !Clash(rows[i], row) {
        assert rows[i] in table;
      }
      table := table + {row};
      rows := rows + [row];
      ok := true;
    }

    method FindByAccountId(accountId: string) returns (r: Option<IssuerKeyRow>)
      requires Valid()
      ensures r == FindByAccount(rows, accountId)
    {
      if row :| row in table && row.accountId == accountId {
        ghost var i :| 0 <= i < |rows| && rows[i] == row;
        return Some(row);
      }
      forall i | 0 <= i < |rows| ensures rows[i].accountId != accountId {
        assert rows[i] in table;
      }
      r := None;
    }
  }

  class IssuerKeyRepository {
    const memory: InMemoryIssuerKeyStorageDriver?
    const sqlite: SqliteIssuerKeyStorageDriver?

    ghost predicate Valid()
      reads memory, sqlite
    {
      && (memory == null) != (sqlite == null)
      && (memory != null ==> memory.Valid())
      && (sqlite != null ==> sqlite.Valid())
    }

    ghost function Rows(): Rows
      reads memory, sqlite
    {
      if memory != null then memory.rows else if sqlite != null then sqlite.rows else []
    }

    constructor (useSqlite: bool)
      ensures Valid() && Rows() == []
      ensures useSqlite <==> sqlite != null
      ensures memory != null ==> fresh(memory)
      ensures sqlite != null ==> fresh(sqlite)
    {
      if useSqlite {
        memory := null;
        sqlite := new SqliteIssuerKeyStorageDriver();
      } else {
        memory := new InMemoryIssuerKeyStorageDriver();
        sqlite := null;
      }
    }

    method Create(row: IssuerKeyRow) returns (ok: bool)
      requires Valid()
      modifies memory, sqlite
      ensures Valid()
      ensures if Clashes(old(Rows()), row)
              then if sqlite != null then !ok && Rows() == old(Rows()) else ok && Rows() == Put(old(Rows()), row)
              else ok && Rows() == old(Rows()) + [row]
    {
      ghost var at := IndexOfAccount(Rows(), row.accountId);
      assert at < |Rows()| ==> Clash(Rows()[at], row);
      if memory != null {
        memory.Create(row);
        ok := true;
      } else {
        ok := sqlite.Create(row);
      }
    }

    method FindByAccountId(accountId: string) returns (r: Option<IssuerKeyRow>)
      requires Valid()
      ensures r == FindByAccount(Rows(), accountId)
    {
      if memory != null {
        r := memory.FindByAccountId(accountId);
      } else {
        r := sqlite.FindByAccountId(accountId);
      }
    }
  }
}
