/** The side tables that say which account a token, a challenge or a credential belongs to. */
module AccountLinks {
  import opened Common

  /** Key to account id; the first link of a key is the one that stays. */
  type Owners<K> = map<K, string>

  function Linked<K>(owners: Owners<K>, key: K, accountId: string): Owners<K> {
    if key in owners then owners else owners[key := accountId]
  }

  function OwnerOf<K>(owners: Owners<K>, key: K): Option<string> {
    if key in owners then Some(owners[key]) else None
  }

  /** A table row; the key is the primary key. */
  datatype LinkRow<K> = LinkRow(key: K, accountId: string)

  /** One class for the three tables, over a map in memory or a database table. */
  class AccountLinkRepository<K(==, !new)> {
    const useSqlite: bool
    var memory: map<K, string>
    var table: set<LinkRow<K>>
    ghost var owners: Owners<K>

    ghost predicate Valid()
      reads this
    {
      if useSqlite then
        && (forall row :: row in table ==> OwnerOf(owners, row.key) == Some(row.accountId))
        && (forall k :: k in owners ==> LinkRow(k, owners[k]) in table)
      else owners == memory
    }

    constructor (useSqlite: bool)
      ensures Valid() && owners == map[] && this.useSqlite == useSqlite
    {
      this.useSqlite := useSqlite;
      memory := map[];
      table := {};
      owners := map[];
    }

    /** `INSERT ... ON CONFLICT DO NOTHING`, or set unless present. */
    method Link(key: K, accountId: string)
      requires Valid()
      modifies this
      ensures Valid() && owners == Linked(old(owners), key, accountId)
    {
      if useSqlite {
        if row :| row in table && row.key == key {
          return;
        }
        table := table + {LinkRow(key, accountId)};
        owners := owners[key := accountId];
      } else if key !in memory {
        memory := memory[key := accountId];
        owners := memory;
      }
    }

    method GetAccountId(key: K) returns (r: Option<string>)
      requires Valid()
      ensures r == OwnerOf(owners, key)
    {
      if useSqlite {
        if row :| row in table && row.key == key {
          return Some(row.accountId);
        }
        r := None;
      } else {
        r := if key in memory then Some(memory[key]) else None;
      }
    }

    /** Exactly the keys whose owner is the account: the inverse image of `GetAccountId`. */
    method ListKeysForAccount(accountId: string) returns (keys: set<K>)
      requires Valid()
      ensures forall k :: k in keys <==> OwnerOf(owners, k) == Some(accountId)
    {
      if useSqlite {
        keys := set row | row in table && row.accountId == accountId :: row.key;
        forall k ensures k in keys <==> OwnerOf(owners, k) == Some(accountId) {
          if OwnerOf(owners, k) == Some(accountId) {
            assert LinkRow(k, accountId) in table;
          }
        }
      } else {
        keys := set k | k in memory && memory[k] == accountId;
      }
    }
  }
}
