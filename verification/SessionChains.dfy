/** Refresh-token rotation on the rows alone: the four ways a call can change them,
    and the chains that `replacedByTokenId` forms. */
module SessionChains {
  import opened Common
  import opened RefreshTokenStore

  predicate Live(r: RefreshTokenRecord) {
    r.revokedAt.None?
  }

  /** Row i was rotated into row j. */
  predicate Links(rows: Rows, i: nat, j: nat)
    requires i < |rows| && j < |rows|
  {
    rows[i].replacedByTokenId == Some(rows[j].id)
  }

  ghost predicate HasSuccessor(rows: Rows, i: nat)
    requires i < |rows|
  {
    exists j: nat :: i < j < |rows| && Links(rows, i, j) && rows[j].accountId == rows[i].accountId
  }

  ghost predicate ChainInv(rows: Rows) {
    && UniqueIds(rows)
    && UniqueHashes(rows)
    && (forall i: nat :: i < |rows| && rows[i].replacedByTokenId.Some? ==> !Live(rows[i]) && HasSuccessor(rows, i))
    && (forall i, j :: 0 <= i < j < |rows| && rows[i].replacedByTokenId.Some? ==>
          rows[i].replacedByTokenId != rows[j].replacedByTokenId)
    && (forall i, j :: 0 <= i < j < |rows| ==> rows[i].createdAt <= rows[j].createdAt)
  }

  // ---- The ways a call changes the rows -------------------------------------------

  datatype Effect =
    | Nothing
    | Open(record: RefreshTokenRecord)
    | Rotate(at: nat, record: RefreshTokenRecord, now: int)
    | Close(at: nat, now: int)
    | Burn(accountId: string, now: int)

  predicate Newcomer(rows: Rows, record: RefreshTokenRecord) {
    && Live(record) && record.replacedByTokenId.None?
    && !HasId(rows, record.id)
    && !HasHash(rows, record.tokenHash)
    && (forall i :: 0 <= i < |rows| ==> rows[i].createdAt <= record.createdAt)
  }

  predicate Allowed(rows: Rows, e: Effect) {
    match e
    case Nothing => true
    case Open(record) => Newcomer(rows, record)
    case Rotate(at, record, _) =>
      Newcomer(rows, record) && at < |rows| && Live(rows[at]) && rows[at].accountId == record.accountId
    case Close(at, _) => at < |rows| && Live(rows[at])
    case Burn(_, _) => true
  }

  function Apply(rows: Rows, e: Effect): Rows
    requires Allowed(rows, e)
  {
    match e
    case Nothing => rows
    case Open(record) => rows + [record]
    case Rotate(at, record, now) =>
      rows[at := rows[at].(revokedAt := Some(now), replacedByTokenId := Some(record.id))] + [record]
    case Close(at, now) => rows[at := rows[at].(revokedAt := Some(now), replacedByTokenId := None)]
    case Burn(accountId, now) => RevokeAllForAccount(rows, accountId, now)
  }

  /** Revoking by id touches exactly the one row that bears it. */
  lemma RevokeTouchesOneRow(rows: Rows, at: nat, now: int, replacedBy: Option<string>)
    requires UniqueIds(rows) && at < |rows|
    ensures Revoke(rows, rows[at].id, now, replacedBy)
         == rows[at := rows[at].(revokedAt := Some(now), replacedByTokenId := replacedBy)]
  {
  }

  predicate SameKeys(a: RefreshTokenRecord, b: RefreshTokenRecord) {
    a.id == b.id && a.tokenHash == b.tokenHash && a.accountId == b.accountId && a.createdAt == b.createdAt
  }

  lemma AppendKeepsKeys(rows: Rows, record: RefreshTokenRecord)
    requires UniqueIds(rows) && UniqueHashes(rows)
    requires forall i, j :: 0 <= i < j < |rows| ==> rows[i].createdAt <= rows[j].createdAt
    requires forall i :: 0 <= i < |rows| ==>
               rows[i].id != record.id && rows[i].tokenHash != record.tokenHash && rows[i].createdAt <= record.createdAt
    ensures var rows' := rows + [record];
            UniqueIds(rows') && UniqueHashes(rows') && forall i, j :: 0 <= i < j < |rows'| ==> rows'[i].createdAt <= rows'[j].createdAt
  {
  }

  /** An effect leaves every key and creation time where it was and adds at most one row. */
  lemma EffectKeepsKeys(rows: Rows, e: Effect)
    requires Allowed(rows, e)
    requires UniqueIds(rows) && UniqueHashes(rows)
    requires forall i, j :: 0 <= i < j < |rows| ==> rows[i].createdAt <= rows[j].createdAt
    ensures var rows' := Apply(rows, e);
            && |rows| <= |rows'| <= |rows| + 1
            && UniqueIds(rows') && UniqueHashes(rows')
            && (forall i, j :: 0 <= i < j < |rows'| ==> rows'[i].createdAt <= rows'[j].createdAt)
            && (forall i :: 0 <= i < |rows| ==> rows'[i].id == rows[i].id && rows'[i].accountId == rows[i].accountId)
  {
    hide Live;
    match e {
      case Rotate(at, record, now) =>
        var spent := rows[at := rows[at].(revokedAt := Some(now), replacedByTokenId := Some(record.id))];
        assert forall i :: 0 <= i < |rows| ==> SameKeys(rows[i], spent[i]);
        AppendKeepsKeys(spent, record);
      case Open(record) => AppendKeepsKeys(rows, record);
      case _ =>
        assert forall i :: 0 <= i < |rows| ==> SameKeys(rows[i], Apply(rows, e)[i]);
    }
  }

  /** The only link an effect adds runs from the rotated row to the new last row. */
  lemma EffectKeepsLinks(rows: Rows, e: Effect, i: nat)
    requires ChainInv(rows) && Allowed(rows, e)
    requires i < |Apply(rows, e)| && Apply(rows, e)[i].replacedByTokenId.Some?
    ensures !Live(Apply(rows, e)[i]) && HasSuccessor(Apply(rows, e), i)
  {
    var rows' := Apply(rows, e);
    EffectKeepsKeys(rows, e);
    if e.Rotate? && i == e.at {
      assert Links(rows', i, |rows|);
    } else {
      assert i < |rows| && rows[i].replacedByTokenId == rows'[i].replacedByTokenId;
      assert HasSuccessor(rows, i);
      var j: nat :| i < j < |rows| && Links(rows, i, j) && rows[j].accountId == rows[i].accountId;
      assert Links(rows', i, j);
    }
  }

  /** No row refers to an id that is not in the table yet. */
  lemma LinksStayInside(rows: Rows, id: string)
    requires ChainInv(rows) && !HasId(rows, id)
    ensures forall i :: 0 <= i < |rows| ==> rows[i].replacedByTokenId != Some(id)
  {
    forall i | 0 <= i < |rows| ensures rows[i].replacedByTokenId != Some(id) {
      if rows[i].replacedByTokenId.Some? {
        assert HasSuccessor(rows, i);
      }
    }
  }

  lemma EffectKeepsChains(rows: Rows, e: Effect)
    requires ChainInv(rows) && Allowed(rows, e)
    ensures ChainInv(Apply(rows, e))
  {
    var rows' := Apply(rows, e);
    EffectKeepsKeys(rows, e);
    forall i: nat | i < |rows'| && rows'[i].replacedByTokenId.Some?
      ensures !Live(rows'[i]) && HasSuccessor(rows', i)
    {
      EffectKeepsLinks(rows, e, i);
    }
    if e.Rotate? {
      LinksStayInside(rows, e.record.id);
    }
  }

  // ---- Chains ---------------------------------------------------------------------

  ghost function Successor(rows: Rows, i: nat): (j: nat)
    requires ChainInv(rows) && i < |rows| && rows[i].replacedByTokenId.Some?
    ensures i < j < |rows| && Links(rows, i, j) && rows[j].accountId == rows[i].accountId
  {
    assert HasSuccessor(rows, i);
    var j: nat :| i < j < |rows| && Links(rows, i, j) && rows[j].accountId == rows[i].accountId;
    j
  }

  /** Where following the links from a row ends; it must end because links only lead forward. */
  ghost function Tip(rows: Rows, i: nat): (t: nat)
    requires ChainInv(rows) && i < |rows|
    ensures i <= t < |rows| && rows[t].replacedByTokenId.None?
    decreases |rows| - i
  {
    if rows[i].replacedByTokenId.None? then i else Tip(rows, Successor(rows, i))
  }

  lemma LinksLeadForward(rows: Rows, i: nat, j: nat)
    requires ChainInv(rows) && i < |rows| && j < |rows| && Links(rows, i, j)
    ensures i < j && j == Successor(rows, i) && rows[i].accountId == rows[j].accountId
  {
    var k := Successor(rows, i);
    assert rows[k].id == rows[j].id;
  }

  /** Where following the links backwards from a row ends. */
  ghost function Root(rows: Rows, j: nat): (r: nat)
    requires ChainInv(rows) && j < |rows|
    ensures r <= j && rows[r].accountId == rows[j].accountId
    decreases j
  {
    if exists i: nat :: i < |rows| && Links(rows, i, j) then
      var i: nat :| i < |rows| && Links(rows, i, j);
      LinksLeadForward(rows, i, j);
      Root(rows, i)
    else j
  }

  /** Linked rows are in one chain, and no row has two predecessors, so chains never merge. */
  lemma LinkedRowsShareRoot(rows: Rows, i: nat, j: nat)
    requires ChainInv(rows) && i < |rows| && j < |rows| && Links(rows, i, j)
    ensures Root(rows, i) == Root(rows, j)
    ensures forall k: nat :: k < |rows| && Links(rows, k, j) ==> k == i
  {
    LinksLeadForward(rows, i, j);
  }

  lemma {:induction false} RootLeadsToSameTip(rows: Rows, j: nat)
    requires ChainInv(rows) && j < |rows|
    ensures Tip(rows, Root(rows, j)) == Tip(rows, j)
    decreases j
  {
    if exists i: nat :: i < |rows| && Links(rows, i, j) {
      var i: nat :| i < |rows| && Links(rows, i, j);
      LinksLeadForward(rows, i, j);
      LinkedRowsShareRoot(rows, i, j);
      RootLeadsToSameTip(rows, i);
    }
  }

  /** A live row is the tip of its chain, and the only live row in it. */
  lemma OneLiveRowPerChain(rows: Rows, i: nat, j: nat)
    requires ChainInv(rows) && i < |rows| && j < |rows|
    requires Live(rows[i])
    ensures Tip(rows, i) == i
    ensures Root(rows, i) == Root(rows, j) && Live(rows[j]) ==> i == j
  {
    RootLeadsToSameTip(rows, i);
    RootLeadsToSameTip(rows, j);
  }

  // ---- Write-once rows --------------------------------------------------------------

  /** The later version of a row: its identity is fixed, and once revoked nothing changes. */
  predicate Settles(r: RefreshTokenRecord, r': RefreshTokenRecord) {
    && r'.(revokedAt := r.revokedAt, replacedByTokenId := r.replacedByTokenId) == r
    && (!Live(r) ==> r' == r)
  }

  predicate Extends(rows: Rows, rows': Rows) {
    |rows| <= |rows'| && forall i :: 0 <= i < |rows| ==> Settles(rows[i], rows'[i])
  }

  lemma EffectSettles(rows: Rows, e: Effect)
    requires Allowed(rows, e)
    ensures Extends(rows, Apply(rows, e))
  {
  }

  // ---- Counting live rows -----------------------------------------------------------

  function LiveCount(rows: Rows, accountId: string): nat {
    if rows == [] then 0
    else
      var last := rows[|rows| - 1];
      LiveCount(rows[..|rows| - 1], accountId) + (if Live(last) && last.accountId == accountId then 1 else 0)
  }

  function Weight(r: RefreshTokenRecord, accountId: string): nat {
    if Live(r) && r.accountId == accountId then 1 else 0
  }

  lemma {:induction false} ReplaceCount(rows: Rows, at: nat, r: RefreshTokenRecord, accountId: string)
    requires at < |rows|
    ensures LiveCount(rows[at := r], accountId) + Weight(rows[at], accountId) == LiveCount(rows, accountId) + Weight(r, accountId)
  {
    var n := |rows| - 1;
    if at == n {
      assert rows[at := r][..n] == rows[..n];
    } else {
      assert rows[at := r][..n] == rows[..n][at := r];
      ReplaceCount(rows[..n], at, r, accountId);
    }
  }

  lemma {:induction false} BurnCount(rows: Rows, burned: string, now: int, accountId: string)
    ensures LiveCount(RevokeAllForAccount(rows, burned, now), accountId)
         == if accountId == burned then 0 else LiveCount(rows, accountId)
  {
    if rows != [] {
      var n := |rows| - 1;
      assert RevokeAllForAccount(rows, burned, now)[..n] == RevokeAllForAccount(rows[..n], burned, now);
      BurnCount(rows[..n], burned, now, accountId);
    }
  }

  /** What each effect does to the number of live sessions of an account. */
  function Delta(rows: Rows, e: Effect, accountId: string): int
    requires Allowed(rows, e)
  {
    match e
    case Nothing => 0
    case Open(record) => if record.accountId == accountId then 1 else 0
    case Rotate(_, _, _) => 0
    case Close(at, _) => if rows[at].accountId == accountId then 0 - 1 else 0
    case Burn(burned, _) => if burned == accountId then 0 - LiveCount(rows, accountId) else 0
  }

  lemma EffectCount(rows: Rows, e: Effect, accountId: string)
    requires Allowed(rows, e)
    ensures LiveCount(Apply(rows, e), accountId) == LiveCount(rows, accountId) + Delta(rows, e, accountId)
  {
    match e
    case Nothing =>
    case Open(record) => assert (rows + [record])[..|rows|] == rows;
    case Rotate(at, record, now) =>
      var r := rows[at].(revokedAt := Some(now), replacedByTokenId := Some(record.id));
      ReplaceCount(rows, at, r, accountId);
      assert (rows[at := r] + [record])[..|rows|] == rows[at := r];
    case Close(at, now) => ReplaceCount(rows, at, rows[at].(revokedAt := Some(now), replacedByTokenId := None), accountId);
    case Burn(burned, now) => BurnCount(rows, burned, now, accountId);
  }
}
