/**
 * The invariant the balance reconciliation exists for: every account's balance is
 * its opening balance plus the effects of the stored transactions on it. The
 * service operations preserve it when no store call fails; the corrected bulk
 * delete preserves it even when single balance increments fail.
 */
module Consistency {
  import opened Wrappers
  import opened Models
  import TR = TransactionRepository
  import opened Reconciliation
  import opened TransactionService

  /** The effects of the stored transactions, each on behalf of its own owner, on one account. */
  function Net(ts: seq<Transaction>, id: string, userId: string): int {
    if |ts| == 0 then 0 else EffectOn(ts[0], ts[0].userId, id, userId) + Net(ts[1..], id, userId)
  }

  /** The accounts are the opening accounts `base` moved by the stored transactions. */
  predicate Balanced(db: Db, base: seq<Account>) {
    && |db.accounts| == |base|
    && forall i | 0 <= i < |base| ::
         db.accounts[i] == base[i].(balance := base[i].balance + Net(db.transactions, base[i].id, base[i].userId))
  }

  lemma {:induction false} NetAppend(ts: seq<Transaction>, t: Transaction, id: string, userId: string)
    ensures Net(ts + [t], id, userId) == Net(ts, id, userId) + EffectOn(t, t.userId, id, userId)
  {
    if |ts| > 0 {
      assert (ts + [t])[1..] == ts[1..] + [t];
      NetAppend(ts[1..], t, id, userId);
    }
  }

  /** Removing documents none of which match leaves the store as it is. */
  lemma {:induction false} RemoveNothing(ts: seq<Transaction>, owner: string, ids: set<string>)
    requires forall t | t in ts :: !(t.userId == owner && t.id in ids)
    ensures TR.RemoveWhere(ts, owner, ids) == ts
  {
    if |ts| > 0 {
      assert ts[0] in ts;
      assert forall t | t in ts[1..] :: t in ts;
      RemoveNothing(ts[1..], owner, ids);
    }
  }

  /** With distinct ids, deleting one owned document removes exactly its effect. */
  lemma {:induction false} NetRemoveOne(ts: seq<Transaction>, owner: string, t: Transaction, id: string, userId: string)
    requires TR.UniqueIds(ts) && t in ts && t.userId == owner
    ensures Net(ts, id, userId) == Net(TR.RemoveWhere(ts, owner, {t.id}), id, userId) + EffectOn(t, owner, id, userId)
  {
    assert TR.UniqueIds(ts[1..]);
    if ts[0] == t {
      forall u | u in ts[1..] ensures u.id != t.id {
        var k :| 0 <= k < |ts[1..]| && ts[1..][k] == u;
        assert ts[k + 1] == u;
      }
      RemoveNothing(ts[1..], owner, {t.id});
    } else {
      assert ts[0].id != t.id by {
        var k :| 0 <= k < |ts| && ts[k] == t;
      }
      NetRemoveOne(ts[1..], owner, t, id, userId);
    }
  }

  /** Removing one set of ids and then another is removing their union. */
  lemma {:induction false} RemoveTwice(ts: seq<Transaction>, owner: string, a: set<string>, b: set<string>)
    ensures TR.RemoveWhere(TR.RemoveWhere(ts, owner, a), owner, b) == TR.RemoveWhere(ts, owner, a + b)
  {
    if |ts| > 0 {
      RemoveTwice(ts[1..], owner, a, b);
    }
  }

  /** With distinct ids, deleting owned documents with distinct ids removes exactly their combined effect. */
  lemma {:induction false} NetRemoveAll(ts: seq<Transaction>, owner: string, rev: seq<Transaction>, id: string, userId: string)
    requires TR.UniqueIds(ts) && TR.UniqueIds(rev)
    requires forall t | t in rev :: t in ts && t.userId == owner
    ensures Net(ts, id, userId) == Net(TR.RemoveWhere(ts, owner, set t | t in rev :: t.id), id, userId) + SumEffect(rev, owner, id, userId)
    decreases |rev|
  {
    if |rev| == 0 {
      assert (set t | t in rev :: t.id) == {};
      RemoveNothing(ts, owner, {});
    } else {
      var x, rest := rev[0], rev[1..];
      assert x in rev;
      NetRemoveOne(ts, owner, x, id, userId);
      var ts' := TR.RemoveWhere(ts, owner, {x.id});
      RestRemains(ts, owner, rev);
      NetRemoveAll(ts', owner, rest, id, userId);
      RemoveTwice(ts, owner, {x.id}, set t | t in rest :: t.id);
      IdsCons(rev);
    }
  }

  lemma {:induction false} IdsCons(rev: seq<Transaction>)
    requires |rev| > 0
    ensures (set t | t in rev :: t.id) == {rev[0].id} + set t | t in rev[1..] :: t.id
  {
    assert rev == [rev[0]] + rev[1..];
  }

  /** After the first of them is deleted, the other listed documents are still stored. */
  lemma {:induction false} RestRemains(ts: seq<Transaction>, owner: string, rev: seq<Transaction>)
    requires TR.UniqueIds(rev) && |rev| > 0
    requires forall t | t in rev :: t in ts && t.userId == owner
    ensures TR.UniqueIds(rev[1..])
    ensures forall t | t in rev[1..] :: t in TR.RemoveWhere(ts, owner, {rev[0].id}) && t.userId == owner
  {
    var rest := rev[1..];
    forall t | t in rest ensures t in TR.RemoveWhere(ts, owner, {rev[0].id}) && t.userId == owner {
      var k :| 0 <= k < |rest| && rest[k] == t;
      assert rev[k + 1] == t;
      assert t.id != rev[0].id;
    }
  }

  /** With distinct ids, patching one owned document swaps its old effect for the new one. */
  lemma {:induction false} NetPatchOne(ts: seq<Transaction>, id: string, owner: string, p: TxPatch, acc: string, userId: string)
    requires TR.UniqueIds(ts) && TR.PatchTypeKnown(p) && TR.GetByID(ts, id, owner).Some?
    ensures var old_ := TR.GetByID(ts, id, owner).value;
      Net(TR.PatchOwned(ts, id, owner, p), acc, userId)
        == Net(ts, acc, userId) - EffectOn(old_, owner, acc, userId) + EffectOn(TR.PatchTx(old_, p), owner, acc, userId)
  {
    var r := TR.PatchOwned(ts, id, owner, p);
    assert r[1..] == TR.PatchOwned(ts[1..], id, owner, p);
    if TR.Owned(ts[0], id, owner) {
      forall u | u in ts[1..] ensures !TR.Owned(u, id, owner) {
        var k :| 0 <= k < |ts[1..]| && ts[1..][k] == u;
        assert ts[k + 1] == u;
      }
      assert r[1..] == ts[1..];
    } else {
      assert TR.UniqueIds(ts[1..]);
      NetPatchOne(ts[1..], id, owner, p, acc, userId);
    }
  }

  // ---------------------------------------------------------------------------
  // Preservation

  /** A successful create keeps the balances consistent with the stored transactions. */
  lemma {:induction false} CreatePreserves(db: Db, base: seq<Account>, owner: string, req: CreateTxRequest, newId: string, now: int, f: Faults)
    requires Balanced(db, base)
    requires CreateTransaction(db, owner, req, newId, now, f).result.Success?
    ensures Balanced(CreateTransaction(db, owner, req, newId, now, f).db, base)
  {
    var r := CreateTransaction(db, owner, req, newId, now, f);
    AppendPreserves(db, base, r.result.value, r.db);
  }

  /** Storing one more transaction and shifting the accounts by its effect keeps them balanced. */
  lemma {:induction false} AppendPreserves(db: Db, base: seq<Account>, t: Transaction, db': Db)
    requires Balanced(db, base)
    requires db'.transactions == db.transactions + [t]
    requires db'.accounts == Shifted(db.accounts, t, t.userId, Forward)
    ensures Balanced(db', base)
  {
    forall i | 0 <= i < |base|
      ensures db'.accounts[i] == base[i].(balance := base[i].balance + Net(db'.transactions, base[i].id, base[i].userId))
    {
      var a := db.accounts[i];
      assert a.id == base[i].id && a.userId == base[i].userId;
      assert db'.accounts[i] == a.(balance := a.balance + Effect(t, t.userId, a));
      NetAppend(db.transactions, t, base[i].id, base[i].userId);
    }
  }

  /** A successful delete keeps the balances consistent with the stored transactions. */
  lemma {:induction false} DeletePreserves(db: Db, base: seq<Account>, id: string, owner: string, f: Faults)
    requires Balanced(db, base) && TR.UniqueIds(db.transactions)
    requires DeleteTransaction(db, id, owner, f).result.Success?
    ensures Balanced(DeleteTransaction(db, id, owner, f).db, base)
  {
    var r := DeleteTransaction(db, id, owner, f);
    var t := TR.GetByID(db.transactions, id, owner).value;
    assert r.db.transactions == TR.RemoveWhere(db.transactions, owner, {t.id});
    assert r.db.accounts == Shifted(db.accounts, t, owner, Backward);
    forall i | 0 <= i < |base|
      ensures r.db.accounts[i] == base[i].(balance := base[i].balance + Net(r.db.transactions, base[i].id, base[i].userId))
    {
      NetRemoveOne(db.transactions, owner, t, base[i].id, base[i].userId);
    }
  }

  /** A successful update keeps the balances consistent with the stored transactions. */
  lemma {:induction false} UpdatePreserves(db: Db, base: seq<Account>, id: string, owner: string, p: TxPatch, f: Faults)
    requires Balanced(db, base) && TR.UniqueIds(db.transactions)
    requires UpdateTransaction(db, id, owner, p, f).result.Success?
    ensures Balanced(UpdateTransaction(db, id, owner, p, f).db, base)
  {
    var r := UpdateTransaction(db, id, owner, p, f);
    UpdateSucceeded(db, id, owner, p, f);
    assert r.db.transactions == TR.PatchOwned(db.transactions, id, owner, p);
    PatchPreserves(db, base, id, owner, p, r.db);
  }

  /** Patching one stored transaction and moving the accounts from its old effect to its new one keeps them balanced. */
  lemma {:induction false} PatchPreserves(db: Db, base: seq<Account>, id: string, owner: string, p: TxPatch, db': Db)
    requires Balanced(db, base) && TR.UniqueIds(db.transactions)
    requires TR.PatchTypeKnown(p) && TR.GetByID(db.transactions, id, owner).Some?
    requires var old_ := TR.GetByID(db.transactions, id, owner).value;
      && db'.transactions == TR.PatchOwned(db.transactions, id, owner, p)
      && db'.accounts == Shifted(Shifted(db.accounts, old_, owner, Backward), TR.PatchTx(old_, p), owner, Forward)
    ensures Balanced(db', base)
  {
    var old_ := TR.GetByID(db.transactions, id, owner).value;
    var mid := Shifted(db.accounts, old_, owner, Backward);
    forall i | 0 <= i < |base|
      ensures db'.accounts[i] == base[i].(balance := base[i].balance + Net(db'.transactions, base[i].id, base[i].userId))
    {
      var a := db.accounts[i];
      assert a.id == base[i].id && a.userId == base[i].userId;
      assert mid[i] == a.(balance := a.balance - Effect(old_, owner, a));
      assert db'.accounts[i] == a.(balance := a.balance - Effect(old_, owner, a) + Effect(TR.PatchTx(old_, p), owner, a));
      NetPatchOne(db.transactions, id, owner, p, base[i].id, base[i].userId);
    }
  }

  /**
   * The corrected bulk delete keeps the balances consistent whenever no two
   * consecutive increments fail: what it deletes is exactly what it reverted.
   */
  lemma {:induction false} BulkDeleteFixedPreserves(db: Db, base: seq<Account>, owner: string, ids: seq<string>, f: Faults)
    requires Balanced(db, base) && TR.UniqueIds(db.transactions) && NoConsecutive(f.increments)
    requires BulkDeleteFixed(db, owner, ids, f).result.Success?
    ensures Balanced(BulkDeleteFixed(db, owner, ids, f).db, base)
  {
    var r := BulkDeleteFixed(db, owner, ids, f);
    var rev := Reverted(db, owner, ids, f);
    BulkDeleteFixedDeletesReverted(db, owner, ids, f);
    FixedStore(db, owner, ids, f);
    forall i | 0 <= i < |base|
      ensures r.db.accounts[i] == base[i].(balance := base[i].balance + Net(r.db.transactions, base[i].id, base[i].userId))
    {
      NetRemoveAll(db.transactions, owner, rev, base[i].id, base[i].userId);
    }
  }

  /**
   * The bulk delete as written keeps the balances consistent on ordinary input:
   * distinct ids, no failing lookup or increment, and every loaded transfer with
   * a destination.
   */
  lemma {:induction false} BulkDeletePreservesOnOrdinaryInput(db: Db, base: seq<Account>, owner: string,
                                                              ids: seq<string>, f: Faults)
    requires Balanced(db, base) && TR.UniqueIds(db.transactions) && Distinct(ids)
    requires f.increments == {} && f.transactionLookups == {}
    requires forall t | t in LoadAll(db, owner, ids, f) :: t.kind != Transfer || t.toAccountId.Some?
    requires BulkDelete(db, owner, ids, f).result.Success?
    ensures Balanced(BulkDelete(db, owner, ids, f).db, base)
  {
    BulkDeleteAgreesOnOrdinaryInput(db, owner, ids, f);
    assert NoConsecutive(f.increments);
    BulkDeleteFixedPreserves(db, base, owner, ids, f);
  }

  /** The corrected bulk delete's store: the reverted documents removed. */
  lemma {:induction false} FixedStore(db: Db, owner: string, ids: seq<string>, f: Faults)
    requires BulkDeleteFixed(db, owner, ids, f).result.Success?
    ensures var rev := Reverted(db, owner, ids, f);
      BulkDeleteFixed(db, owner, ids, f).db.transactions == TR.RemoveWhere(db.transactions, owner, set t | t in rev :: t.id)
  {
    var rev := Reverted(db, owner, ids, f);
    IdSet(rev);
  }


  /** The as-written bulk delete does not: a repeated id leaves the balances off the stored transactions. */
  lemma BulkDeleteBreaksBalance()
    ensures var base := [SampleDb().accounts[0].(balance := 0)];
      && Balanced(SampleDb(), base)
      && !Balanced(BulkDelete(SampleDb(), "u", ["t", "t"], Faults({}, {}, {}, {}, false)).db, base)
  {
    BulkDeleteRevertsDuplicatesTwice();
  }
}
