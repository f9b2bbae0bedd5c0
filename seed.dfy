/**
 * The `/init` route: the store's contents are deleted and then replaced
 * by the fetched seed list, in two separate steps.
 */
module InitRoute {
  import opened Transactions

  /**
   * The documents an ordered `insertMany(docs)` leaves written: all of
   * them, or, after a write error at document `k` (`fault == Some(k)`),
   * the ones before it.
   */
  function Inserted(docs: seq<Transaction>, fault: Option<nat>): (r: seq<Transaction>)
    ensures r <= docs
    ensures fault.None? ==> r == docs
    ensures fault.Some? ==> |r| == Min(fault.value, |docs|)
  {
    if fault.None? then docs else docs[..Min(fault.value, |docs|)]
  }

  /**
   * The store's contents after `/init`. A failed fetch (`fetched == None`)
   * or a failed delete changes nothing; otherwise the old contents are
   * gone and what was inserted remains.
   */
  function AfterInit(before: seq<Transaction>, fetched: Option<seq<Transaction>>,
                     deleteFails: bool, insertFault: Option<nat>): (r: seq<Transaction>)
    ensures fetched.None? || deleteFails ==> r == before
    ensures fetched.Some? && !deleteFails ==> r <= fetched.value
    ensures fetched.Some? && !deleteFails && insertFault.None? ==> r == fetched.value
  {
    if fetched.None? || deleteFails then before else Inserted(fetched.value, insertFault)
  }

  /** The transaction collection, which `/init` changes in place. */
  class TransactionStore {
    var records: seq<Transaction>

    constructor ()
      ensures records == []
    {
      records := [];
    }

    /** `Transaction.deleteMany()`: removes every document unless the store reports an error. */
    method DeleteMany(fails: bool) returns (ok: bool)
      modifies this
      ensures ok == !fails
      ensures records == if fails then old(records) else []
    {
      ok := !fails;
      if ok {
        records := [];
      }
    }

    /** `Transaction.insertMany(docs)`: appends the documents that get written, in order. */
    method InsertMany(docs: seq<Transaction>, fault: Option<nat>) returns (ok: bool)
      modifies this
      ensures ok == fault.None?
      ensures records == old(records) + Inserted(docs, fault)
    {
      ok := fault.None?;
      records := records + Inserted(docs, fault);
    }

    /**
     * `GET /init` with the fetched list as a parameter: 200 after both
     * steps succeed, 500 otherwise, the store then holding whatever the
     * steps completed.
     */
    method Init(fetched: Option<seq<Transaction>>, deleteFails: bool, insertFault: Option<nat>)
      returns (r: Response<()>)
      modifies this
      ensures r == Ok(()) <==> fetched.Some? && !deleteFails && insertFault.None?
      ensures r == Ok(()) || r == Error
      ensures records == AfterInit(old(records), fetched, deleteFails, insertFault)
      ensures r == Ok(()) ==> records == fetched.value
    {
      if fetched.None? {
        return Error;
      }
      var deleted := DeleteMany(deleteFails);
      if !deleted {
        return Error;
      }
      var inserted := InsertMany(fetched.value, insertFault);
      if !inserted {
        return Error;
      }
      return Ok(());
    }

    /** Two `/init` calls against an unchanged source leave what one call leaves. */
    method InitTwice(fetched: Option<seq<Transaction>>, deleteFails: bool, insertFault: Option<nat>)
      returns (first: Response<()>, second: Response<()>)
      modifies this
      ensures first == second
      ensures records == AfterInit(old(records), fetched, deleteFails, insertFault)
    {
      first := Init(fetched, deleteFails, insertFault);
      second := Init(fetched, deleteFails, insertFault);
      InitIdempotent(old(records), fetched, deleteFails, insertFault);
    }
  }

  /** After a successful `/init` the store holds exactly the fetched list. */
  lemma InitReplaces(before: seq<Transaction>, docs: seq<Transaction>)
    ensures AfterInit(before, Some(docs), false, None) == docs
  {
  }

  /** Once the delete has succeeded, nothing from before survives: the outcome does not depend on it. */
  lemma InitForgetsOldContents(b1: seq<Transaction>, b2: seq<Transaction>, docs: seq<Transaction>,
                               insertFault: Option<nat>)
    ensures AfterInit(b1, Some(docs), false, insertFault) == AfterInit(b2, Some(docs), false, insertFault)
    ensures forall t :: t in AfterInit(b1, Some(docs), false, insertFault) ==> t in docs
  {
  }

  /** Running `/init` again with the same inputs changes nothing further. */
  lemma InitIdempotent(before: seq<Transaction>, fetched: Option<seq<Transaction>>,
                       deleteFails: bool, insertFault: Option<nat>)
    ensures var once := AfterInit(before, fetched, deleteFails, insertFault);
      AfterInit(once, fetched, deleteFails, insertFault) == once
  {
  }

  /**
   * An insert that fails after the delete leaves only a prefix of the
   * fetched list, and an empty store when it fails at the first document.
   */
  lemma FailedInsertLeavesPrefix(before: seq<Transaction>, docs: seq<Transaction>, k: nat)
    ensures AfterInit(before, Some(docs), false, Some(k)) <= docs
    ensures k == 0 ==> AfterInit(before, Some(docs), false, Some(k)) == []
  {
  }
}
