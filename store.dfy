/**
  The transaction list of the page and the storage slot it is written to:
  the list is loaded once, and the add form, the delete buttons and the
  clear button change it, each change being written back in full.
 */
module Store {
  import opened Wrappers
  import opened Transactions
  import Text

  /** The key under which the list is kept in the browser's storage. */
  const StorageKey: string := "budget_transactions_v1"

  /** What parseFloat makes of the amount field: not-a-number, or a number. */
  datatype Parsed = NaN | Number(value: real)

  /**
    `JSON.parse(...) || []` on the decoded slot: the list the slot holds, or
    the empty list when nothing was ever written.
   */
  function Load(stored: Option<seq<Transaction>>): (txs: seq<Transaction>)
    ensures stored.Some? ==> stored == Some(txs)
    ensures stored.None? ==> txs == []
  {
    match stored
    case None => []
    case Some(txs) => txs
  }

  /**
    The add form's check: a trimmed description that is not empty, and an
    amount that is not NaN. The form is refused exactly when the description
    is all whitespace or the amount is NaN.
   */
  predicate Acceptable(rawText: string, amount: Parsed)
    ensures Acceptable(rawText, amount) <==> !Text.AllWhitespace(rawText) && !amount.NaN?
  {
    Text.TrimEmptyIff(rawText);
    Text.Trim(rawText) != [] && amount.Number?
  }

  class Ledger {
    /** The list, in the order the entries were added. */
    var transactions: seq<Transaction>
    /** The value kept under StorageKey; None until something is written. */
    var stored: Option<seq<Transaction>>

    /** Loading the storage slot now would give back the list in memory. */
    ghost predicate Persisted()
      reads this
    {
      Load(stored) == transactions
    }

    /** The page start: the list is whatever the storage slot holds, or empty. */
    constructor (stored: Option<seq<Transaction>>)
      ensures this.stored == stored
      ensures transactions == (if stored.Some? then stored.value else [])
      ensures Persisted()
    {
      this.stored := stored;
      transactions := Load(stored);
    }

    /** saveAndUpdate: the whole list replaces what the slot held. */
    method Save()
      modifies this`stored
      ensures stored == Some(transactions)
      ensures Persisted()
    {
      stored := Some(transactions);
    }

    /**
      The add form's submit: with a description that is not blank after
      trimming and an amount that is not NaN, `{id, trimmed text, amount}`
      goes at the end and the list is saved; otherwise (the alert) nothing
      changes.
     */
    method Add(rawText: string, amount: Parsed, id: int) returns (added: bool)
      modifies this
      ensures added <==> Acceptable(rawText, amount)
      ensures added ==> transactions == old(transactions) + [Transaction(id, Text.Trim(rawText), amount.value)]
      ensures added ==> stored == Some(transactions)
      ensures !added ==> transactions == old(transactions) && stored == old(stored)
      ensures old(Persisted()) ==> Persisted()
    {
      var text := Text.Trim(rawText);
      if text == [] || amount.NaN? {
        return false;
      }
      var tx := Transaction(id, text, amount.value);
      transactions := transactions + [tx];
      Save();
      added := true;
    }

    /**
      removeTransaction: keeps exactly the entries whose id differs, in their
      order, and saves the list even when nothing was dropped.
     */
    method Remove(id: int)
      modifies this
      ensures transactions == Without(old(transactions), id)
      ensures forall t :: t in transactions ==> t.id != id
      ensures (forall t :: t in old(transactions) ==> t.id != id) ==> transactions == old(transactions)
      ensures stored == Some(transactions)
    {
      transactions := Without(transactions, id);
      Save();
      if forall t :: t in old(transactions) ==> t.id != id {
        WithoutAbsent(old(transactions), id);
      }
    }

    /** The clear button: once confirmed, the list becomes empty and is saved; refused, nothing changes. */
    method Clear(confirmed: bool)
      modifies this
      ensures confirmed ==> transactions == [] && stored == Some([])
      ensures !confirmed ==> transactions == old(transactions) && stored == old(stored)
    {
      if !confirmed {
        return;
      }
      transactions := [];
      Save();
    }
  }

}
