/**
  A ledger entry and the filter that removeTransaction applies to the list.
  Ids come from the clock when an entry is added and nothing makes them
  unique, so removing an id drops every entry that carries it.
 */
module Transactions {

  /** One entry: `{id, text, amount}`; a positive amount is income, a negative one an expense. */
  datatype Transaction = Transaction(id: int, text: string, amount: real)

  /** `transactions.filter(t => t.id !== id)`. */
  function Without(txs: seq<Transaction>, id: int): (r: seq<Transaction>)
    ensures |r| <= |txs|
    ensures forall t :: t in r <==> t in txs && t.id != id
  {
    if txs == [] then []
    else (if txs[0].id == id then [] else [txs[0]]) + Without(txs[1..], id)
  }

  /** Filtering distributes over concatenation: the kept entries stay in their order. */
  lemma {:induction false} WithoutConcat(a: seq<Transaction>, b: seq<Transaction>, id: int)
    ensures Without(a + b, id) == Without(a, id) + Without(b, id)
  {
    if a != [] {
      assert (a + b)[1..] == a[1..] + b;
      WithoutConcat(a[1..], b, id);
    } else {
      assert a + b == b;
    }
  }

  /** Each entry is kept as often as it occurs when its id differs, and never otherwise. */
  lemma {:induction false} WithoutCount(txs: seq<Transaction>, id: int, t: Transaction)
    ensures multiset(Without(txs, id))[t] == if t.id == id then 0 else multiset(txs)[t]
  {
    if txs != [] {
      assert txs == [txs[0]] + txs[1..];
      WithoutCount(txs[1..], id, t);
    }
  }

  /** When no entry carries the id, the list is unchanged. */
  lemma {:induction false} WithoutAbsent(txs: seq<Transaction>, id: int)
    requires forall t :: t in txs ==> t.id != id
    ensures Without(txs, id) == txs
  {
    if txs != [] {
      assert txs == [txs[0]] + txs[1..];
      WithoutAbsent(txs[1..], id);
    }
  }

  /** Removing the same id twice leaves what removing it once did. */
  lemma WithoutIdempotent(txs: seq<Transaction>, id: int)
    ensures Without(Without(txs, id), id) == Without(txs, id)
  {
    WithoutAbsent(Without(txs, id), id);
  }

  /** When some entry carries the id, the list gets strictly shorter. */
  lemma {:induction false} WithoutPresent(txs: seq<Transaction>, id: int)
    requires exists t :: t in txs && t.id == id
    ensures |Without(txs, id)| < |txs|
  {
    if txs[0].id != id {
      assert txs == [txs[0]] + txs[1..];
      WithoutPresent(txs[1..], id);
    }
  }
}
