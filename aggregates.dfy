/**
  The summary of updateValues: the amounts of the list, income as the sum of
  the positive ones, expense as the sum of the negative ones, and the balance
  as income plus expense; with the labels the panel shows for them.
 */
module Aggregates {
  import opened Transactions
  import Money

  /** `transactions.map(t => t.amount)`. */
  function Amounts(txs: seq<Transaction>): (r: seq<real>)
    ensures |r| == |txs| && forall i :: 0 <= i < |txs| ==> r[i] == txs[i].amount
  {
    if txs == [] then [] else [txs[0].amount] + Amounts(txs[1..])
  }

  /** `amounts.filter(a => a > 0)`. */
  function Positives(xs: seq<real>): (r: seq<real>)
    ensures forall x :: x in r <==> x in xs && x > 0.0
  {
    if xs == [] then [] else (if xs[0] > 0.0 then [xs[0]] else []) + Positives(xs[1..])
  }

  /** `amounts.filter(a => a < 0)`. */
  function Negatives(xs: seq<real>): (r: seq<real>)
    ensures forall x :: x in r <==> x in xs && x < 0.0
  {
    if xs == [] then [] else (if xs[0] < 0.0 then [xs[0]] else []) + Negatives(xs[1..])
  }

  /**
    `xs.reduce((s, v) => s + v, 0)`, a fold from the left: never negative when
    no amount is, never positive when no amount is.
   */
  function Sum(xs: seq<real>): (s: real)
    ensures (forall i :: 0 <= i < |xs| ==> xs[i] >= 0.0) ==> s >= 0.0
    ensures (forall i :: 0 <= i < |xs| ==> xs[i] <= 0.0) ==> s <= 0.0
  {
    if xs == [] then 0.0 else Sum(xs[..|xs| - 1]) + xs[|xs| - 1]
  }

  lemma {:induction false} SumConcat(a: seq<real>, b: seq<real>)
    ensures Sum(a + b) == Sum(a) + Sum(b)
  {
    if b == [] {
      assert a + b == a;
    } else {
      assert (a + b)[..|a + b| - 1] == a + b[..|b| - 1];
      SumConcat(a, b[..|b| - 1]);
    }
  }

  /** Every amount lands in exactly one of the three groups, and the zeros add nothing. */
  lemma {:induction false} SumSplits(xs: seq<real>)
    ensures Sum(xs) == Sum(Positives(xs)) + Sum(Negatives(xs))
  {
    if xs != [] {
      var p := if xs[0] > 0.0 then [xs[0]] else [];
      var n := if xs[0] < 0.0 then [xs[0]] else [];
      assert xs == [xs[0]] + xs[1..];
      SumConcat([xs[0]], xs[1..]);
      SumConcat(p, Positives(xs[1..]));
      SumConcat(n, Negatives(xs[1..]));
      assert Sum([xs[0]]) == xs[0] by { assert [xs[0]][..0] == []; }
      assert p != [] ==> Sum(p) == xs[0] by { assert p != [] ==> p[..0] == []; }
      assert n != [] ==> Sum(n) == xs[0] by { assert n != [] ==> n[..0] == []; }
      SumSplits(xs[1..]);
    }
  }

  lemma {:induction false} AmountsConcat(a: seq<Transaction>, b: seq<Transaction>)
    ensures Amounts(a + b) == Amounts(a) + Amounts(b)
  {
    if a != [] {
      assert (a + b)[1..] == a[1..] + b;
      AmountsConcat(a[1..], b);
    } else {
      assert a + b == b;
    }
  }

  /** The income filter keeps each amount > 0 exactly as often as it occurs, and nothing else. */
  lemma {:induction false} PositivesCount(xs: seq<real>, x: real)
    ensures multiset(Positives(xs))[x] == if x > 0.0 then multiset(xs)[x] else 0
  {
    if xs != [] {
      assert xs == [xs[0]] + xs[1..];
      PositivesCount(xs[1..], x);
    }
  }

  /** The expense filter keeps each amount < 0 exactly as often as it occurs, and nothing else. */
  lemma {:induction false} NegativesCount(xs: seq<real>, x: real)
    ensures multiset(Negatives(xs))[x] == if x < 0.0 then multiset(xs)[x] else 0
  {
    if xs != [] {
      assert xs == [xs[0]] + xs[1..];
      NegativesCount(xs[1..], x);
    }
  }

  lemma {:induction false} PositivesConcat(a: seq<real>, b: seq<real>)
    ensures Positives(a + b) == Positives(a) + Positives(b)
  {
    if a != [] {
      assert (a + b)[1..] == a[1..] + b;
      PositivesConcat(a[1..], b);
    } else {
      assert a + b == b;
    }
  }

  lemma {:induction false} NegativesConcat(a: seq<real>, b: seq<real>)
    ensures Negatives(a + b) == Negatives(a) + Negatives(b)
  {
    if a != [] {
      assert (a + b)[1..] == a[1..] + b;
      NegativesConcat(a[1..], b);
    } else {
      assert a + b == b;
    }
  }

  /** The three figures of the panel. */
  datatype Totals = Totals(balance: real, income: real, expense: real)

  /**
    updateValues: income is never negative, expense never positive, and the
    balance is both income plus expense and the sum of all amounts.
   */
  function Summarize(txs: seq<Transaction>): (t: Totals)
    ensures t.income >= 0.0 && t.expense <= 0.0
    ensures t.balance == t.income + t.expense
    ensures t.balance == Sum(Amounts(txs))
  {
    var amounts := Amounts(txs);
    var income := Sum(Positives(amounts));
    var expense := Sum(Negatives(amounts));
    assert forall i :: 0 <= i < |Positives(amounts)| ==> Positives(amounts)[i] in Positives(amounts);
    assert forall i :: 0 <= i < |Negatives(amounts)| ==> Negatives(amounts)[i] in Negatives(amounts);
    SumSplits(amounts);
    Totals(income + expense, income, expense)
  }

  /**
    Appending an entry moves the balance by its amount, and moves income when
    the amount is positive, expense when it is negative, neither when it is zero.
   */
  lemma SummarizeAppend(txs: seq<Transaction>, t: Transaction)
    ensures var before, after := Summarize(txs), Summarize(txs + [t]);
      && after.balance == before.balance + t.amount
      && after.income == before.income + (if t.amount > 0.0 then t.amount else 0.0)
      && after.expense == before.expense + (if t.amount < 0.0 then t.amount else 0.0)
  {
    var a := Amounts(txs);
    AmountsConcat(txs, [t]);
    assert Amounts([t]) == [t.amount];
    PositivesConcat(a, [t.amount]);
    NegativesConcat(a, [t.amount]);
    assert Positives([t.amount]) == if t.amount > 0.0 then [t.amount] else [];
    assert Negatives([t.amount]) == if t.amount < 0.0 then [t.amount] else [];
    SumConcat(Positives(a), Positives([t.amount]));
    SumConcat(Negatives(a), Negatives([t.amount]));
    assert Sum([t.amount]) == t.amount by { assert [t.amount][..0] == []; }
  }

  /** An entry of amount zero changes none of the three figures. */
  lemma ZeroAmountIgnored(txs: seq<Transaction>, t: Transaction)
    requires t.amount == 0.0
    ensures Summarize(txs + [t]) == Summarize(txs)
  {
    SummarizeAppend(txs, t);
  }

  /** The balance after removing an id is the old balance less the amounts that were removed. */
  lemma {:induction false} BalanceWithout(txs: seq<Transaction>, id: int)
    ensures Sum(Amounts(txs)) == Sum(Amounts(Without(txs, id))) + Sum(Amounts(Only(txs, id)))
  {
    if txs != [] {
      var head, rest := [txs[0]], txs[1..];
      assert txs == head + rest;
      var kept := if txs[0].id == id then [] else head;
      var gone := if txs[0].id == id then head else [];
      assert Without(txs, id) == kept + Without(rest, id);
      assert Only(txs, id) == gone + Only(rest, id);
      AmountsConcat(head, rest);
      AmountsConcat(kept, Without(rest, id));
      AmountsConcat(gone, Only(rest, id));
      SumConcat(Amounts(head), Amounts(rest));
      SumConcat(Amounts(kept), Amounts(Without(rest, id)));
      SumConcat(Amounts(gone), Amounts(Only(rest, id)));
      BalanceWithout(rest, id);
    }
  }

  /** The entries that carry the id: what removeTransaction drops. */
  function Only(txs: seq<Transaction>, id: int): (r: seq<Transaction>)
    ensures forall t :: t in r <==> t in txs && t.id == id
  {
    if txs == [] then []
    else (if txs[0].id == id then [txs[0]] else []) + Only(txs[1..], id)
  }

  /** The three texts of the panel. */
  datatype Labels = Labels(balance: string, income: string, expense: string)

  /**
    The panel texts for a list: each reads back within half a cent of its
    figure, and only a negative balance or an expense carries a minus sign,
    which comes first.
   */
  function Display(txs: seq<Transaction>): (l: Labels)
    ensures var t := Summarize(txs);
      && Money.IsAmountText(l.balance) && -0.005 <= Money.AmountTextValue(l.balance) - t.balance <= 0.005
      && Money.IsAmountText(l.income) && -0.005 <= Money.AmountTextValue(l.income) - t.income <= 0.005
      && Money.IsAmountText(l.expense) && -0.005 <= Money.AmountTextValue(l.expense) - t.expense <= 0.005
      && (l.balance[0] == '-' <==> t.balance < 0.0)
      && l.income[0] == 'R'
      && l.expense[..2] == "-R"
  {
    var t := Summarize(txs);
    Money.IncomeLabelIsFormatted(t.income);
    Money.FormatAmountRoundTrip(t.income);
    Money.ExpenseLabelIsFormatted(t.expense);
    Money.FormatAmountRoundTrip(t.expense);
    Labels(Money.BalanceLabel(t.balance), Money.IncomeLabel(t.income), Money.ExpenseLabel(t.expense))
  }
}
