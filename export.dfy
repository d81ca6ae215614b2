/**
  The rows handed to the spreadsheet writer by the export button: a header
  row, then the description and the formatted amount of each entry.
 */
module Export {
  import opened Wrappers
  import opened Transactions
  import Money

  datatype Row = Row(description: string, amount: string)

  const Header: Row := Row("Description", "Amount")

  /** The amount cell as the export handler writes it out, apart from formatAmount: the same text. */
  function AmountCell(a: real): (cell: string)
    ensures cell == Money.FormatAmount(a)
  {
    if a >= 0.0 then "R" + Money.ToFixed2(a) else "-R" + Money.ToFixed2(Money.Abs(a))
  }

  /** The row of one entry as the export handler pushes it: its description and formatAmount's text. */
  function EntryRow(t: Transaction): (r: Row)
    ensures r == Row(t.text, Money.FormatAmount(t.amount))
  {
    Row(t.text, AmountCell(t.amount))
  }

  /**
    The sheet data: nothing to export for an empty list; otherwise the header
    and one row per entry, in list order.
   */
  method SheetRows(txs: seq<Transaction>) returns (sheet: Option<seq<Row>>)
    ensures sheet.None? <==> txs == []
    ensures sheet.Some? ==> |sheet.value| == |txs| + 1 && sheet.value[0] == Header
    ensures sheet.Some? ==> forall i :: 0 <= i < |txs| ==>
              sheet.value[i + 1] == Row(txs[i].text, Money.FormatAmount(txs[i].amount))
  {
    if |txs| == 0 {
      return None;
    }
    var rows := [Header];
    var i := 0;
    while i < |txs|
      invariant 0 <= i <= |txs|
      invariant |rows| == i + 1 && rows[0] == Header
      invariant forall k :: 0 <= k < i ==> rows[k + 1] == Row(txs[k].text, Money.FormatAmount(txs[k].amount))
    {
      rows := rows + [EntryRow(txs[i])];
      i := i + 1;
    }
    sheet := Some(rows);
  }
}
