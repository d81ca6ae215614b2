/**
  How amounts are shown: Number.prototype.toFixed(2) on the exact value of an
  amount, the signed currency text "R…" / "-R…" built from it, the "plus" /
  "minus" row class, and the three summary labels of the balance panel.
 */
module Money {

  predicate IsDigit(c: char) {
    '0' <= c <= '9'
  }

  predicate AllDigits(s: string) {
    forall i :: 0 <= i < |s| ==> IsDigit(s[i])
  }

  function DigitChar(d: nat): (c: char)
    requires d < 10
    ensures IsDigit(c)
  {
    ('0' as int + d) as char
  }

  function DigitValue(c: char): (d: nat)
    requires IsDigit(c)
  {
    c as int - '0' as int
  }

  lemma DigitValueOfChar(d: nat)
    requires d < 10
    ensures DigitValue(DigitChar(d)) == d
  {
  }

  /** Decimal digits of `n`, most significant first, without leading zeros. */
  function NatDigits(n: nat): (s: string)
    ensures |s| >= 1 && AllDigits(s)
    ensures |s| > 1 ==> s[0] != '0'
    ensures n < 10 <==> |s| == 1
  {
    if n < 10 then [DigitChar(n)] else NatDigits(n / 10) + [DigitChar(n % 10)]
  }

  /** Appending a digit to a positive number appends its character to the digits. */
  lemma NatDigitsAppend(m: nat, d: nat)
    requires m >= 1 && d < 10
    ensures NatDigits(10 * m + d) == NatDigits(m) + [DigitChar(d)]
  {
    assert (10 * m + d) / 10 == m && (10 * m + d) % 10 == d;
  }

  /** The number a string of decimal digits denotes. */
  function DigitsValue(s: string): nat
    requires AllDigits(s)
  {
    if s == [] then 0 else DigitsValue(s[..|s| - 1]) * 10 + DigitValue(s[|s| - 1])
  }

  /** Reading back the digits of `n` gives `n`. */
  lemma {:induction false} DigitsRoundTrip(n: nat)
    ensures DigitsValue(NatDigits(n)) == n
  {
    var s := NatDigits(n);
    if n < 10 {
      DigitValueOfChar(n);
    } else {
      assert s[..|s| - 1] == NatDigits(n / 10);
      DigitsRoundTrip(n / 10);
      DigitValueOfChar(n % 10);
    }
  }

  /**
    The integer n that toFixed(2) prints for x >= 0: the one for which
    n / 100 - x is closest to zero, the larger one on a tie.
   */
  function Cents(x: real): (n: nat)
    requires x >= 0.0
    ensures (n as real) - 0.5 <= x * 100.0 < (n as real) + 0.5
  {
    (x * 100.0 + 0.5).Floor
  }

  /** The text of a non-negative x.toFixed(2): integer digits, a point, two fraction digits. */
  predicate IsFixedText(s: string) {
    && |s| >= 4
    && s[|s| - 3] == '.'
    && AllDigits(s[..|s| - 3])
    && AllDigits(s[|s| - 2..])
    && (|s| > 4 ==> s[0] != '0')
  }

  /** The value a text of that shape denotes. */
  function FixedValue(s: string): real
    requires IsFixedText(s)
  {
    DigitsValue(s[..|s| - 3]) as real + DigitsValue(s[|s| - 2..]) as real / 100.0
  }

  /** x.toFixed(2) for x >= 0. */
  function Fixed(x: real): (s: string)
    requires x >= 0.0
    ensures |s| >= 4 && IsDigit(s[0])
  {
    var n := Cents(x);
    NatDigits(n / 100) + "." + [DigitChar(n / 10 % 10), DigitChar(n % 10)]
  }

  /** x.toFixed(2) has the shape of IsFixedText, so it carries no sign. */
  lemma FixedShape(x: real)
    requires x >= 0.0
    ensures IsFixedText(Fixed(x))
    ensures forall i :: 0 <= i < |Fixed(x)| ==> Fixed(x)[i] != '-'
  {
    var n := Cents(x);
    var a, tail := NatDigits(n / 100), [DigitChar(n / 10 % 10), DigitChar(n % 10)];
    var s := Fixed(x);
    assert s == a + "." + tail;
    assert s[..|s| - 3] == a;
    assert s[|s| - 2..] == tail;
    forall i | 0 <= i < |s|
      ensures s[i] != '-'
    {
      if i < |a| {
        assert s[i] == a[i];
      }
    }
  }

  /** A whole number is printed as its digits followed by ".00". */
  lemma FixedOfWhole(n: nat)
    ensures Fixed(n as real) == NatDigits(n) + ".00"
  {
    WholeCents(n);
    var c := Cents(n as real);
    var digits, point, tail := NatDigits(c / 100), ".", [DigitChar(c / 10 % 10), DigitChar(c % 10)];
    assert digits == NatDigits(n);
    assert tail == "00";
    assert Fixed(n as real) == digits + point + tail;
  }

  lemma WholeCents(n: nat)
    ensures Cents(n as real) == 100 * n
    ensures 100 * n / 100 == n && 100 * n / 10 % 10 == 0 && 100 * n % 10 == 0
  {
    assert (n as real) * 100.0 + 0.5 == (100 * n) as real + 0.5;
  }

  lemma CentsDigits(n: nat)
    ensures n / 10 % 10 * 10 + n % 10 == n % 100
  {
    var q := n / 10;
    assert n == 10 * q + n % 10;
    assert q == 10 * (q / 10) + q % 10;
    assert n == 100 * (q / 10) + (q % 10 * 10 + n % 10);
  }

  /** x.toFixed(2) reads back as x rounded to cents, so within half a cent of x. */
  lemma FixedRoundTrip(x: real)
    requires x >= 0.0
    ensures FixedValue(Fixed(x)) == Cents(x) as real / 100.0
    ensures -0.005 <= FixedValue(Fixed(x)) - x <= 0.005
  {
    var n := Cents(x);
    var s := Fixed(x);
    FixedShape(x);
    var d1, d0 := DigitChar(n / 10 % 10), DigitChar(n % 10);
    assert s[..|s| - 3] == NatDigits(n / 100);
    assert s[|s| - 2..] == [d1, d0];
    DigitsRoundTrip(n / 100);
    DigitValueOfChar(n / 10 % 10);
    DigitValueOfChar(n % 10);
    assert [d1, d0][..1] == [d1];
    assert [d1][..0] == [];
    assert DigitsValue([d1]) == DigitValue(d1);
    assert DigitsValue([d1, d0]) == n / 10 % 10 * 10 + n % 10;
    CentsDigits(n);
    assert n == n / 100 * 100 + n % 100;
  }

  function Abs(x: real): (r: real)
    ensures r >= 0.0 && (r == x || r == -x)
  {
    if x < 0.0 then -x else x
  }

  /** Number.prototype.toFixed(2): a minus sign, then the digits of |x|, when x < 0. */
  function ToFixed2(x: real): (s: string)
    ensures |s| >= 4
    ensures s[0] == '-' <==> x < 0.0
  {
    if x < 0.0 then "-" + Fixed(-x) else Fixed(x)
  }

  /**
    formatAmount: "R" and the digits for a non-negative amount, "-R" and the
    digits of its absolute value otherwise.
   */
  function FormatAmount(a: real): (s: string)
    ensures |s| >= 5
    ensures s[0] == 'R' <==> a >= 0.0
    ensures s[0] == '-' <==> a < 0.0
    ensures a < 0.0 ==> s[1] == 'R'
  {
    if a >= 0.0 then "R" + ToFixed2(a) else "-R" + ToFixed2(Abs(a))
  }

  /** formatAmount never carries two signs: no minus after the first character. */
  lemma FormatAmountSignOnce(a: real)
    ensures forall i :: 1 <= i < |FormatAmount(a)| ==> FormatAmount(a)[i] != '-'
  {
    var s := FormatAmount(a);
    var p, f := if a >= 0.0 then "R" else "-R", Fixed(Abs(a));
    FixedShape(Abs(a));
    assert s == p + f;
    forall i | 1 <= i < |s|
      ensures s[i] != '-'
    {
      if i >= |p| {
        assert s[i] == f[i - |p|];
      }
    }
  }

  /** The texts "R<fixed>" and "-R<fixed>". */
  predicate IsAmountText(s: string) {
    || (|s| >= 1 && s[0] == 'R' && IsFixedText(s[1..]))
    || (|s| >= 2 && s[..2] == "-R" && IsFixedText(s[2..]))
  }

  /** The signed value an amount text denotes. */
  function AmountTextValue(s: string): real
    requires IsAmountText(s)
  {
    if s[0] == 'R' then FixedValue(s[1..]) else -FixedValue(s[2..])
  }

  /** "R" before a fixed text reads as its value, "-R" before it as its negation. */
  lemma AmountTextOfFixed(f: string)
    requires IsFixedText(f)
    ensures IsAmountText("R" + f) && AmountTextValue("R" + f) == FixedValue(f)
    ensures IsAmountText("-R" + f) && AmountTextValue("-R" + f) == -FixedValue(f)
  {
    assert ("R" + f)[1..] == f;
    assert ("-R" + f)[..2] == "-R" && ("-R" + f)[2..] == f;
  }

  /** What formatAmount shows is an amount text within half a cent of the amount. */
  lemma FormatAmountRoundTrip(a: real)
    ensures IsAmountText(FormatAmount(a))
    ensures -0.005 <= AmountTextValue(FormatAmount(a)) - a <= 0.005
  {
    var f := Fixed(Abs(a));
    assert ToFixed2(Abs(a)) == f;
    FixedRoundTrip(Abs(a));
    AmountTextOfFixed(f);
  }

  /**
    The class of a transaction row: one of "plus" and "minus", taking the same
    branch as formatAmount for that amount.
   */
  function RowClass(a: real): (c: string)
    ensures c == "plus" || c == "minus"
    ensures c == "plus" <==> FormatAmount(a)[0] == 'R'
    ensures c == "minus" <==> FormatAmount(a)[0] == '-'
  {
    if a >= 0.0 then "plus" else "minus"
  }

  /** The income label: "R" + income.toFixed(2), with toFixed's minus after the "R" for a negative value. */
  function IncomeLabel(income: real): (s: string)
    ensures |s| >= 5 && s[0] == 'R'
    ensures s[1] == '-' <==> income < 0.0
  {
    "R" + ToFixed2(income)
  }

  /** For an income that is >= 0, as every income is, the label is formatAmount's text. */
  lemma IncomeLabelIsFormatted(income: real)
    requires income >= 0.0
    ensures IncomeLabel(income) == FormatAmount(income)
  {
  }

  /** The expense label: "-R" + |expense|.toFixed(2), so the sign is shown whatever the expense. */
  function ExpenseLabel(expense: real): (s: string)
    ensures |s| >= 6 && s[..2] == "-R" && IsDigit(s[2])
  {
    "-R" + ToFixed2(Abs(expense))
  }

  /**
    For a negative expense the label is formatAmount's text; a zero expense
    is shown as "-R0.00", where formatAmount would give "R0.00".
   */
  lemma ExpenseLabelIsFormatted(expense: real)
    ensures expense < 0.0 ==> ExpenseLabel(expense) == FormatAmount(expense)
    ensures expense == 0.0 ==> ExpenseLabel(expense) == "-R0.00" && FormatAmount(expense) == "R0.00"
  {
    if expense == 0.0 {
      assert Cents(0.0) == 0;
      assert NatDigits(0) == "0";
      assert Fixed(0.0) == "0.00";
    }
  }

  /**
    The balance label as the page builds it: "R" + total.toFixed(2), which
    starts with "R" and carries toFixed's minus, if any, in second place.
   */
  function BalanceLabelAsWritten(total: real): (s: string)
    ensures |s| >= 5 && s[0] == 'R'
    ensures s[1] == '-' <==> total < 0.0
  {
    "R" + ToFixed2(total)
  }

  /**
    For a negative balance that label puts the minus sign between the currency
    marker and the digits ("R-1500.00"), unlike formatAmount's "-R1500.00".
   */
  lemma BalanceLabelAsWrittenMisplacesSign(total: real)
    requires total < 0.0
    ensures BalanceLabelAsWritten(total)[..2] == "R-"
    ensures BalanceLabelAsWritten(total) != FormatAmount(total)
  {
  }

  /** The input that shows it: a balance of -1500. */
  lemma BalanceLabelAsWrittenExample()
    ensures BalanceLabelAsWritten(-1500.0) == "R-1500.00"
    ensures FormatAmount(-1500.0) == "-R1500.00"
  {
    assert Cents(1500.0) == 150000;
    assert NatDigits(1) == "1";
    assert NatDigits(15) == "15";
    assert NatDigits(150) == "150";
    assert NatDigits(1500) == "1500";
    assert Fixed(1500.0) == "1500.00";
  }

  /** The balance label with the display rule applied: the sign precedes the marker. */
  function BalanceLabel(total: real): (s: string)
    ensures |s| >= 5
    ensures s[0] == '-' <==> total < 0.0
    ensures forall i :: 1 <= i < |s| ==> s[i] != '-'
    ensures IsAmountText(s) && -0.005 <= AmountTextValue(s) - total <= 0.005
    ensures total >= 0.0 ==> s == BalanceLabelAsWritten(total)
  {
    FormatAmountRoundTrip(total);
    FormatAmountSignOnce(total);
    FormatAmount(total)
  }
}
