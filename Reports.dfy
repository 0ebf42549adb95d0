/** The Python side of the accounting reports: the running balance of the
    general ledger, the debit/credit split of the trial balance, and the
    result of the profit-and-loss statement. The SQL queries that produce
    their rows are outside the model; their rows are inputs. Amounts are
    exact reals (the program uses floats). */
module Reports {
  import opened Text

  /** One movement row of the general-ledger query. */
  datatype Movement = Movement(date: string, entry: string, wording: string, debit: real, credit: real)

  /** A movement with the account balance just after it. */
  datatype LedgerRow = LedgerRow(movement: Movement, balance: real)

  datatype Ledger = Ledger(initial: real, rows: seq<LedgerRow>, final: real)

  /** Σ (debit − credit) over the movements. */
  function Net(ms: seq<Movement>): real
  {
    if ms == [] then 0.0 else Net(ms[..|ms| - 1]) + (ms[|ms| - 1].debit - ms[|ms| - 1].credit)
  }

  /** `generate_grand_livre` after its queries: None stands for the empty
      dictionary returned for an unknown account. The balance carried by
      each row is the initial balance plus the net of every movement up to
      and including that row. */
  method GeneralLedger(accountKnown: bool, initial: real, moves: seq<Movement>) returns (r: Option<Ledger>)
    ensures r.None? <==> !accountKnown
    ensures r.Some? ==> r.value.initial == initial && |r.value.rows| == |moves|
    ensures r.Some? ==> forall i :: 0 <= i < |moves| ==>
      r.value.rows[i] == LedgerRow(moves[i], initial + Net(moves[..i + 1]))
    ensures r.Some? ==> r.value.final == initial + Net(moves)
  {
    if !accountKnown {
      return None;
    }
    var balance := initial;
    var rows: seq<LedgerRow> := [];
    for i := 0 to |moves|
      invariant |rows| == i
      invariant balance == initial + Net(moves[..i])
      invariant forall j :: 0 <= j < i ==> rows[j] == LedgerRow(moves[j], initial + Net(moves[..j + 1]))
    {
      assert moves[..i + 1][..i] == moves[..i];
      balance := balance + (moves[i].debit - moves[i].credit);
      rows := rows + [LedgerRow(moves[i], balance)];
    }
    assert moves[..|moves|] == moves;
    r := Some(Ledger(initial, rows, balance));
  }

  /** The final balance moves by the net of each further movement. */
  lemma {:induction false} NetAppend(a: seq<Movement>, b: seq<Movement>)
    ensures Net(a + b) == Net(a) + Net(b)
    decreases |b|
  {
    if b != [] {
      assert (a + b)[..|a + b| - 1] == a + b[..|b| - 1];
      NetAppend(a, b[..|b| - 1]);
    } else {
      assert a + b == a;
    }
  }

  /** Consecutive ledger balances differ by the later row's debit − credit. */
  lemma LedgerStep(initial: real, moves: seq<Movement>, i: nat)
    requires i < |moves|
    ensures initial + Net(moves[..i + 1]) ==
      (initial + Net(moves[..i])) + (moves[i].debit - moves[i].credit)
  {
    assert moves[..i + 1][..i] == moves[..i];
  }

  // ---------------------------------------------------------------- trial balance

  /** One account of the trial-balance query: its total debit and credit. */
  datatype AccountTotals = AccountTotals(number: string, name: string, debit: real, credit: real)

  /** The two balance columns of one trial-balance row: what is left on the
      debit side and what is left on the credit side. */
  function BalanceSplit(debit: real, credit: real): (r: (real, real))
    ensures r.0 >= 0.0 && r.1 >= 0.0
    ensures r.0 == 0.0 || r.1 == 0.0
    ensures r.0 - r.1 == debit - credit
  {
    var solde := debit - credit;
    var debiteur := if solde > 0.0 then solde else 0.0;
    var crediteur := if solde < 0.0 then -solde else 0.0;
    (debiteur, crediteur)
  }

  /** Any pair of non-negative columns, one of them zero, with the same
      difference is the split: the split is the only one of its kind. */
  lemma BalanceSplitUnique(debit: real, credit: real, d: real, c: real)
    requires d >= 0.0 && c >= 0.0 && (d == 0.0 || c == 0.0) && d - c == debit - credit
    ensures BalanceSplit(debit, credit) == (d, c)
  {
  }

  function SumDebit(rows: seq<AccountTotals>): real
  {
    if rows == [] then 0.0 else SumDebit(rows[..|rows| - 1]) + rows[|rows| - 1].debit
  }

  function SumCredit(rows: seq<AccountTotals>): real
  {
    if rows == [] then 0.0 else SumCredit(rows[..|rows| - 1]) + rows[|rows| - 1].credit
  }

  /** Σ of the debit-balance column. */
  function SumDebitBalance(rows: seq<AccountTotals>): real
  {
    if rows == [] then 0.0
    else SumDebitBalance(rows[..|rows| - 1]) + BalanceSplit(rows[|rows| - 1].debit, rows[|rows| - 1].credit).0
  }

  /** Σ of the credit-balance column. */
  function SumCreditBalance(rows: seq<AccountTotals>): real
  {
    if rows == [] then 0.0
    else SumCreditBalance(rows[..|rows| - 1]) + BalanceSplit(rows[|rows| - 1].debit, rows[|rows| - 1].credit).1
  }

  /** The loop of `generate_balance`: each row's two balance columns, and
      the running totals of debits and credits. */
  method TrialBalance(rows: seq<AccountTotals>) returns (columns: seq<(real, real)>, totalDebits: real, totalCredits: real)
    ensures |columns| == |rows|
    ensures forall i :: 0 <= i < |rows| ==> columns[i] == BalanceSplit(rows[i].debit, rows[i].credit)
    ensures totalDebits == SumDebit(rows) && totalCredits == SumCredit(rows)
  {
    columns, totalDebits, totalCredits := [], 0.0, 0.0;
    for i := 0 to |rows|
      invariant |columns| == i
      invariant forall j :: 0 <= j < i ==> columns[j] == BalanceSplit(rows[j].debit, rows[j].credit)
      invariant totalDebits == SumDebit(rows[..i]) && totalCredits == SumCredit(rows[..i])
    {
      assert rows[..i + 1][..i] == rows[..i];
      var solde := rows[i].debit - rows[i].credit;
      var debiteur := if solde > 0.0 then solde else 0.0;
      var crediteur := if solde < 0.0 then -solde else 0.0;
      columns := columns + [(debiteur, crediteur)];
      totalDebits := totalDebits + rows[i].debit;
      totalCredits := totalCredits + rows[i].credit;
    }
    assert rows[..|rows|] == rows;
  }

  /** The balance columns sum to the same difference as the debit and
      credit totals: the trial balance is consistent. */
  lemma {:induction false} TrialBalanceConsistent(rows: seq<AccountTotals>)
    ensures SumDebitBalance(rows) - SumCreditBalance(rows) == SumDebit(rows) - SumCredit(rows)
    ensures SumDebitBalance(rows) >= 0.0 && SumCreditBalance(rows) >= 0.0
  {
    if rows != [] {
      TrialBalanceConsistent(rows[..|rows| - 1]);
    }
  }

  // ---------------------------------------------------------------- profit and loss

  function Sum(xs: seq<real>): real
  {
    if xs == [] then 0.0 else Sum(xs[..|xs| - 1]) + xs[|xs| - 1]
  }

  /** `resultat` of `generate_profit_loss`: total products less total charges
      (an empty list sums to 0). */
  function NetResult(charges: seq<real>, products: seq<real>): (r: real)
    ensures r + Sum(charges) == Sum(products)
  {
    Sum(products) - Sum(charges)
  }

  datatype ResultKind = Profit | Loss

  /** 'BÉNÉFICE' for a result of 0 or more, 'PERTE' otherwise. */
  function ResultLabel(result: real): (k: ResultKind)
    ensures k == Profit <==> result >= 0.0
  {
    if result >= 0.0 then Profit else Loss
  }

  lemma {:induction false} SumAppend(a: seq<real>, b: seq<real>)
    ensures Sum(a + b) == Sum(a) + Sum(b)
    decreases |b|
  {
    if b == [] {
      assert a + b == a;
    } else {
      assert (a + b)[..|a + b| - 1] == a + b[..|b| - 1];
      SumAppend(a, b[..|b| - 1]);
    }
  }

  /** The result over two periods' rows is the sum of their results. */
  lemma NetResultAdditive(c1: seq<real>, p1: seq<real>, c2: seq<real>, p2: seq<real>)
    ensures NetResult(c1 + c2, p1 + p2) == NetResult(c1, p1) + NetResult(c2, p2)
  {
    SumAppend(c1, c2);
    SumAppend(p1, p2);
  }

  /** The statement shows a profit exactly when the products cover the charges. */
  lemma ProfitWhenCovered(charges: seq<real>, products: seq<real>)
    ensures ResultLabel(NetResult(charges, products)) == Profit <==> Sum(products) >= Sum(charges)
  {
  }
}
