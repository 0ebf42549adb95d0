/** The acceptance rules of the accounting application's entry forms: one
    ledger line, a whole journal entry, and one invoice line, with the
    invoice totals. Python's `float()` is not modelled; it is the parameter
    `parseFloat`, None where `float()` raises ValueError. Amounts are exact
    reals. */
module Entries {
  import opened Text

  /** `amount_str.replace(',', '.')` */
  function CommaToDot(s: string): (r: string)
    ensures |r| == |s| && ',' !in r
    ensures forall i :: 0 <= i < |s| ==> r[i] == if s[i] == ',' then '.' else s[i]
  {
    seq(|s|, i requires 0 <= i < |s| => if s[i] == ',' then '.' else s[i])
  }

  /** `validate_amount`: the amount with a decimal comma read as a point. */
  function ValidateAmount(text: string, parseFloat: string -> Option<real>): (r: Option<real>)
    ensures r == parseFloat(CommaToDot(text))
    ensures ',' !in text ==> r == parseFloat(text)
  {
    if ',' !in text then
      assert CommaToDot(text) == text;
      parseFloat(text)
    else parseFloat(CommaToDot(text))
  }

  /** A decimal comma and a decimal point are read alike: two texts that differ
      only by ',' against '.' give the same amount. */
  lemma CommaReadsAsPoint(s: string, t: string, parseFloat: string -> Option<real>)
    requires |s| == |t|
    requires forall i :: 0 <= i < |s| ==> s[i] == t[i] || (s[i] == ',' && t[i] == '.') || (s[i] == '.' && t[i] == ',')
    ensures ValidateAmount(s, parseFloat) == ValidateAmount(t, parseFloat)
  {
    assert CommaToDot(s) == CommaToDot(t);
  }

  // ---------------------------------------------------------------- ledger line

  /** The fields of the line form, as typed. */
  datatype LineForm = LineForm(account: string, wording: string, debit: string, credit: string)

  /** An accepted line. */
  datatype Line = Line(accountId: int, account: string, wording: string, debit: real, credit: real)

  /** Why the line form refuses, in the order it checks. */
  datatype LineError =
    | MissingAccountOrWording
    | InvalidAmounts
    | BothSides       // a debit and a credit on the same line
    | NoAmount        // neither a debit nor a credit
    | UnknownAccount  // the account name maps to no id (or to 0)

  /** `values['debit'] or '0'` */
  function OrZero(s: string): (r: string)
    ensures s != "" ==> r == s
  {
    if s == "" then "0" else s
  }

  /** The two amounts of the form, blank fields read as "0". */
  function LineAmounts(form: LineForm, parseFloat: string -> Option<real>): (Option<real>, Option<real>)
  {
    (ValidateAmount(OrZero(form.debit), parseFloat), ValidateAmount(OrZero(form.credit), parseFloat))
  }

  /** The 'Enregistrer' handler of `show_ligne_ecriture_form`; `accountId` is
      what the account map gives for the chosen account name. */
  function AcceptLine(form: LineForm, accountId: Option<int>, parseFloat: string -> Option<real>): (r: Result<Line, LineError>)
    ensures r.Ok? ==> form.account != "" && form.wording != ""
    ensures r.Ok? ==> accountId.Some? && accountId.value != 0 && r.value.accountId == accountId.value
    ensures r.Ok? ==> LineAmounts(form, parseFloat) == (Some(r.value.debit), Some(r.value.credit))
    ensures r.Ok? ==> !(r.value.debit > 0.0 && r.value.credit > 0.0)
    ensures r.Ok? ==> r.value.debit != 0.0 || r.value.credit != 0.0
    ensures r.Ok? ==> r.value.account == form.account && r.value.wording == form.wording
  {
    if form.account == "" || form.wording == "" then Err(MissingAccountOrWording)
    else
      match LineAmounts(form, parseFloat)
      case (Some(debit), Some(credit)) =>
        if debit > 0.0 && credit > 0.0 then Err(BothSides)
        else if debit == 0.0 && credit == 0.0 then Err(NoAmount)
        else if accountId.None? || accountId.value == 0 then Err(UnknownAccount)
        else Ok(Line(accountId.value, form.account, form.wording, debit, credit))
      case _ => Err(InvalidAmounts)
  }

  /** With the account, wording and account id in order and both amounts
      readable, the line is refused exactly when both amounts are positive
      or both are zero. */
  lemma LineAmountRule(form: LineForm, id: int, parseFloat: string -> Option<real>, debit: real, credit: real)
    requires form.account != "" && form.wording != "" && id != 0
    requires LineAmounts(form, parseFloat) == (Some(debit), Some(credit))
    ensures AcceptLine(form, Some(id), parseFloat).Err? <==>
      (debit > 0.0 && credit > 0.0) || (debit == 0.0 && credit == 0.0)
    ensures debit > 0.0 && credit > 0.0 ==> AcceptLine(form, Some(id), parseFloat) == Err(BothSides)
    ensures debit == 0.0 && credit == 0.0 ==> AcceptLine(form, Some(id), parseFloat) == Err(NoAmount)
  {
  }

  /** A blank amount field behaves as "0". */
  lemma BlankIsZero(form: LineForm, accountId: Option<int>, parseFloat: string -> Option<real>)
    requires form.credit == ""
    ensures AcceptLine(form, accountId, parseFloat) == AcceptLine(form.(credit := "0"), accountId, parseFloat)
    ensures form.debit == "" ==>
      AcceptLine(form, accountId, parseFloat) == AcceptLine(form.(debit := "0", credit := "0"), accountId, parseFloat)
  {
  }

  /** A negative amount on one side and zero on the other is accepted. */
  lemma NegativeAgainstZeroAccepted(form: LineForm, id: int, parseFloat: string -> Option<real>, amount: real)
    requires form.account != "" && form.wording != "" && id != 0 && amount < 0.0
    requires LineAmounts(form, parseFloat) == (Some(amount), Some(0.0))
    ensures AcceptLine(form, Some(id), parseFloat) == Ok(Line(id, form.account, form.wording, amount, 0.0))
  {
  }

  // ---------------------------------------------------------------- entry

  datatype EntryError =
    | MissingHeader   // number, date or wording empty
    | NoLines
    | Unbalanced      // debits and credits differ by more than 0.01

  function TotalDebit(lines: seq<Line>): real
  {
    if lines == [] then 0.0 else TotalDebit(lines[..|lines| - 1]) + lines[|lines| - 1].debit
  }

  function TotalCredit(lines: seq<Line>): real
  {
    if lines == [] then 0.0 else TotalCredit(lines[..|lines| - 1]) + lines[|lines| - 1].credit
  }

  function Abs(x: real): (r: real)
    ensures r >= 0.0 && (r == x || r == -x)
  {
    if x < 0.0 then -x else x
  }

  /** The 'Enregistrer' handler of the entry form and the total that
      `save_ecriture` stores: the sum of the debits. */
  function AcceptEntry(number: string, date: string, wording: string, lines: seq<Line>): (r: Result<real, EntryError>)
    ensures r.Ok? <==>
      number != "" && date != "" && wording != "" && lines != [] &&
      -0.01 <= TotalDebit(lines) - TotalCredit(lines) <= 0.01
    ensures r.Ok? ==> r.value == TotalDebit(lines)
    ensures r == Err(Unbalanced) ==> lines != [] && Abs(TotalDebit(lines) - TotalCredit(lines)) > 0.01
  {
    if number == "" || date == "" || wording == "" then Err(MissingHeader)
    else if lines == [] then Err(NoLines)
    else if Abs(TotalDebit(lines) - TotalCredit(lines)) > 0.01 then Err(Unbalanced)
    else Ok(TotalDebit(lines))
  }

  /** The stored total of an entry is never negative when no line carries a
      negative debit. */
  lemma {:induction false} TotalDebitNonNegative(lines: seq<Line>)
    requires forall i :: 0 <= i < |lines| ==> lines[i].debit >= 0.0
    ensures TotalDebit(lines) >= 0.0
  {
    if lines != [] {
      TotalDebitNonNegative(lines[..|lines| - 1]);
    }
  }

  /** Adding a line to an entry adds its debit and its credit to the totals. */
  lemma {:induction false} TotalsAppend(lines: seq<Line>, l: Line)
    ensures TotalDebit(lines + [l]) == TotalDebit(lines) + l.debit
    ensures TotalCredit(lines + [l]) == TotalCredit(lines) + l.credit
  {
    assert (lines + [l])[..|lines|] == lines;
  }

  // ---------------------------------------------------------------- invoice

  datatype InvoiceLineForm = InvoiceLineForm(description: string, quantity: string, unitPrice: string, vatRate: string)

  datatype InvoiceLine = InvoiceLine(description: string, quantity: real, unitPrice: real, vatRate: real,
                                     net: real, vat: real)

  datatype InvoiceLineError = MissingField | NotANumber

  /** A line whose amounts are those `show_ligne_facture_form` computes:
      HT = quantity × unit price, TVA = HT × rate / 100. */
  predicate WellFormed(l: InvoiceLine)
  {
    l.net == l.quantity * l.unitPrice && l.vat == l.net * (l.vatRate / 100.0)
  }

  /** The 'Ajouter' handler of the invoice-line form. */
  function AcceptInvoiceLine(form: InvoiceLineForm, parseFloat: string -> Option<real>): (r: Result<InvoiceLine, InvoiceLineError>)
    ensures r.Ok? ==> WellFormed(r.value) && r.value.description == form.description
    ensures r.Ok? ==>
      && parseFloat(form.quantity) == Some(r.value.quantity)
      && parseFloat(form.unitPrice) == Some(r.value.unitPrice)
      && parseFloat(form.vatRate) == Some(r.value.vatRate)
    ensures r.Ok? <==>
      && form.description != "" && form.quantity != "" && form.unitPrice != ""
      && parseFloat(form.quantity).Some? && parseFloat(form.unitPrice).Some? && parseFloat(form.vatRate).Some?
    ensures r == Err(NotANumber) ==> form.description != "" && form.quantity != "" && form.unitPrice != ""
  {
    if form.description == "" || form.quantity == "" || form.unitPrice == "" then Err(MissingField)
    else
      match (parseFloat(form.quantity), parseFloat(form.unitPrice), parseFloat(form.vatRate))
      case (Some(q), Some(p), Some(rate)) =>
        var net := q * p;
        Ok(InvoiceLine(form.description, q, p, rate, net, net * (rate / 100.0)))
      case _ => Err(NotANumber)
  }

  function SumNet(lines: seq<InvoiceLine>): real
  {
    if lines == [] then 0.0 else SumNet(lines[..|lines| - 1]) + lines[|lines| - 1].net
  }

  function SumVat(lines: seq<InvoiceLine>): real
  {
    if lines == [] then 0.0 else SumVat(lines[..|lines| - 1]) + lines[|lines| - 1].vat
  }

  /** `update_facture_totals`: total HT, total TVA and TTC = HT + TVA. */
  method InvoiceTotals(lines: seq<InvoiceLine>) returns (totalNet: real, totalVat: real, totalGross: real)
    ensures totalNet == SumNet(lines) && totalVat == SumVat(lines)
    ensures totalGross == totalNet + totalVat
  {
    totalNet, totalVat := 0.0, 0.0;
    for i := 0 to |lines|
      invariant totalNet == SumNet(lines[..i]) && totalVat == SumVat(lines[..i])
    {
      assert lines[..i + 1][..i] == lines[..i];
      totalNet := totalNet + lines[i].net;
      totalVat := totalVat + lines[i].vat;
    }
    assert lines[..|lines|] == lines;
    totalGross := totalNet + totalVat;
  }

  /** Σ quantity × unit price × (1 + rate / 100): the gross total written
      without the intermediate columns. */
  function GrossOf(lines: seq<InvoiceLine>): real
  {
    if lines == [] then 0.0
    else
      var l := lines[|lines| - 1];
      GrossOf(lines[..|lines| - 1]) + l.quantity * l.unitPrice * (1.0 + l.vatRate / 100.0)
  }

  /** For lines built by the line form, TTC is the sum of each line's price
      including its own VAT rate. */
  lemma {:induction false} GrossTotal(lines: seq<InvoiceLine>)
    requires forall i :: 0 <= i < |lines| ==> WellFormed(lines[i])
    ensures SumNet(lines) + SumVat(lines) == GrossOf(lines)
  {
    if lines != [] {
      var l := lines[|lines| - 1];
      GrossTotal(lines[..|lines| - 1]);
      assert WellFormed(l);
      calc {
        l.net + l.vat;
        l.quantity * l.unitPrice + l.quantity * l.unitPrice * (l.vatRate / 100.0);
        l.quantity * l.unitPrice * (1.0 + l.vatRate / 100.0);
      }
    }
  }

  /** With one VAT rate for every line, TVA is that rate applied to HT. */
  lemma {:induction false} UniformRate(lines: seq<InvoiceLine>, rate: real)
    requires forall i :: 0 <= i < |lines| ==> WellFormed(lines[i]) && lines[i].vatRate == rate
    ensures SumVat(lines) == SumNet(lines) * (rate / 100.0)
  {
    if lines != [] {
      UniformRate(lines[..|lines| - 1], rate);
    }
  }
}
