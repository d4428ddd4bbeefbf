/** The line-item quote form: its validation schema, its default and
    appended rows, and the subtotal / 8 % tax / total it displays.
    Amounts are exact reals. */
module QuoteForm {
  import opened Common

  datatype QuoteItem = QuoteItem(description: string, quantity: real, unitPrice: real)

  datatype QuoteFormValues = QuoteFormValues(clientId: string, jobDetails: string, items: seq<QuoteItem>)

  /** A validation issue: the path of the offending field and its message. */
  datatype Issue = Issue(path: seq<string>, message: string)

  // ---------------------------------------------------------------- schema

  /** The issues the item schema reports for one row, in field order. */
  function ItemIssues(item: QuoteItem): seq<Issue> {
    (if |item.description| < 1 then [Issue(["description"], "Description is required")] else [])
    + (if item.quantity < 0.1 then [Issue(["quantity"], "Quantity must be positive")] else [])
    + (if item.unitPrice < 0.0 then [Issue(["unitPrice"], "Unit price cannot be negative")] else [])
  }

  predicate ItemAccepted(item: QuoteItem) {
    ItemIssues(item) == []
  }

  function Prefixed(path: seq<string>, issues: seq<Issue>): (r: seq<Issue>)
    ensures |r| == |issues|
  {
    seq(|issues|, i requires 0 <= i < |issues| => Issue(path + issues[i].path, issues[i].message))
  }

  /** The issues of rows `from ..` of the list, each under `items.<index>`. */
  function RowIssues(items: seq<QuoteItem>, from: nat): seq<Issue>
    requires from <= |items|
    decreases |items| - from
  {
    if from == |items| then []
    else Prefixed(["items", NatToString(from)], ItemIssues(items[from])) + RowIssues(items, from + 1)
  }

  /** The issues the form schema reports, in field order. */
  function FormIssues(form: QuoteFormValues): seq<Issue> {
    (if |form.clientId| < 1 then [Issue(["clientId"], "Client is required")] else [])
    + (if |form.jobDetails| < 1 then [Issue(["jobDetails"], "Job details are required")] else [])
    + (if |form.items| < 1 then [Issue(["items"], "At least one line item is required")] else [])
    + RowIssues(form.items, 0)
  }

  predicate FormAccepted(form: QuoteFormValues) {
    FormIssues(form) == []
  }

  lemma ItemAcceptedIff(item: QuoteItem)
    ensures ItemAccepted(item) <==>
      item.description != "" && item.quantity >= 0.1 && item.unitPrice >= 0.0
  {
  }

  lemma {:induction false} RowIssuesEmptyIff(items: seq<QuoteItem>, from: nat)
    requires from <= |items|
    ensures RowIssues(items, from) == [] <==> forall i :: from <= i < |items| ==> ItemAccepted(items[i])
    decreases |items| - from
  {
    if from < |items| {
      var head := Prefixed(["items", NatToString(from)], ItemIssues(items[from]));
      var rest := RowIssues(items, from + 1);
      RowIssuesEmptyIff(items, from + 1);
      assert RowIssues(items, from) == head + rest;
      assert head == [] <==> ItemAccepted(items[from]);
      assert head + rest == [] <==> head == [] && rest == [];
    }
  }

  /** A form is accepted exactly when it names a client, has job details and
      has at least one row, every row of which the item schema accepts. */
  lemma FormAcceptedIff(form: QuoteFormValues)
    ensures FormAccepted(form) <==>
      && form.clientId != ""
      && form.jobDetails != ""
      && |form.items| >= 1
      && forall i :: 0 <= i < |form.items| ==> ItemAccepted(form.items[i])
  {
    RowIssuesEmptyIff(form.items, 0);
  }

  // ----------------------------------------------------------- rows

  /** The row the form starts with and the "Add Item" button appends. */
  function DefaultItem(): QuoteItem {
    QuoteItem("", 1.0, 0.0)
  }

  function DefaultValues(): QuoteFormValues {
    QuoteFormValues("", "", [DefaultItem()])
  }

  function AppendItem(items: seq<QuoteItem>): (r: seq<QuoteItem>)
    ensures |r| == |items| + 1 && r[..|items|] == items && r[|items|] == DefaultItem()
  {
    items + [DefaultItem()]
  }

  /** The trash button: drop row `index` (an index past the end drops nothing). */
  function RemoveItem(items: seq<QuoteItem>, index: nat): (r: seq<QuoteItem>)
    ensures index < |items| ==> |r| == |items| - 1
    ensures index < |items| ==> forall i :: 0 <= i < |r| ==> r[i] == items[if i < index then i else i + 1]
    ensures index >= |items| ==> r == items
  {
    if index < |items| then items[..index] + items[index + 1..] else items
  }

  /** The untouched form is rejected: no client, no job details, and its one
      row has no description. */
  lemma DefaultValuesRejected()
    ensures FormIssues(DefaultValues()) == [
      Issue(["clientId"], "Client is required"),
      Issue(["jobDetails"], "Job details are required"),
      Issue(["items", "0", "description"], "Description is required")]
  {
    var d := DefaultValues();
    assert NatToString(0) == "0";
    assert ItemIssues(d.items[0]) == [Issue(["description"], "Description is required")];
    var row := Prefixed(["items", "0"], ItemIssues(d.items[0]));
    assert row[0] == Issue(["items", "0", "description"], "Description is required");
    assert RowIssues(d.items, 1) == [];
    assert RowIssues(d.items, 0) == row;
  }

  // ----------------------------------------------------------- amounts

  function LineAmount(item: QuoteItem): real {
    item.quantity * item.unitPrice
  }

  /** `items.reduce((acc, item) => acc + item.quantity * item.unitPrice, 0)`:
      a left fold, so the last row is added last. */
  function Subtotal(items: seq<QuoteItem>): real {
    if items == [] then 0.0 else Subtotal(items[..|items| - 1]) + LineAmount(items[|items| - 1])
  }

  const TaxRate: real := 0.08

  datatype Totals = Totals(subtotal: real, tax: real, total: real)

  /** The three figures under the rows. */
  function QuoteTotals(items: seq<QuoteItem>): Totals {
    var subtotal := Subtotal(items);
    var tax := subtotal * TaxRate;
    Totals(subtotal, tax, subtotal + tax)
  }

  /** The sum of quantity times unit price, written as a right fold. */
  function SumOfLines(items: seq<QuoteItem>): real {
    if items == [] then 0.0 else LineAmount(items[0]) + SumOfLines(items[1..])
  }

  lemma {:induction false} SubtotalConcat(a: seq<QuoteItem>, b: seq<QuoteItem>)
    ensures Subtotal(a + b) == Subtotal(a) + Subtotal(b)
    decreases |b|
  {
    if b == [] {
      assert a + b == a;
    } else {
      var b' := b[..|b| - 1];
      assert (a + b)[..|a + b| - 1] == a + b';
      SubtotalConcat(a, b');
    }
  }

  /** The left fold and the right fold agree: the subtotal is the sum over all
      rows of quantity times unit price, 0 for no rows. */
  lemma {:induction false} SubtotalIsSumOfLines(items: seq<QuoteItem>)
    ensures Subtotal(items) == SumOfLines(items)
  {
    if items != [] {
      SubtotalIsSumOfLines(items[1..]);
      SubtotalConcat([items[0]], items[1..]);
      assert [items[0]] + items[1..] == items;
      assert Subtotal([items[0]]) == LineAmount(items[0]) by {
        assert [items[0]][..0] == [];
      }
    }
  }

  /** Tax is 8 % of the subtotal and the total is the subtotal plus tax,
      i.e. 108 % of the sum of the lines. */
  lemma QuoteTotalsAreSumPlusTax(items: seq<QuoteItem>)
    ensures QuoteTotals(items).subtotal == SumOfLines(items)
    ensures QuoteTotals(items).tax == 0.08 * SumOfLines(items)
    ensures QuoteTotals(items).total == QuoteTotals(items).subtotal + QuoteTotals(items).tax
    ensures QuoteTotals(items).total == 1.08 * SumOfLines(items)
  {
    SubtotalIsSumOfLines(items);
  }

  lemma {:induction false} AcceptedRowsSubtotalNonNegative(items: seq<QuoteItem>)
    requires forall i :: 0 <= i < |items| ==> ItemAccepted(items[i])
    ensures Subtotal(items) >= 0.0
  {
    if items != [] {
      var last := items[|items| - 1];
      ItemAcceptedIff(last);
      AcceptedRowsSubtotalNonNegative(items[..|items| - 1]);
    }
  }

  /** Whenever every row passes the item schema, whatever the client and job
      details fields hold, the subtotal is non-negative, the tax is
      non-negative and the total is at least the subtotal. */
  lemma AcceptedRowsTotalsBounds(items: seq<QuoteItem>)
    requires forall i :: 0 <= i < |items| ==> ItemAccepted(items[i])
    ensures QuoteTotals(items).subtotal >= 0.0
    ensures QuoteTotals(items).tax >= 0.0
    ensures QuoteTotals(items).total >= QuoteTotals(items).subtotal
  {
    AcceptedRowsSubtotalNonNegative(items);
  }

  /** An appended default row adds nothing to the subtotal and leaves the
      earlier rows as they were. */
  lemma AppendItemKeepsSubtotal(items: seq<QuoteItem>)
    ensures Subtotal(AppendItem(items)) == Subtotal(items)
    ensures AppendItem(items)[..|items|] == items
  {
    assert AppendItem(items)[..|items|] == items;
  }

  lemma SubtotalSingle(x: QuoteItem)
    ensures Subtotal([x]) == LineAmount(x)
  {
    assert [x][..0] == [];
  }

  lemma SubtotalSplit(items: seq<QuoteItem>, index: nat)
    requires index < |items|
    ensures Subtotal(items) == Subtotal(items[..index]) + LineAmount(items[index]) + Subtotal(items[index + 1..])
  {
    var pre, x, post := items[..index], items[index], items[index + 1..];
    assert items == pre + ([x] + post);
    SubtotalConcat(pre, [x] + post);
    SubtotalConcat([x], post);
    SubtotalSingle(x);
  }

  /** Removing a row takes exactly that row's amount off the subtotal. */
  lemma RemoveItemSubtotal(items: seq<QuoteItem>, index: nat)
    requires index < |items|
    ensures Subtotal(RemoveItem(items, index)) == Subtotal(items) - LineAmount(items[index])
  {
    assert RemoveItem(items, index) == items[..index] + items[index + 1..];
    SubtotalConcat(items[..index], items[index + 1..]);
    SubtotalSplit(items, index);
  }
}
