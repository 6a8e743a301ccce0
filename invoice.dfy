/**
 * The invoice mapper: a fixed table of ten header fields read with the
 * section extractor, the two dates completed to a date-time, a missing total
 * recomputed from base and tax, and one line item per `tuple` of the
 * line-items section.
 */
module InvoiceMapper {
  import opened Wrappers
  import opened Xml
  import opened Extract
  import opened Errors

  /** One line item; each value may be absent, as the item extractor can return `None`. */
  datatype LineItem = LineItem(
    itemAmount: Option<string>,
    itemQuantity: Option<string>,
    itemDescription: Option<string>,
    accountId: Option<string>)

  /** The mapped invoice record, one field per key of the source's dictionary. */
  datatype Invoice = Invoice(
    documentId: string,
    invoiceDate: string,
    invoiceDue: string,
    totalAmount: string,
    iban: string,
    currency: string,
    vendor: string,
    vendorAddress: string,
    amountDue: string,
    notes: string,
    lineItems: seq<LineItem>)

  /** The time of day appended to both dates. */
  const Midnight := "T00:00:00"

  /**
   * `str(float(base) + float(tax))`: decimal parsing, floating-point addition
   * and formatting are left to this parameter, which fails with the
   * `ValueError` of `float` on text that is not a number.
   */
  type FloatSum = (string, string) -> Result<string, Failure>

  /** The header fields of the mapping table. */
  datatype Field = DocumentId | InvoiceDate | InvoiceDue | TotalAmount | Iban | Currency | Vendor | VendorAddress | AmountDue | Notes

  /** Where a header field is read: section, datapoint, and the optional fallback pair. */
  datatype Rule = Rule(section: string, datapoint: string, fallbackSection: Option<string>, fallbackDatapoint: Option<string>)

  /** The mapping table. */
  function RuleOf(f: Field): Rule {
    match f
    case DocumentId => Rule("basic_info_section", "document_id", None, None)
    case InvoiceDate => Rule("basic_info_section", "date_issue", None, None)
    case InvoiceDue => Rule("basic_info_section", "date_due", None, None)
    case TotalAmount => Rule("amounts_section", "amount_total", None, None)
    case Iban => Rule("payment_info_section", "iban", None, None)
    case Currency => Rule("amounts_section", "currency", Some("totals_section"), Some("currency"))
    case Vendor => Rule("vendor_section", "sender_name", None, None)
    case VendorAddress => Rule("vendor_section", "sender_address", None, None)
    case AmountDue => Rule("amounts_section", "amount_due", Some("totals_section"), Some("amount_due"))
    case Notes => Rule("others_section", "notes", None, None)
  }

  /** The value the table gives a header field. */
  function Extracted(root: Element, f: Field): string {
    var rule := RuleOf(f);
    SectionValue(root, rule.section, rule.datapoint, rule.fallbackSection, rule.fallbackDatapoint)
  }

  /** The two parts a missing total is recomputed from. */
  function TotalBase(root: Element): string {
    SectionValue(root, "totals_section", "amount_total_base", None, None)
  }

  function TotalTax(root: Element): string {
    SectionValue(root, "totals_section", "amount_total_tax", None, None)
  }

  /** The direct total, else the sum of base and tax when both are non-empty, else `""`. */
  function TotalAmountOf(root: Element, sum: FloatSum): Result<string, Failure> {
    var direct := Extracted(root, TotalAmount);
    if direct != "" then Ok(direct)
    else if TotalBase(root) != "" && TotalTax(root) != "" then sum(TotalBase(root), TotalTax(root))
    else Ok("")
  }

  /** `.//section[@schema_id="line_items_section"]/multivalue/tuple`, in document order. */
  function LineItemTuples(root: Element): seq<Element> {
    ChildStep(ChildStep(WithSchemaId(Descendants(root), "section", "line_items_section"), "multivalue"), "tuple")
  }

  /**
   * The path's reference reading: the tuples are exactly the `tuple`
   * children of a `multivalue` child of a `line_items_section` section
   * anywhere below the root.
   */
  lemma LineItemTuplesMembers(root: Element, x: Element)
    ensures x in LineItemTuples(root) <==>
      exists sec, mv :: Below(sec, root) && HasSchemaId(sec, "section", "line_items_section")
                        && mv in sec.children && mv.tag == "multivalue" && x in mv.children && x.tag == "tuple"
  {
    var sections := WithSchemaId(Descendants(root), "section", "line_items_section");
    var multivalues := ChildStep(sections, "multivalue");
    ChildStepMembers(x, multivalues, "tuple");
    if x in LineItemTuples(root) {
      var mv :| mv in multivalues && x in mv.children && x.tag == "tuple";
      ChildStepMembers(mv, sections, "multivalue");
      var sec :| sec in sections && mv in sec.children && mv.tag == "multivalue";
      DescendantsAreBelow(sec, root);
    }
    if exists sec, mv :: Below(sec, root) && HasSchemaId(sec, "section", "line_items_section")
                         && mv in sec.children && mv.tag == "multivalue" && x in mv.children && x.tag == "tuple" {
      var sec, mv :| Below(sec, root) && HasSchemaId(sec, "section", "line_items_section")
                     && mv in sec.children && mv.tag == "multivalue" && x in mv.children && x.tag == "tuple";
      DescendantsAreBelow(sec, root);
      assert sec in sections;
      ChildStepMembers(mv, sections, "multivalue");
      assert mv in multivalues;
    }
  }

  /** The line item read from one `tuple`. */
  function LineItemOf(item: Element): LineItem {
    LineItem(
      itemAmount := ItemValue(item, "item_total_base", "item_amount_total"),
      itemQuantity := ItemValue(item, "item_quantity", ""),
      itemDescription := ItemValue(item, "item_description", ""),
      accountId := ItemValue(item, "account_id", ""))
  }

  /** One line item per tuple, in order. */
  function ItemsOf(tuples: seq<Element>): seq<LineItem> {
    seq(|tuples|, i requires 0 <= i < |tuples| => LineItemOf(tuples[i]))
  }

  /** The line items of the document. */
  function LineItemsOf(root: Element): seq<LineItem> {
    ItemsOf(LineItemTuples(root))
  }

  /** The dictionary literal of the source: every header field as the table gives it, no line items yet. */
  function ReadHeaders(root: Element): Invoice {
    Invoice(
      documentId := Extracted(root, DocumentId),
      invoiceDate := Extracted(root, InvoiceDate),
      invoiceDue := Extracted(root, InvoiceDue),
      totalAmount := Extracted(root, TotalAmount),
      iban := Extracted(root, Iban),
      currency := Extracted(root, Currency),
      vendor := Extracted(root, Vendor),
      vendorAddress := Extracted(root, VendorAddress),
      amountDue := Extracted(root, AmountDue),
      notes := Extracted(root, Notes),
      lineItems := [])
  }

  /** The whole mapping, failing only when the recomputed total cannot be summed. */
  function InvoiceOf(root: Element, sum: FloatSum): Result<Invoice, Failure> {
    var total :- TotalAmountOf(root, sum);
    var headers := ReadHeaders(root);
    Ok(headers.(
      invoiceDate := headers.invoiceDate + Midnight,
      invoiceDue := headers.invoiceDue + Midnight,
      totalAmount := total,
      lineItems := LineItemsOf(root)))
  }

  /** The loop of `extract_line_items`: appends one line item per tuple, in order. */
  method ReadLineItems(tuples: seq<Element>) returns (items: seq<LineItem>)
    ensures |items| == |tuples|
    ensures forall i | 0 <= i < |items| :: items[i] == LineItemOf(tuples[i])
  {
    items := [];
    for i := 0 to |tuples|
      invariant |items| == i
      invariant forall k | 0 <= k < i :: items[k] == LineItemOf(tuples[k])
    {
      items := items + [LineItemOf(tuples[i])];
    }
  }

  /** `extract_line_items`: one line item per line-items tuple, in document order. */
  method ExtractLineItems(root: Element) returns (items: seq<LineItem>)
    ensures |items| == |LineItemTuples(root)|
    ensures forall i | 0 <= i < |items| :: items[i] == LineItemOf(LineItemTuples(root)[i])
    ensures items == LineItemsOf(root)
  {
    var tuples := LineItemTuples(root);
    items := ReadLineItems(tuples);
    assert items == ItemsOf(tuples);
  }

  /**
   * `extract_invoice_data`: reads the ten header fields, then overwrites the
   * two dates and, when it is empty, the total, and finally adds the line
   * items.
   */
  method ExtractInvoiceData(root: Element, sum: FloatSum) returns (r: Result<Invoice, Failure>)
    ensures r == InvoiceOf(root, sum)
  {
    var data := ReadHeaders(root);
    data := data.(invoiceDate := data.invoiceDate + Midnight);
    data := data.(invoiceDue := data.invoiceDue + Midnight);
    if data.totalAmount == "" {
      var base := SectionValue(root, "totals_section", "amount_total_base", None, None);
      var tax := SectionValue(root, "totals_section", "amount_total_tax", None, None);
      if base != "" && tax != "" {
        var total := sum(base, tax);
        if total.Err? {
          return Err(total.error);
        }
        data := data.(totalAmount := total.value);
      } else {
        data := data.(totalAmount := "");
      }
    }
    assert TotalAmountOf(root, sum) == Ok(data.totalAmount);
    var items := ExtractLineItems(root);
    data := data.(lineItems := items);
    return Ok(data);
  }

  /**
   * Both dates are the extracted value followed by `T00:00:00`, also when
   * nothing was extracted.
   */
  lemma DatesGetMidnight(root: Element, sum: FloatSum)
    requires InvoiceOf(root, sum).Ok?
    ensures InvoiceOf(root, sum).value.invoiceDate == Extracted(root, InvoiceDate) + "T00:00:00"
    ensures InvoiceOf(root, sum).value.invoiceDue == Extracted(root, InvoiceDue) + "T00:00:00"
    ensures Extracted(root, InvoiceDate) == "" ==> InvoiceOf(root, sum).value.invoiceDate == "T00:00:00"
  {
  }

  /**
   * The total: a non-empty direct value is kept; otherwise the sum of base and
   * tax when both are non-empty, `""` when either is empty; and the mapping
   * fails exactly when that sum fails.
   */
  lemma TotalAmountRule(root: Element, sum: FloatSum)
    ensures var r := InvoiceOf(root, sum);
      && (Extracted(root, TotalAmount) != "" ==> r.Ok? && r.value.totalAmount == Extracted(root, TotalAmount))
      && (Extracted(root, TotalAmount) == "" && TotalBase(root) != "" && TotalTax(root) != "" ==>
            (r.Ok? <==> sum(TotalBase(root), TotalTax(root)).Ok?) &&
            (r.Ok? ==> r.value.totalAmount == sum(TotalBase(root), TotalTax(root)).value))
      && (Extracted(root, TotalAmount) == "" && (TotalBase(root) == "" || TotalTax(root) == "") ==>
            r.Ok? && r.value.totalAmount == "")
  {
  }

  /**
   * A currency given directly in `amounts_section` wins: the `totals_section`
   * fallback is not consulted.
   */
  lemma CurrencyPrimaryWins(root: Element, sum: FloatSum)
    requires InvoiceOf(root, sum).Ok?
    requires Truthy(FindValue(root, "amounts_section", "currency"))
    ensures InvoiceOf(root, sum).value.currency == FindValue(root, "amounts_section", "currency").value
  {
  }

  /**
   * Every non-empty header field other than the dates and the total is the
   * text of a datapoint the annotation holds under that field's primary
   * pair or, for currency and amount due, under `totals_section`.
   */
  lemma HeaderFieldsSound(root: Element, f: Field)
    requires f !in {InvoiceDate, InvoiceDue}
    ensures var rule := RuleOf(f);
      Extracted(root, f) != "" ==>
        exists dp :: TextOf(dp) == Extracted(root, f) &&
          (Locates(root, rule.section, rule.datapoint, dp) ||
           (rule.fallbackSection.Some? && rule.fallbackDatapoint.Some? &&
            Locates(root, rule.fallbackSection.value, rule.fallbackDatapoint.value, dp)))
  {
    var rule := RuleOf(f);
    SectionValueSound(root, rule.section, rule.datapoint, rule.fallbackSection, rule.fallbackDatapoint);
  }

  /**
   * The line items follow the tuples one for one, and each item's amount is
   * read from `item_total_base`, falling back to `item_amount_total`.
   */
  lemma LineItemsFollowTuples(root: Element, sum: FloatSum)
    requires InvoiceOf(root, sum).Ok?
    ensures var items := InvoiceOf(root, sum).value.lineItems;
      && |items| == |LineItemTuples(root)|
      && forall i | 0 <= i < |items| ::
           items[i].itemAmount == ItemValue(LineItemTuples(root)[i], "item_total_base", "item_amount_total")
  {
  }
}
