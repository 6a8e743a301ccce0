/**
 * The output side of the invoice transformer: the fixed
 * `InvoiceRegisters/Invoices/Payable` tree with one `Detail` per line item,
 * and its serialisation as ElementTree writes an attribute-free tree.
 */
module InvoiceXml {
  import opened Wrappers
  import opened Xml
  import opened InvoiceMapper

  /** A childless element with a tag and a text, without attributes: the element `add_sub_element` creates. */
  function Leaf(tag: string, text: Option<string>): Element {
    Element(tag, map[], text, [])
  }

  /**
   * `add_sub_element`: `ET.SubElement(parent, tag)` with its text set; the
   * parent gains one last child, which has the given tag and text and
   * nothing else.
   */
  function AddSubElement(parent: Element, tag: string, text: Option<string>): (r: Element)
    ensures r.tag == parent.tag && r.attrs == parent.attrs && r.text == parent.text
    ensures |r.children| == |parent.children| + 1 && r.children[..|parent.children|] == parent.children
    ensures r.children[|parent.children|] == Element(tag, map[], text, [])
  {
    AppendChild(parent, Leaf(tag, text))
  }

  /** The `Detail` of one line item: Amount, AccountId, Quantity, Notes. */
  function DetailOf(item: LineItem): Element {
    Element("Detail", map[], None, [
      Leaf("Amount", item.itemAmount),
      Leaf("AccountId", item.accountId),
      Leaf("Quantity", item.itemQuantity),
      Leaf("Notes", item.itemDescription)])
  }

  function DetailsOf(items: seq<LineItem>): (r: seq<Element>)
    ensures |r| == |items|
  {
    seq(|items|, i requires 0 <= i < |items| => DetailOf(items[i]))
  }

  /** The `Payable` element: ten header elements, then `Details`. */
  function PayableOf(inv: Invoice): Element {
    Element("Payable", map[], None, [
      Leaf("InvoiceNumber", Some(inv.documentId)),
      Leaf("InvoiceDate", Some(inv.invoiceDate)),
      Leaf("DueDate", Some(inv.invoiceDue)),
      Leaf("TotalAmount", Some(inv.totalAmount)),
      Leaf("Notes", Some(inv.notes)),
      Leaf("Iban", Some(inv.iban)),
      Leaf("Amount", Some(inv.amountDue)),
      Leaf("Currency", Some(inv.currency)),
      Leaf("Vendor", Some(inv.vendor)),
      Leaf("VendorAddress", Some(inv.vendorAddress)),
      Element("Details", map[], None, DetailsOf(inv.lineItems))])
  }

  /** The whole output document. */
  function InvoiceTree(inv: Invoice): Element {
    Element("InvoiceRegisters", map[], None, [Element("Invoices", map[], None, [PayableOf(inv)])])
  }

  /** No element of the tree carries an attribute. */
  predicate AttributeFree(e: Element)
    decreases e
  {
    e.attrs == map[] && forall c | c in e.children :: AttributeFree(c)
  }

  /** ElementTree's escaping of text content: `&`, `<` and `>`. */
  function Escape(s: string): (r: string)
    ensures '<' !in r && '>' !in r
  {
    if s == [] then []
    else
      (match s[0]
       case '&' => "&amp;"
       case '<' => "&lt;"
       case '>' => "&gt;"
       case c => [c])
      + Escape(s[1..])
  }

  /** The reading of entity references that undoes `Escape`. */
  function Unescape(s: string): string
    decreases |s|
  {
    if s == [] then []
    else if |s| >= 5 && s[..5] == "&amp;" then "&" + Unescape(s[5..])
    else if |s| >= 4 && s[..4] == "&lt;" then "<" + Unescape(s[4..])
    else if |s| >= 4 && s[..4] == "&gt;" then ">" + Unescape(s[4..])
    else [s[0]] + Unescape(s[1..])
  }

  /** Escaping loses nothing: the text reads back exactly. */
  lemma {:induction false} EscapeRoundTrip(s: string)
    ensures Unescape(Escape(s)) == s
  {
    if s != [] {
      var e := Escape(s);
      var head := match s[0] case '&' => "&amp;" case '<' => "&lt;" case '>' => "&gt;" case c => [c];
      assert e == head + Escape(s[1..]);
      assert e[|head|..] == Escape(s[1..]);
      EscapeRoundTrip(s[1..]);
      if s[0] != '&' && s[0] != '<' && s[0] != '>' {
        assert e[0] == s[0];
        assert !(|e| >= 5 && e[..5] == "&amp;") && !(|e| >= 4 && e[..4] == "&lt;") && !(|e| >= 4 && e[..4] == "&gt;") by {
          assert e[0] != '&';
        }
        assert [s[0]] + s[1..] == s;
      } else if s[0] == '&' {
        assert e[..5] == "&amp;";
      } else if s[0] == '<' {
        assert e[..4] == "&lt;" && e[1] == 'l';
      } else {
        assert e[..4] == "&gt;" && e[1] == 'g';
      }
    }
  }

  /**
   * `ET.tostring` of an attribute-free tree: an element without text and
   * children is written `<tag />`, any other one as its start tag, its
   * escaped text, its children and its end tag.
   */
  function Serialize(e: Element): string
    requires AttributeFree(e)
    decreases e, 1
  {
    if TextOf(e) == "" && e.children == [] then "<" + e.tag + " />"
    else "<" + e.tag + ">" + Escape(TextOf(e)) + SerializeAll(e.children) + "</" + e.tag + ">"
  }

  function SerializeAll(cs: seq<Element>): string
    requires forall c | c in cs :: AttributeFree(c)
    decreases cs, 0
  {
    if cs == [] then ""
    else
      assert cs[0] in cs;
      Serialize(cs[0]) + SerializeAll(cs[1..])
  }

  lemma InvoiceTreeAttributeFree(inv: Invoice)
    ensures AttributeFree(PayableOf(inv)) && AttributeFree(InvoiceTree(inv))
  {
    var p := PayableOf(inv);
    forall c | c in p.children ensures AttributeFree(c) {
      if c.tag == "Details" {
        forall d | d in c.children ensures AttributeFree(d) {
          var k :| 0 <= k < |c.children| && c.children[k] == d;
        }
      }
    }
    assert AttributeFree(p);
  }

  /**
   * `build_invoice_xml`: creates the three nested roots, adds the ten header
   * elements to `Payable`, then one `Detail` per line item to `Details`, and
   * serialises the tree.
   */
  method BuildInvoiceXml(inv: Invoice) returns (xml: string)
    ensures AttributeFree(InvoiceTree(inv)) && xml == Serialize(InvoiceTree(inv))
  {
    var payable := NewElement("Payable");
    payable := AddSubElement(payable, "InvoiceNumber", Some(inv.documentId));
    payable := AddSubElement(payable, "InvoiceDate", Some(inv.invoiceDate));
    payable := AddSubElement(payable, "DueDate", Some(inv.invoiceDue));
    payable := AddSubElement(payable, "TotalAmount", Some(inv.totalAmount));
    payable := AddSubElement(payable, "Notes", Some(inv.notes));
    payable := AddSubElement(payable, "Iban", Some(inv.iban));
    payable := AddSubElement(payable, "Amount", Some(inv.amountDue));
    payable := AddSubElement(payable, "Currency", Some(inv.currency));
    payable := AddSubElement(payable, "Vendor", Some(inv.vendor));
    payable := AddSubElement(payable, "VendorAddress", Some(inv.vendorAddress));

    var details := NewElement("Details");
    for i := 0 to |inv.lineItems|
      invariant details.tag == "Details" && details.attrs == map[] && details.text == None
      invariant |details.children| == i
      invariant forall k | 0 <= k < i :: details.children[k] == DetailOf(inv.lineItems[k])
    {
      var item := inv.lineItems[i];
      var detail := NewElement("Detail");
      detail := AddSubElement(detail, "Amount", item.itemAmount);
      detail := AddSubElement(detail, "AccountId", item.accountId);
      detail := AddSubElement(detail, "Quantity", item.itemQuantity);
      detail := AddSubElement(detail, "Notes", item.itemDescription);
      details := AppendChild(details, detail);
    }
    assert details.children == DetailsOf(inv.lineItems);
    payable := AppendChild(payable, details);
    assert payable == PayableOf(inv);

    var invoices := AppendChild(NewElement("Invoices"), payable);
    assert invoices.children == [PayableOf(inv)];
    var root := AppendChild(NewElement("InvoiceRegisters"), invoices);
    assert root.children == [invoices];
    assert root == InvoiceTree(inv);
    InvoiceTreeAttributeFree(inv);
    xml := Serialize(root);
  }

  /** The tags of the ten header elements of `Payable`, in order. */
  const HeaderTags: seq<string> := ["InvoiceNumber", "InvoiceDate", "DueDate", "TotalAmount", "Notes",
                                    "Iban", "Amount", "Currency", "Vendor", "VendorAddress"]

  /** A leaf laid out as the schema wants it: the expected tag, no attributes, no children. */
  predicate IsLeaf(e: Element, tag: string) {
    e.tag == tag && e.attrs == map[] && e.children == []
  }

  /** Reads a line item back from a `Detail` laid out exactly as the schema prescribes. */
  function ReadDetail(d: Element): Option<LineItem> {
    if d.tag == "Detail" && d.attrs == map[] && d.text == None && |d.children| == 4
       && IsLeaf(d.children[0], "Amount") && IsLeaf(d.children[1], "AccountId")
       && IsLeaf(d.children[2], "Quantity") && IsLeaf(d.children[3], "Notes")
    then Some(LineItem(
      itemAmount := d.children[0].text,
      itemQuantity := d.children[2].text,
      itemDescription := d.children[3].text,
      accountId := d.children[1].text))
    else None
  }

  function ReadDetails(ds: seq<Element>): Option<seq<LineItem>> {
    if ds == [] then Some([])
    else
      var item :- ReadDetail(ds[0]);
      var rest :- ReadDetails(ds[1..]);
      Some([item] + rest)
  }

  /**
   * Reads an invoice back from a document laid out exactly as the output
   * schema prescribes, and fails on any other document.
   */
  function ReadInvoice(root: Element): Option<Invoice> {
    if root.tag == "InvoiceRegisters" && root.attrs == map[] && root.text == None && |root.children| == 1
       && root.children[0].tag == "Invoices" && root.children[0].attrs == map[] && root.children[0].text == None
       && |root.children[0].children| == 1
    then
      var p := root.children[0].children[0];
      if p.tag == "Payable" && p.attrs == map[] && p.text == None && |p.children| == 11
         && (forall i | 0 <= i < 10 :: IsLeaf(p.children[i], HeaderTags[i]) && p.children[i].text.Some?)
         && p.children[10].tag == "Details" && p.children[10].attrs == map[] && p.children[10].text == None
      then
        var items :- ReadDetails(p.children[10].children);
        Some(Invoice(
          documentId := p.children[0].text.value,
          invoiceDate := p.children[1].text.value,
          invoiceDue := p.children[2].text.value,
          totalAmount := p.children[3].text.value,
          iban := p.children[5].text.value,
          currency := p.children[7].text.value,
          vendor := p.children[8].text.value,
          vendorAddress := p.children[9].text.value,
          amountDue := p.children[6].text.value,
          notes := p.children[4].text.value,
          lineItems := items))
      else None
    else None
  }

  lemma {:induction false} DetailsRoundTrip(items: seq<LineItem>)
    ensures ReadDetails(DetailsOf(items)) == Some(items)
  {
    if items != [] {
      assert DetailsOf(items)[1..] == DetailsOf(items[1..]);
      DetailsRoundTrip(items[1..]);
      assert [items[0]] + items[1..] == items;
    }
  }

  /**
   * The built document follows the output schema and loses nothing: reading
   * it back by the schema gives the invoice it was built from.
   */
  lemma InvoiceTreeRoundTrip(inv: Invoice)
    ensures ReadInvoice(InvoiceTree(inv)) == Some(inv)
  {
    DetailsRoundTrip(inv.lineItems);
  }

  /** Different invoices give different documents. */
  lemma InvoiceTreeInjective(a: Invoice, b: Invoice)
    requires a != b
    ensures InvoiceTree(a) != InvoiceTree(b)
  {
    InvoiceTreeRoundTrip(a);
    InvoiceTreeRoundTrip(b);
  }

  /**
   * The layout of the output document: `InvoiceRegisters` holds `Invoices`,
   * which holds `Payable`; `Payable` holds the ten header elements in their
   * fixed order and then `Details`; `Details` holds one `Detail` per line
   * item, in order, each with Amount, AccountId, Quantity and Notes taken
   * from the item's amount, account, quantity and description.
   */
  lemma InvoiceTreeShape(inv: Invoice)
    ensures var root := InvoiceTree(inv);
      && root.tag == "InvoiceRegisters" && |root.children| == 1
      && root.children[0].tag == "Invoices" && |root.children[0].children| == 1
      && var p := root.children[0].children[0];
      && p.tag == "Payable" && |p.children| == 11
      && (forall i | 0 <= i < 10 :: p.children[i].tag == HeaderTags[i])
      && p.children[10].tag == "Details"
      && |p.children[10].children| == |inv.lineItems|
      && forall k | 0 <= k < |inv.lineItems| ::
           var d := p.children[10].children[k];
           && d.tag == "Detail"
           && [d.children[0].tag, d.children[1].tag, d.children[2].tag, d.children[3].tag] == ["Amount", "AccountId", "Quantity", "Notes"]
           && d.children[0].text == inv.lineItems[k].itemAmount
           && d.children[1].text == inv.lineItems[k].accountId
           && d.children[2].text == inv.lineItems[k].itemQuantity
           && d.children[3].text == inv.lineItems[k].itemDescription
  {
  }
}
