/**
 * `transform_invoice_xml`, the composition of the mapper and the output
 * builder, and `xml_to_base64`, the encoding of the result for the relay.
 */
module Transform {
  import opened Wrappers
  import opened Xml
  import opened Errors
  import opened InvoiceMapper
  import opened InvoiceXml
  import Utf8
  import Base64

  /**
   * The document `transform_invoice_xml` returns for a parsed input: the
   * serialised output tree of the invoice the mapper reads, or the mapper's
   * failure.
   */
  function InvoiceXmlOf(root: Element, sum: FloatSum): (r: Result<string, Failure>)
    ensures r.Ok? <==> InvoiceOf(root, sum).Ok?
    ensures r.Err? ==> r.error == InvoiceOf(root, sum).error
  {
    var inv :- InvoiceOf(root, sum);
    InvoiceTreeAttributeFree(inv);
    Ok(Serialize(InvoiceTree(inv)))
  }

  /** `transform_invoice_xml`: extracts the invoice data, then builds the output document from it. */
  method TransformInvoiceXml(root: Element, sum: FloatSum) returns (r: Result<string, Failure>)
    ensures r == InvoiceXmlOf(root, sum)
  {
    var data := ExtractInvoiceData(root, sum);
    if data.Err? {
      return Err(data.error);
    }
    var xml := BuildInvoiceXml(data.value);
    r := Ok(xml);
  }

  /**
   * The transformation fails only when the total has to be recomputed and
   * the sum of base and tax cannot be formed; every other document is
   * transformed.
   */
  lemma TransformFailsOnlyOnSum(root: Element, sum: FloatSum)
    ensures InvoiceXmlOf(root, sum).Err? <==>
              Extracted(root, TotalAmount) == "" && TotalBase(root) != "" && TotalTax(root) != ""
              && sum(TotalBase(root), TotalTax(root)).Err?
    ensures InvoiceXmlOf(root, sum).Err? ==> InvoiceXmlOf(root, sum).error == sum(TotalBase(root), TotalTax(root)).error
  {
  }

  /**
   * The output document is the serialisation of an attribute-free tree that
   * reads back, under the output schema, as exactly the invoice the mapper
   * extracted.
   */
  lemma TransformCarriesInvoice(root: Element, sum: FloatSum)
    ensures InvoiceXmlOf(root, sum).Ok? ==>
              exists t :: AttributeFree(t) && InvoiceXmlOf(root, sum).value == Serialize(t)
                          && ReadInvoice(t) == Some(InvoiceOf(root, sum).value)
  {
    if InvoiceOf(root, sum).Ok? {
      var inv := InvoiceOf(root, sum).value;
      InvoiceTreeAttributeFree(inv);
      InvoiceTreeRoundTrip(inv);
      var t := InvoiceTree(inv);
      assert AttributeFree(t) && InvoiceXmlOf(root, sum).value == Serialize(t) && ReadInvoice(t) == Some(inv);
    }
  }

  /** `xml_to_base64`: the base 64 text of the document's UTF-8 octets. */
  function XmlToBase64(xml: string): (r: string)
    ensures |r| == 4 * ((|Utf8.Encode(xml)| + 2) / 3)
    ensures forall i | 0 <= i < |r| :: Base64.IsOutputChar(r[i])
  {
    Base64.EncodeAlphabet(Utf8.Encode(xml));
    Base64.Encode(Utf8.Encode(xml))
  }

  /** Decoding the base 64 text and then the UTF-8 octets gives the document back. */
  lemma XmlToBase64RoundTrip(xml: string)
    ensures Base64.Decode(XmlToBase64(xml)) == Some(Utf8.Encode(xml))
    ensures Utf8.Decode(Utf8.Encode(xml)) == Some(xml)
  {
    Base64.RoundTrip(Utf8.Encode(xml));
    Utf8.RoundTrip(xml);
  }

  /** For an ASCII document every character is one octet, so the text grows by four thirds, rounded up. */
  lemma AsciiXmlLength(xml: string)
    requires forall i | 0 <= i < |xml| :: xml[i] as int < 0x80
    ensures |XmlToBase64(xml)| == 4 * ((|xml| + 2) / 3)
  {
    Utf8.AsciiLength(xml);
  }
}
