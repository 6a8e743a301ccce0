# xml_converter in Dafny

A model of the invoice exporter `xml_converter` and the properties proved about it. Given a
queue id and an annotation id, the exporter does the following:

1. logs in to Rossum;
2. downloads the queue's annotation export as XML;
3. keeps only the annotation whose `url` is `<account url>annotations/<id>`;
4. maps the annotation's datapoints to an `InvoiceRegisters` document;
5. base-64 encodes that document's UTF-8 octets;
6. creates a bin at a relay service and posts the document there;
7. answers with the bin's public url. If any step fails, it answers with the failure's text.

The modules follow the program's structure:

- `Xml`: the parsed element tree. It covers the ElementTree operations the code uses (`get`,
  `find`, `findall`, `iter`, `append`, `findtext` text) and the path steps of the two lookups.
- `Extract`: the two field extractors (`app/transform_xml.py` lines 10-38).
- `InvoiceMapper`:
  - the mapping table of ten header fields, the two dates with `T00:00:00` appended, and the
    recomputed total;
  - one line item per `tuple` of `line_items_section`;
  - `extract_invoice_data` and `extract_line_items` as methods proved against the mapping
    function `InvoiceOf`.
- `InvoiceXml`:
  - `add_sub_element` and the output tree;
  - `build_invoice_xml` as a method proved against `Serialize(InvoiceTree(inv))`;
  - ElementTree's serialisation: text escaping, and `<tag />` for an element with no text and no
    children;
  - a reader of the output schema, which serves as the partner of the builder.
- `Utf8`, `Base64`: `str.encode("utf-8")` and `base64.b64encode` (section 4 of RFC 4648), each
  with its decoder.
- `Transform`: `transform_invoice_xml` and `xml_to_base64`.
- `AnnotationFilter`: `filter_xml_by_annotation_id`. It is a method that builds the filtered
  tree step by step and is proved against the function `Filtered`. It covers every way the
  source can end:
  - one match gives the `export` tree;
  - no match gives the 404 listing the available ids;
  - several matches give the `TypeError` that the misspelt keyword `detail1` causes;
  - no `pagination` gives the `TypeError` of `append(None)`;
  - no `results`, or an unmatched annotation without a `url`, gives an `AttributeError` on
    `None`.
- `Credentials`: `load_app_credentials` and `load_rossum_credentials`, with the environment
  values as parameters. Also the derived account url and `POSTBIN_URL`.
- `Export`: `export_data` as a chain of `Result`s. The external services are parameters of a
  `Services` value. The outcome is the sequence of external calls made plus the reply.
- `Errors`, `Text`, `Wrappers`: the failures and their `str`, the string helpers of Python that
  are used, and `Option`/`Result`.

Where the code and its description disagree, the model follows the code:

- The section lookup's `findtext` takes the first datapoint of the combined stream over all
  matching sections, in document order. It does not take "the first section, then its
  datapoint": a first section that lacks the datapoint is skipped.
- The item extractor's default fallback `""` selects datapoints whose `schema_id` is the empty
  string. So a missing quantity, description or account is `None` only when no such datapoint
  exists.
- Several matching annotations do not give the 400 response the code seems to intend. The
  keyword `detail1` makes constructing the exception fail with a `TypeError`, and the model keeps
  that outcome.

## Model

| member | source | states |
|---|---|---|
| Xml.AppendChild | app/transform_xml.py:219 | `append` adds the child at the end and keeps the parent's tag, attributes, text and earlier children |
| Xml.Tagged | app/transform_xml.py:188 | `findall(tag)` on the children keeps exactly the children with that tag |
| Xml.TaggedAppend | app/transform_xml.py:188 | `findall` keeps document order and multiplicity: one more child adds itself at the end exactly when it has the tag |
| Xml.TaggedFirst | app/transform_xml.py:187 | the head of `findall(tag)` is the first child with that tag |
| Xml.WithSchemaIdFirst | app/transform_xml.py:13 | the head of the `tag[@schema_id=id]` matches is the first matching element |
| Xml.ChildStepMembers | app/transform_xml.py:110 | a path step `/tag` reaches exactly the children with that tag of the elements it starts from |
| Xml.FindChild | app/transform_xml.py:187 | `find(tag)` is present exactly when some child has the tag, and is then the first child with that tag |
| Xml.DescendantsAreBelow | app/transform_xml.py:28 | the `.//` walk visits exactly the elements strictly below the root |
| Extract.FindValueSpec | app/transform_xml.py:27-29 | the path lookup is absent exactly when no section/datapoint pair matches; otherwise it is the text (`""` for none) of the first matching datapoint child of the first section, in the `.//` walk, that has one |
| Extract.SectionDatapointsFirst | app/transform_xml.py:28-29 | the path's first match is the first matching child of the first section that has a matching child |
| Extract.SectionDatapointsMembers | app/transform_xml.py:28 | the path's matches are exactly the `datapoint[@schema_id=D]` children of `section[@schema_id=S]` elements |
| Extract.SectionValue | app/transform_xml.py:19-38 | `extract_value_from_section_and_datapoint`: the primary path lookup, then the fallback pair when the primary value is absent or empty and both fallback ids are given, then `""`; SectionValueRule, SectionValueSound and MissingFieldIsEmpty state what it returns |
| Extract.SectionValueRule | app/transform_xml.py:31-38 | a non-empty primary value wins; otherwise the fallback pair is used when both ids are given; otherwise the result is `""` |
| Extract.SectionValueSound | app/transform_xml.py:19-38 | a non-empty extracted value is the text of a datapoint under the primary pair or the given fallback pair |
| Extract.MissingFieldIsEmpty | app/transform_xml.py:38 | when neither pair locates a datapoint, the value is `""` |
| Extract.ItemLookupSpec | app/transform_xml.py:13 | `item.findtext` is absent exactly when no direct child is a matching datapoint, and is otherwise the text of the first such child |
| Extract.ItemValue | app/transform_xml.py:10-16 | `extract_value_from_datapoint`: the item's primary datapoint text if non-empty, else the fallback lookup; ItemValueRule and ItemLookupSpec state what it returns |
| Extract.ItemValueRule | app/transform_xml.py:10-16 | a truthy primary datapoint of the item wins; otherwise the value is exactly the fallback's lookup, possibly `None`; a present value is a direct child's text |
| InvoiceMapper.InvoiceOf | app/transform_xml.py:50-101 | the mapping of a document to its invoice, failing only on the recomputed total; DatesGetMidnight, TotalAmountRule, CurrencyPrimaryWins, HeaderFieldsSound and LineItemsFollowTuples state its fields |
| InvoiceMapper.ExtractInvoiceData | app/transform_xml.py:50-101 | the method returns the mapping `InvoiceOf`, including its failure |
| InvoiceMapper.LineItemTuplesMembers | app/transform_xml.py:109-111 | the path reaches exactly the `tuple` children of a `multivalue` child of a `line_items_section` section anywhere below the root |
| InvoiceMapper.ReadLineItems | app/transform_xml.py:112-120 | the loop appends one line item per tuple, in order, each read with the item extractor |
| InvoiceMapper.ExtractLineItems | app/transform_xml.py:104-121 | one line item per line-items tuple, in document order, each read with the item extractor |
| InvoiceMapper.DatesGetMidnight | app/transform_xml.py:86-87 | both dates are the extracted text followed by `T00:00:00`, also when the text is empty |
| InvoiceMapper.TotalAmountRule | app/transform_xml.py:89-97 | a direct total is kept; else base and tax both present give their sum, and the mapping fails exactly when the sum fails; else the total is `""` |
| InvoiceMapper.CurrencyPrimaryWins | app/transform_xml.py:70-72 | a currency in `amounts_section` is used without looking at `totals_section` |
| InvoiceMapper.HeaderFieldsSound | app/transform_xml.py:54-85 | every non-empty header value is the text of a datapoint at that field's place in the mapping table |
| InvoiceMapper.LineItemsFollowTuples | app/transform_xml.py:99 | the invoice's line items follow the tuples one for one; an item's amount comes from `item_total_base`, with `item_amount_total` as fallback |
| InvoiceXml.AddSubElement | app/transform_xml.py:41-47 | the new child is appended last, with that tag and text and no attributes or children; the parent is otherwise unchanged |
| InvoiceXml.DetailsOf | app/transform_xml.py:148-153 | one `Detail` per line item |
| InvoiceXml.Escape | app/transform_xml.py:156-158 | escaped text holds no `<` or `>` |
| InvoiceXml.EscapeRoundTrip | app/transform_xml.py:156-158 | unescaping escaped text gives the text back |
| InvoiceXml.InvoiceTree | app/transform_xml.py:129-153 | the output tree of an invoice; InvoiceTreeShape gives its layout, and InvoiceTreeRoundTrip and InvoiceTreeInjective show it loses nothing |
| InvoiceXml.Serialize | app/transform_xml.py:156-158 | `ET.tostring` of an attribute-free tree: start tag, escaped text, children, end tag, or `<tag />` for an empty element; Escape and EscapeRoundTrip state its text escaping |
| InvoiceXml.InvoiceTreeAttributeFree | app/transform_xml.py:129-153 | the output tree carries no attributes, so it serialises without them |
| InvoiceXml.BuildInvoiceXml | app/transform_xml.py:124-160 | the method returns the serialisation of the output tree of the invoice |
| InvoiceXml.DetailsRoundTrip | app/transform_xml.py:145-153 | reading the `Detail` elements back gives the line items |
| InvoiceXml.InvoiceTreeRoundTrip | app/transform_xml.py:129-153 | reading the output tree back under the output schema gives the invoice |
| InvoiceXml.InvoiceTreeInjective | app/transform_xml.py:129-153 | different invoices give different output trees |
| InvoiceXml.InvoiceTreeShape | app/transform_xml.py:129-153 | `InvoiceRegisters/Invoices/Payable` holds the ten header tags in order, then `Details` with one `Detail` per item, whose four children hold amount, account, quantity and description |
| Utf8.Encode | app/transform_xml.py:177 | the encoding takes between one and four octets per character |
| Utf8.RoundTrip | app/transform_xml.py:177 | decoding the UTF-8 octets of a string gives the string back |
| Utf8.AsciiLength | app/transform_xml.py:177 | an ASCII string encodes to one octet per character |
| Base64.CharOf | app/transform_xml.py:178 | each six-bit value has an alphabet character that stands for it |
| Base64.Encode | app/transform_xml.py:178 | the output has four characters per three octets, rounded up |
| Base64.EncodeAlphabet | app/transform_xml.py:178 | every output character is from the alphabet or `=` |
| Base64.GroupRoundTrip | app/transform_xml.py:178 | a full group of four characters decodes to its three octets |
| Base64.DecodeFirstGroup | app/transform_xml.py:178 | text that starts with a decodable group decodes to that group's octets followed by the decoding of the rest |
| Base64.RoundTrip | app/transform_xml.py:178 | decoding the encoding of any octet string gives it back |
| Transform.InvoiceXmlOf | app/transform_xml.py:163-173 | the transformation succeeds exactly when the mapping does, and fails with the mapping's error |
| Transform.TransformInvoiceXml | app/transform_xml.py:163-173 | the method composes the extraction and the builder into `InvoiceXmlOf` |
| Transform.TransformFailsOnlyOnSum | app/transform_xml.py:89-97 | the transformation fails exactly when the total must be recomputed and the sum of base and tax fails, and with that error |
| Transform.TransformCarriesInvoice | app/transform_xml.py:163-173 | a successful output is the serialisation of an attribute-free tree that reads back as the extracted invoice |
| Transform.XmlToBase64 | app/transform_xml.py:176-181 | the text's length is four thirds of the UTF-8 length, rounded up, and it uses only the base-64 alphabet and `=` |
| Transform.XmlToBase64RoundTrip | app/transform_xml.py:176-181 | base-64 decoding, then UTF-8 decoding, gives the document back |
| Transform.AsciiXmlLength | app/transform_xml.py:176-181 | for an ASCII document the encoded length is four thirds of the document's length, rounded up |
| AnnotationFilter.MatchingMembers | app/transform_xml.py:192-194 | the matches are exactly the annotations whose `url` is the target url |
| AnnotationFilter.MatchingAppend | app/transform_xml.py:192-194 | the comprehension keeps the annotations' order |
| AnnotationFilter.CollectMatches | app/transform_xml.py:192-194 | the loop collects exactly the matching annotations, in order |
| AnnotationFilter.Filtered | app/transform_xml.py:184-228 | the filter's result for every outcome; FilterSucceedsIff, FilterOutput, FilterNeedsOneMatch, NotFoundListsIds and NotFoundWithoutUrl state when each occurs and what it holds |
| AnnotationFilter.FilterXmlByAnnotationId | app/transform_xml.py:184-228 | the method builds the result of `Filtered`, for the success and for every failure |
| AnnotationFilter.UrlSegmentsSpec | app/transform_xml.py:201-203 | the id list exists exactly when every annotation has a url; it then holds each url's last path segment, in order; otherwise it is the `AttributeError` on `None` |
| AnnotationFilter.SingleMatchIff | app/transform_xml.py:196-206 | exactly one match means exactly one annotation position carries the url, and the match list is that annotation |
| AnnotationFilter.SelectOkIff | app/transform_xml.py:196-223 | after the match count is known, the filter succeeds exactly on one match and a present `pagination` |
| AnnotationFilter.FilterSucceedsIff | app/transform_xml.py:184-228 | the filter succeeds exactly when `results` exists, exactly one annotation carries the target url, and `pagination` exists |
| AnnotationFilter.FilterOutput | app/transform_xml.py:214-223 | on success, the output is `export` holding `results` with the one matching annotation, then the original `pagination` |
| AnnotationFilter.MatchNamesId | app/transform_xml.py:190 | the kept annotation's url ends in the requested id's decimal text, which parses back to the id |
| AnnotationFilter.SlashBeforeId | app/transform_xml.py:190 | the target url's last segment is the id's decimal text |
| AnnotationFilter.FilterNeedsOneMatch | app/transform_xml.py:196-212 | zero matches fail; two or more give the `detail1` `TypeError` |
| AnnotationFilter.NotFoundListsIds | app/transform_xml.py:197-204 | no match gives a 404 whose detail is the prefix plus the annotations' last url segments joined by `, `; an annotation with url `<base>annotations/k` is listed as `k` |
| AnnotationFilter.NotFoundWithoutUrl | app/transform_xml.py:202 | with no match, an annotation without a url turns the 404 into the `AttributeError` of `split` on `None` |
| Text.IntToString | app/transform_xml.py:190 | `str(n)` is non-empty, has no `/`, and starts with a digit exactly when `n` is not negative |
| Text.IntToStringRoundTrip | app/transform_xml.py:190 | the decimal text of an integer parses back to it |
| Text.Join | app/transform_xml.py:201 | `", ".join`: the parts with the separator between neighbours; NotFoundListsIds states the listing it builds |
| Text.LastSegment | app/transform_xml.py:202 | `split("/")[-1]`; LastSegmentSpec and LastSegmentAfterSlash state what it returns |
| Text.LastSegmentSpec | app/transform_xml.py:202 | `split("/")[-1]` is a slash-free suffix preceded by a slash, or the whole string |
| Text.LastSegmentAfterSlash | app/transform_xml.py:202 | the last segment of `p/q` is `q` when `q` has no slash |
| Text.ReplaceAll | app/main.py:64 | `str.replace` for a non-empty pattern, scanning left to right; ReplaceAllAbsent and ReplaceAllSkip state its behaviour, and PostbinPostUrl and PostbinPublicUrl its results on bin urls |
| Text.ReplaceAllAbsent | app/main.py:64 | `replace` leaves a string without the pattern unchanged |
| Text.ReplaceAllSkip | app/main.py:64 | `replace` keeps a prefix in which no occurrence starts |
| Errors.Describe | app/main.py:71-72 | `str(e)` of the caught exception: `<status>: <detail>` for an HTTP exception, the message otherwise; NotFoundListsIds and the Export failure lemmas state the replies built from it |
| Credentials.LoadAppCredentials | app/constants.py:11-16 | succeeds exactly when both variables are set and non-empty, returns them unchanged, and otherwise fails with the `ValueError` message |
| Credentials.LoadRossumCredentials | app/constants.py:19-33 | succeeds exactly when both variables are set and non-empty, keeps username and password, and otherwise fails with the `ValueError` message |
| Credentials.StripSpecial | app/constants.py:28-31 | deleting every special character from the username; StripSpecialRemovesAll, StripSpecialIsSubsequence, StripSpecialKeepsOthers and StripSpecialIdempotent state what it keeps |
| Credentials.StripSpecialRemovesAll | app/constants.py:28-31 | no special character is left after stripping |
| Credentials.StripSpecialIsSubsequence | app/constants.py:29-31 | the stripped name is obtained from the username by deleting characters |
| Credentials.StripSpecialKeepsOthers | app/constants.py:29-31 | every other character occurs as often as in the username |
| Credentials.StripSpecialIdempotent | app/constants.py:29-31 | stripping twice is stripping once |
| Credentials.RossumUrl | app/constants.py:32 | the account's API base url; RossumUrlShape states its form |
| Credentials.RossumUrlShape | app/constants.py:32 | the url is `https://`, the stripped username and `.rossum.app/api/v1/`; it ends in `/`; the host label has no `/ : @ .` |
| Export.ExportData | app/main.py:33-72 | `export_data` as the calls it makes and its reply; RunFollowsChain, SuccessIff and the failure lemmas below state both |
| Export.Document | app/main.py:47-52 | a failure of the filter is the failure of the document step |
| Export.DocumentOk | app/main.py:47-52 | the document step succeeds exactly when the filter and then the transformation succeed, and yields the transformed text |
| Export.RunFollowsChain | app/main.py:39-72 | for any document step, the calls made are login, fetch, create bin and post, in this order, each at most once |
| Export.CallsFollowChain | app/main.py:39-72 | the export's calls follow that order, and a success has made all four |
| Export.RunSuccessIff | app/main.py:39-69 | the reply is a success exactly when every step succeeds, and then it is the bin's public url |
| Export.SuccessIff | app/main.py:39-69 | the export succeeds exactly when login, fetch, filter, transformation, bin creation and post succeed, and then answers the public url |
| Export.RunStopsOnDocumentFailure | app/main.py:47-55 | a failing document step stops before any bin is created, and its error text is the reply |
| Export.NoBinWhenFilterFails | app/main.py:47-49 | a failing filter creates no bin and answers with the filter's error text |
| Export.LoginFailureStops | app/main.py:41 | a failed login is the only call, and its error text is the reply |
| Export.RunStopsOnFetchFailure | app/main.py:44 | for any document step, a failed fetch ends the calls after login and fetch, and its error text is the reply |
| Export.FetchFailureStops | app/main.py:44 | a failed fetch ends the export after login and fetch, answering with its error text |
| Export.RunStopsOnBinFailure | app/main.py:62 | for any document step, a failed bin creation is the last call, nothing is posted, and its error text is the reply |
| Export.BinFailureStops | app/main.py:62 | a failed bin creation ends the export before anything is posted, answering with its error text |
| Export.RunPostFailure | app/main.py:67 | for any document step, a failed post is the fourth and last call, sent to the bin's post url, and its error text is the reply |
| Export.PostFailureReply | app/main.py:67 | a post the export made that fails gives its error text as the reply |
| Export.RunBinNeedsDocument | app/main.py:41-62 | for any document step, a bin is created only after login, fetch and the document step have succeeded |
| Export.BinNeedsDocument | app/main.py:47-62 | a bin is created only after the annotation was found by the filter and transformed |
| Export.RunPosted | app/main.py:47-67 | a post happens only after every earlier step succeeded; its payload carries the annotation id and the document's base-64 text; it goes to the post url of the bin |
| Export.PostedPayload | app/main.py:47-67 | the posted content decodes, through base 64 and UTF-8, to the transformation of the filtered annotation |
| Export.HostHasNoPattern | app/constants.py:36 | no occurrence of `api/bin` starts within the relay's host name |
| Export.BinUrlParts | app/constants.py:36 | a bin url is the endpoint, `/`, and the bin id |
| Export.PostUrl | app/main.py:64 | `bin_url.replace("api/bin/", "")`; PostbinPostUrl states its result on a bin url |
| Export.PublicUrl | app/main.py:69 | `bin_url.replace("api/bin", "b")`; PostbinPublicUrl states its result on a bin url |
| Export.PostbinPostUrl | app/main.py:64 | for a bin url from the relay's endpoint, the post url is the host followed by the bin id |
| Export.SlashIdUnchanged | app/main.py:69 | `replace("api/bin", "b")` leaves `/<id>` unchanged when the id does not contain the pattern |
| Export.BinPathToPublic | app/main.py:69 | `replace("api/bin", "b")` turns `api/bin/<id>` into `b/<id>` |
| Export.PostbinPublicUrl | app/main.py:69 | for a bin url from the relay's endpoint, the public url is the host, `b/`, and the bin id |

## Left out

- XML text parsing (`ET.fromstring`) is not modelled. Every operation takes the parsed tree, and the export's fetch step returns one.
- The filter's output is passed to the transformation as a tree. Serialising it with `tostring` and parsing it again is taken as the identity.
- Tail text and namespaces are not modelled. The code never reads them.
- The output serialisation has no attributes. The builder never sets any, so the model does not serialise them.
- `ET.SubElement` attaches a child before its text is set, and the filter appends the matched annotation in place. The model builds the same final tree from values, so aliasing between the input and output trees is not captured.
- The float addition of the recomputed total (`str(float(base) + float(tax))`) is a parameter of the mapping. That includes decimal parsing, binary floating point and `repr` formatting. Its failure is the `ValueError` of `float`.
- `rossum_login`, `get_annotations`, `create_bin` and `post_json` (`app/requests/rossum.py`, `app/requests/postbin.py`) are parameters of `Export.Services`. The HTTP calls, their status checks and the JSON decoding are not part of this model. The model assumes a bin url has the form `POSTBIN_URL/<id>`.
- `authenticate` (`app/auth.py`) is not part of this model: the route's dependency runs before `export_data`.
- The usage endpoint `get_usage_form` (`app/main.py` lines 19-30) returns a constant. It is not modelled.
- `async`/`await` is not modelled, since the steps run one after another.
- `os.getenv` and `load_dotenv` are not modelled. The variables are parameters, `None` when unset. The module-level loading of both credential sets at import time is not modelled.
- Errors.Describe: the wording of the interpreter's error messages follows CPython 3.10 or later. Only their kind and the exception's `str` shape are part of the contracts.
- Utf8.Encode: Dafny's `char` excludes surrogate code points, so the `UnicodeEncodeError` for a lone surrogate cannot arise in the model.
