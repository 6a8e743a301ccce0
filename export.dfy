/**
 * `export_data`, the endpoint that exports one annotation of a Rossum queue
 * to a fresh relay bin: log in, fetch the queue export, keep the requested
 * annotation, transform it to the output invoice document, encode it, create
 * a bin and post the document there. Every failure on the way is caught and
 * answered as `{"success": False, "error": str(e)}`.
 *
 * The HTTP collaborators are parameters: each answers once, with a value or
 * with the exception it raises. The trace of the external calls made is part
 * of the outcome, so that what did not run can be stated.
 */
module Export {
  import opened Wrappers
  import opened Text
  import opened Xml
  import opened Errors
  import opened InvoiceMapper
  import opened AnnotationFilter
  import opened Transform
  import opened Credentials
  import Base64
  import Utf8

  /** The request headers the Rossum login yields. */
  type Headers = map<string, string>

  /** The JSON body posted to the bin: `{"annotationId": ..., "content": ...}`. */
  datatype Payload = Payload(annotationId: int, content: string)

  /** An external call, as the exporter makes it. */
  datatype Call =
    | Login
    | Fetch(queueId: int, headers: Headers)
    | CreateBin
    | Post(payload: Payload, url: string)

  /** The two shapes of the response body. */
  datatype Reply = Success(binUrl: string) | Failed(error: string)

  datatype Outcome = Outcome(calls: seq<Call>, reply: Reply)

  /**
   * The answers of the collaborators: `rossum_login`, `get_annotations`
   * (whose export text is taken as already parsed), `create_bin`,
   * `post_json`, and the float addition of the mapper.
   */
  datatype Services = Services(
    login: Result<Headers, Failure>,
    fetch: (int, Headers) -> Result<Element, Failure>,
    createBin: Result<string, Failure>,
    post: (Payload, string) -> Result<(), Failure>,
    sum: FloatSum)

  /** `bin_url.replace("api/bin/", "")`: where the document is posted. */
  function PostUrl(binUrl: string): string {
    ReplaceAll(binUrl, "api/bin/", "")
  }

  /** `bin_url.replace("api/bin", "b")`: where the bin is viewed. */
  function PublicUrl(binUrl: string): string {
    ReplaceAll(binUrl, "api/bin", "b")
  }

  /** The payload for the requested annotation and the transformed document. */
  function PayloadOf(annotationId: int, xml: string): Payload {
    Payload(annotationId, XmlToBase64(xml))
  }

  /** The local part of the export: keep the requested annotation, then transform it. */
  function Document(doc: Element, annotationId: int, baseUrl: string, sum: FloatSum): (r: Result<string, Failure>)
    ensures Filtered(doc, annotationId, baseUrl).Err? ==> r == Err(Filtered(doc, annotationId, baseUrl).error)
  {
    var annotation :- Filtered(doc, annotationId, baseUrl);
    InvoiceXmlOf(annotation, sum)
  }

  /**
   * The `try` block of `export_data` with the local document step as a
   * parameter: each external call is made once, in order, and the first
   * failure is answered with its `str`.
   */
  function Run(annotationId: int, queueId: int, s: Services, document: Element -> Result<string, Failure>): Outcome {
    if s.login.Err? then Outcome([Login], Failed(Describe(s.login.error)))
    else
      var headers := s.login.value;
      var fetched := s.fetch(queueId, headers);
      var read := [Login, Fetch(queueId, headers)];
      if fetched.Err? then Outcome(read, Failed(Describe(fetched.error)))
      else
        var xml := document(fetched.value);
        if xml.Err? then Outcome(read, Failed(Describe(xml.error)))
        else if s.createBin.Err? then Outcome(read + [CreateBin], Failed(Describe(s.createBin.error)))
        else
          var payload := PayloadOf(annotationId, xml.value);
          var postUrl := PostUrl(s.createBin.value);
          var posted := s.post(payload, postUrl);
          var calls := read + [CreateBin, Post(payload, postUrl)];
          if posted.Err? then Outcome(calls, Failed(Describe(posted.error)))
          else Outcome(calls, Success(PublicUrl(s.createBin.value)))
  }

  /** `export_data(annotation_id, queue_id)` for an account with base url `creds.url`. */
  function ExportData(annotationId: int, queueId: int, creds: RossumCredentials, s: Services): Outcome {
    Run(annotationId, queueId, s, doc => Document(doc, annotationId, creds.url, s.sum))
  }

  /** The external calls made are a prefix of login, fetch, create bin, post, each made at most once. */
  ghost predicate FollowsChain(calls: seq<Call>, queueId: int) {
    1 <= |calls| <= 4 && calls[0] == Login
    && (|calls| >= 2 ==> calls[1].Fetch? && calls[1].queueId == queueId)
    && (|calls| >= 3 ==> calls[2] == CreateBin)
    && (|calls| == 4 ==> calls[3].Post?)
  }

  lemma RunFollowsChain(annotationId: int, queueId: int, s: Services, document: Element -> Result<string, Failure>)
    ensures var o := Run(annotationId, queueId, s, document);
            FollowsChain(o.calls, queueId) && (o.reply.Success? ==> |o.calls| == 4)
  {
  }

  /** The steps run in their fixed order, and a success has made all four calls. */
  lemma CallsFollowChain(annotationId: int, queueId: int, creds: RossumCredentials, s: Services)
    ensures var o := ExportData(annotationId, queueId, creds, s);
            FollowsChain(o.calls, queueId) && (o.reply.Success? ==> |o.calls| == 4)
  {
    RunFollowsChain(annotationId, queueId, s, doc => Document(doc, annotationId, creds.url, s.sum));
  }

  lemma RunSuccessIff(annotationId: int, queueId: int, s: Services, document: Element -> Result<string, Failure>)
    ensures var o := Run(annotationId, queueId, s, document);
            (o.reply.Success? <==>
              s.login.Ok? && s.fetch(queueId, s.login.value).Ok?
              && document(s.fetch(queueId, s.login.value).value).Ok?
              && s.createBin.Ok?
              && s.post(PayloadOf(annotationId, document(s.fetch(queueId, s.login.value).value).value),
                        PostUrl(s.createBin.value)).Ok?)
            && (o.reply.Success? ==> o.reply.binUrl == PublicUrl(s.createBin.value))
  {
  }

  /**
   * The exporter succeeds exactly when every step does, and then answers
   * the bin's public url.
   */
  lemma SuccessIff(annotationId: int, queueId: int, creds: RossumCredentials, s: Services)
    ensures var o := ExportData(annotationId, queueId, creds, s);
            (o.reply.Success? <==>
              s.login.Ok? && s.fetch(queueId, s.login.value).Ok?
              && Document(s.fetch(queueId, s.login.value).value, annotationId, creds.url, s.sum).Ok?
              && s.createBin.Ok?
              && s.post(PayloadOf(annotationId, Document(s.fetch(queueId, s.login.value).value, annotationId, creds.url, s.sum).value),
                        PostUrl(s.createBin.value)).Ok?)
            && (o.reply.Success? ==> o.reply.binUrl == PublicUrl(s.createBin.value))
  {
    RunSuccessIff(annotationId, queueId, s, doc => Document(doc, annotationId, creds.url, s.sum));
  }

  /** The document step succeeds exactly when the annotation is selected and then transformed. */
  lemma DocumentOk(doc: Element, annotationId: int, baseUrl: string, sum: FloatSum)
    ensures var r := Document(doc, annotationId, baseUrl, sum);
            r.Ok? <==> Filtered(doc, annotationId, baseUrl).Ok? && InvoiceXmlOf(Filtered(doc, annotationId, baseUrl).value, sum).Ok?
    ensures var r := Document(doc, annotationId, baseUrl, sum);
            r.Ok? ==> r.value == InvoiceXmlOf(Filtered(doc, annotationId, baseUrl).value, sum).value
  {
  }

  lemma RunStopsOnDocumentFailure(annotationId: int, queueId: int, s: Services, document: Element -> Result<string, Failure>)
    requires s.login.Ok? && s.fetch(queueId, s.login.value).Ok?
    requires document(s.fetch(queueId, s.login.value).value).Err?
    ensures var o := Run(annotationId, queueId, s, document);
            o.calls == [Login, Fetch(queueId, s.login.value)]
            && o.reply == Failed(Describe(document(s.fetch(queueId, s.login.value).value).error))
  {
  }

  /**
   * When the annotation cannot be selected, no bin is created and nothing is
   * posted, and the reply is the filter's error as `str` prints it.
   */
  lemma NoBinWhenFilterFails(annotationId: int, queueId: int, creds: RossumCredentials, s: Services)
    requires s.login.Ok? && s.fetch(queueId, s.login.value).Ok?
    requires Filtered(s.fetch(queueId, s.login.value).value, annotationId, creds.url).Err?
    ensures var o := ExportData(annotationId, queueId, creds, s);
            o.calls == [Login, Fetch(queueId, s.login.value)]
            && o.reply == Failed(Describe(Filtered(s.fetch(queueId, s.login.value).value, annotationId, creds.url).error))
  {
    RunStopsOnDocumentFailure(annotationId, queueId, s, doc => Document(doc, annotationId, creds.url, s.sum));
  }

  /** A failed fetch ends the export after login and fetch; its error is the reply. */
  lemma RunStopsOnFetchFailure(annotationId: int, queueId: int, s: Services, document: Element -> Result<string, Failure>)
    requires s.login.Ok? && s.fetch(queueId, s.login.value).Err?
    ensures Run(annotationId, queueId, s, document)
            == Outcome([Login, Fetch(queueId, s.login.value)], Failed(Describe(s.fetch(queueId, s.login.value).error)))
  {
  }

  /** A failed bin creation ends the export before anything is posted; its error is the reply. */
  lemma RunStopsOnBinFailure(annotationId: int, queueId: int, s: Services, document: Element -> Result<string, Failure>)
    requires s.login.Ok? && s.fetch(queueId, s.login.value).Ok?
    requires document(s.fetch(queueId, s.login.value).value).Ok? && s.createBin.Err?
    ensures Run(annotationId, queueId, s, document)
            == Outcome([Login, Fetch(queueId, s.login.value), CreateBin], Failed(Describe(s.createBin.error)))
  {
  }

  /** A failed post is the last call; its error is the reply. */
  lemma RunPostFailure(annotationId: int, queueId: int, s: Services, document: Element -> Result<string, Failure>)
    requires s.login.Ok? && s.fetch(queueId, s.login.value).Ok?
    requires document(s.fetch(queueId, s.login.value).value).Ok? && s.createBin.Ok?
    requires s.post(PayloadOf(annotationId, document(s.fetch(queueId, s.login.value).value).value),
                    PostUrl(s.createBin.value)).Err?
    ensures var payload := PayloadOf(annotationId, document(s.fetch(queueId, s.login.value).value).value);
            var o := Run(annotationId, queueId, s, document);
            o.calls == [Login, Fetch(queueId, s.login.value), CreateBin, Post(payload, PostUrl(s.createBin.value))]
            && o.reply == Failed(Describe(s.post(payload, PostUrl(s.createBin.value)).error))
  {
  }

  /** A bin is created only after login, fetch and the document step have all succeeded. */
  lemma RunBinNeedsDocument(annotationId: int, queueId: int, s: Services, document: Element -> Result<string, Failure>)
    requires CreateBin in Run(annotationId, queueId, s, document).calls
    ensures s.login.Ok? && s.fetch(queueId, s.login.value).Ok? && document(s.fetch(queueId, s.login.value).value).Ok?
  {
  }

  /** A failed fetch ends the export after login and fetch, answering with the fetch's error. */
  lemma FetchFailureStops(annotationId: int, queueId: int, creds: RossumCredentials, s: Services)
    requires s.login.Ok? && s.fetch(queueId, s.login.value).Err?
    ensures ExportData(annotationId, queueId, creds, s)
            == Outcome([Login, Fetch(queueId, s.login.value)], Failed(Describe(s.fetch(queueId, s.login.value).error)))
  {
    RunStopsOnFetchFailure(annotationId, queueId, s, doc => Document(doc, annotationId, creds.url, s.sum));
  }

  /** A failed bin creation ends the export before anything is posted, answering with its error. */
  lemma BinFailureStops(annotationId: int, queueId: int, creds: RossumCredentials, s: Services)
    requires s.login.Ok? && s.fetch(queueId, s.login.value).Ok?
    requires Document(s.fetch(queueId, s.login.value).value, annotationId, creds.url, s.sum).Ok? && s.createBin.Err?
    ensures ExportData(annotationId, queueId, creds, s)
            == Outcome([Login, Fetch(queueId, s.login.value), CreateBin], Failed(Describe(s.createBin.error)))
  {
    RunStopsOnBinFailure(annotationId, queueId, s, doc => Document(doc, annotationId, creds.url, s.sum));
  }

  /** A failed post is answered with the post's error. */
  lemma PostFailureReply(annotationId: int, queueId: int, creds: RossumCredentials, s: Services, p: Payload, url: string)
    requires Post(p, url) in ExportData(annotationId, queueId, creds, s).calls
    requires s.post(p, url).Err?
    ensures ExportData(annotationId, queueId, creds, s).reply == Failed(Describe(s.post(p, url).error))
  {
    var document := doc => Document(doc, annotationId, creds.url, s.sum);
    RunPosted(annotationId, queueId, s, document, p, url);
    RunPostFailure(annotationId, queueId, s, document);
  }

  /** A bin is created only after the requested annotation was found and transformed. */
  lemma BinNeedsDocument(annotationId: int, queueId: int, creds: RossumCredentials, s: Services)
    requires CreateBin in ExportData(annotationId, queueId, creds, s).calls
    ensures s.login.Ok? && s.fetch(queueId, s.login.value).Ok?
    ensures var doc := s.fetch(queueId, s.login.value).value;
            Filtered(doc, annotationId, creds.url).Ok? && InvoiceXmlOf(Filtered(doc, annotationId, creds.url).value, s.sum).Ok?
  {
    RunBinNeedsDocument(annotationId, queueId, s, doc => Document(doc, annotationId, creds.url, s.sum));
    DocumentOk(s.fetch(queueId, s.login.value).value, annotationId, creds.url, s.sum);
  }

  /** A failed login is the only call made, and its error is the reply. */
  lemma LoginFailureStops(annotationId: int, queueId: int, creds: RossumCredentials, s: Services)
    requires s.login.Err?
    ensures ExportData(annotationId, queueId, creds, s) == Outcome([Login], Failed(Describe(s.login.error)))
  {
  }

  lemma RunPosted(annotationId: int, queueId: int, s: Services, document: Element -> Result<string, Failure>, p: Payload, url: string)
    requires Post(p, url) in Run(annotationId, queueId, s, document).calls
    ensures s.login.Ok? && s.fetch(queueId, s.login.value).Ok?
    ensures document(s.fetch(queueId, s.login.value).value).Ok? && s.createBin.Ok?
    ensures p == PayloadOf(annotationId, document(s.fetch(queueId, s.login.value).value).value)
    ensures url == PostUrl(s.createBin.value)
  {
  }

  /**
   * What is posted: the requested annotation id, and content that decodes,
   * as base 64 and then as UTF-8, to the document transformed from the
   * filtered export; it goes to the bin url with `api/bin/` removed.
   */
  lemma PostedPayload(annotationId: int, queueId: int, creds: RossumCredentials, s: Services, p: Payload, url: string)
    requires Post(p, url) in ExportData(annotationId, queueId, creds, s).calls
    ensures s.login.Ok? && s.fetch(queueId, s.login.value).Ok?
    ensures var doc := s.fetch(queueId, s.login.value).value;
            var filtered := Filtered(doc, annotationId, creds.url);
            filtered.Ok? && InvoiceXmlOf(filtered.value, s.sum).Ok?
            && p.annotationId == annotationId
            && Base64.Decode(p.content).Some?
            && Utf8.Decode(Base64.Decode(p.content).value) == Some(InvoiceXmlOf(filtered.value, s.sum).value)
            && s.createBin.Ok? && url == PostUrl(s.createBin.value)
  {
    RunPosted(annotationId, queueId, s, doc => Document(doc, annotationId, creds.url, s.sum), p, url);
    var doc := s.fetch(queueId, s.login.value).value;
    var xml := Document(doc, annotationId, creds.url, s.sum);
    DocumentOk(doc, annotationId, creds.url, s.sum);
    XmlToBase64RoundTrip(xml.value);
  }

  const PostbinHost: string := "https://www.postb.in/"

  /** No position of the relay's host name starts `api/bin`: it has no `a`. */
  lemma HostHasNoPattern(binUrl: string, pat: string)
    requires |binUrl| >= 21 && binUrl[..21] == PostbinHost
    requires pat != [] && pat[0] == 'a'
    ensures forall i | 0 <= i < 21 :: !StartsWith(binUrl[i..], pat)
  {
    forall i | 0 <= i < 21 ensures !StartsWith(binUrl[i..], pat) {
      assert binUrl[i] == PostbinHost[i];
      if |pat| <= |binUrl[i..]| {
        assert binUrl[i..][..|pat|][0] == binUrl[i];
      }
    }
  }

  /** The bin url the relay's answer is turned into: the endpoint, `/`, and the bin id. */
  lemma BinUrlParts(id: string)
    ensures var binUrl := PostbinUrl + "/" + id;
            |binUrl| >= 21 && binUrl[..21] == PostbinHost && binUrl[21..] == "api/bin/" + id
  {
    var binUrl := PostbinUrl + "/" + id;
    assert PostbinUrl + "/" == PostbinHost + "api/bin/";
    assert binUrl == PostbinHost + ("api/bin/" + id);
  }

  /**
   * For a bin the relay created, `https://www.postb.in/api/bin/<id>`, the
   * document is posted to `https://www.postb.in/<id>`, provided the id does
   * not itself contain `api/bin/`.
   */
  lemma PostbinPostUrl(id: string)
    requires !Contains(id, "api/bin/")
    ensures PostUrl(PostbinUrl + "/" + id) == PostbinHost + id
  {
    var binUrl := PostbinUrl + "/" + id;
    var pat := "api/bin/";
    BinUrlParts(id);
    HostHasNoPattern(binUrl, pat);
    ReplaceAllSkip(binUrl, 21, pat, "");
    assert PostUrl(binUrl) == PostbinHost + ReplaceAll(pat + id, pat, "");
    ReplaceAllFront(id, pat, "");
    ReplaceAllAbsent(id, pat, "");
    assert ReplaceAll(pat + id, pat, "") == id;
  }

  /** Replacing `api/bin` in `/<id>` leaves it as it is when the id does not contain the pattern. */
  lemma SlashIdUnchanged(id: string)
    requires !Contains(id, "api/bin")
    ensures ReplaceAll("/" + id, "api/bin", "b") == "/" + id
  {
    var pat := "api/bin";
    var rest := "/" + id;
    assert !StartsWith(rest[0..], pat) by {
      if |pat| <= |rest| {
        assert rest[0..][..|pat|][0] == '/';
      }
    }
    ReplaceAllSkip(rest, 1, pat, "b");
    assert rest[1..] == id && rest[..1] == "/";
    ReplaceAllAbsent(id, pat, "b");
  }

  /** The path part of a bin url, `api/bin/<id>`, becomes `b/<id>`. */
  lemma BinPathToPublic(id: string)
    requires !Contains(id, "api/bin")
    ensures ReplaceAll("api/bin/" + id, "api/bin", "b") == "b/" + id
  {
    assert "api/bin/" + id == "api/bin" + ("/" + id);
    ReplaceAllFront("/" + id, "api/bin", "b");
    SlashIdUnchanged(id);
    assert "b" + ("/" + id) == "b/" + id;
  }

  /**
   * The same bin is viewed at `https://www.postb.in/b/<id>`, provided the id
   * does not contain `api/bin`.
   */
  lemma PostbinPublicUrl(id: string)
    requires !Contains(id, "api/bin")
    ensures PublicUrl(PostbinUrl + "/" + id) == PostbinHost + "b/" + id
  {
    var binUrl := PostbinUrl + "/" + id;
    var pat := "api/bin";
    BinUrlParts(id);
    HostHasNoPattern(binUrl, pat);
    ReplaceAllSkip(binUrl, 21, pat, "b");
    BinPathToPublic(id);
    assert PublicUrl(binUrl) == PostbinHost + ("b/" + id);
  }
}
