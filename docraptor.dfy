/**
 * The `DocRaptor` client: its configuration, the form it posts for a
 * document request, the request URL, the PDF convenience overloads and the
 * reading of the service's response.
 */
module DocRaptorClient {
  import opened Wrappers
  import opened Runtime
  import opened Int32Parse
  import opened Responses

  /** The document formats the service renders (`DocRaptor.DocumentType`). */
  datatype DocumentType = Pdf | Xls | Xlsx

  /** `DocumentType.ToString()`: the name of the enum member. */
  function EnumName(t: DocumentType): string {
    match t
    case Pdf => "Pdf"
    case Xls => "Xls"
    case Xlsx => "Xlsx"
  }

  /**
   * `documentType.ToString().ToLower()`: the name of the enum member in lower
   * case, as the form carries it.
   */
  function TypeText(t: DocumentType): string {
    match t
    case Pdf => "pdf"
    case Xls => "xls"
    case Xlsx => "xlsx"
  }

  /** `b.ToString().ToLower()`: a flag as the form carries it. */
  function BoolText(b: bool): string {
    if b then "true" else "false"
  }

  /** The form texts are the lower-cased .NET names of the enum member and of the flag. */
  lemma {:induction false} TextsAreLowerNames(t: DocumentType, b: bool)
    ensures TypeText(t) == ToLower(EnumName(t))
    ensures BoolText(b) == ToLower(BoolToString(b))
  {
    var name, flag := EnumName(t), BoolToString(b);
    forall i | 0 <= i < |name| ensures ToLower(name)[i] == TypeText(t)[i] {
      ToLowerAt(name, i);
    }
    forall i | 0 <= i < |flag| ensures ToLower(flag)[i] == BoolText(b)[i] {
      ToLowerAt(flag, i);
    }
  }

  /** The configuration a client is built with; it never changes afterwards. */
  datatype Client = Client(
    apiKey: Option<string>,
    endpoint: string,
    tag: Option<string>,
    testMode: bool)

  /** The service path that follows the scheme in the endpoint URL. */
  const ServiceAddress := "://docraptor.com/docs"

  /**
   * The endpoint as line 20 of DocRaptor.cs computes it: the conditional
   * operator binds more loosely than `+`, so the address is only appended in
   * the insecure case.
   */
  function EndpointAsWritten(useSsl: bool): string {
    if useSsl then "https" else "http" + ServiceAddress
  }

  /** The endpoint the constructor evidently means: the scheme, then the service address. */
  function Endpoint(useSsl: bool): string {
    (if useSsl then "https" else "http") + ServiceAddress
  }

  /** The query string that carries the credentials. */
  const CredentialsQuery := "?user_credentials="

  /**
   * As written, the endpoint with SSL requested is the bare word "https",
   * which is no absolute URI: it holds no "://", let alone the service
   * address. Without SSL it is the intended address, and absolute.
   */
  lemma SslEndpointAsWritten()
    ensures EndpointAsWritten(true) == "https"
    ensures !IsAbsoluteUri(EndpointAsWritten(true))
    ensures EndpointAsWritten(false) == Endpoint(false) == "http://docraptor.com/docs"
    ensures IsAbsoluteUri(EndpointAsWritten(false))
  {
    var e := EndpointAsWritten(true);
    forall i | 0 < i <= |e| - 3
      ensures !SchemeEndsAt(e, i)
    {
      assert e[i..i + 3][0] == e[i] != ':';
    }
    assert SchemeEndsAt(EndpointAsWritten(false), 4);
  }

  /**
   * The corrected endpoint is the service address under the scheme the flag
   * selects, "https" with SSL and "http" without, and an absolute URI.
   */
  lemma EndpointNamesService(useSsl: bool)
    ensures var e := Endpoint(useSsl);
      && |e| > |ServiceAddress|
      && e[|e| - |ServiceAddress|..] == ServiceAddress
      && e[..|e| - |ServiceAddress|] == (if useSsl then "https" else "http")
      && IsAbsoluteUri(e)
  {
    assert SchemeEndsAt(Endpoint(useSsl), if useSsl then 5 else 4);
  }

  /**
   * The `DocRaptor` constructor as written: it stores the key, tag and test
   * mode and hands the endpoint of line 20 to `new Uri`, which throws when
   * that is no absolute URI.
   */
  function NewClientAsWritten(apiKey: Option<string>, useSsl: bool, testMode: bool, tag: Option<string>): Result<Client, Exception> {
    var endpoint := EndpointAsWritten(useSsl);
    if IsAbsoluteUri(endpoint) then Ok(Client(apiKey, endpoint, tag, testMode)) else Err(UriFormatException)
  }

  /**
   * The `DocRaptor` constructor with the endpoint corrected: it never throws,
   * keeps the key, tag and test mode, and its endpoint is an absolute URI.
   * Without SSL it builds the very client the constructor as written does.
   */
  function NewClient(apiKey: Option<string>, useSsl: bool, testMode: bool, tag: Option<string>): (r: Client)
    ensures r.apiKey == apiKey && r.tag == tag && r.testMode == testMode
    ensures IsAbsoluteUri(r.endpoint)
    ensures !useSsl ==> NewClientAsWritten(apiKey, useSsl, testMode, tag) == Ok(r)
  {
    EndpointNamesService(useSsl);
    SslEndpointAsWritten();
    Client(apiKey, Endpoint(useSsl), tag, testMode)
  }

  /**
   * As written, asking for SSL makes the constructor throw
   * `UriFormatException`, so no client, and no request, exists with SSL.
   */
  lemma NewClientAsWrittenThrows(apiKey: Option<string>, useSsl: bool, testMode: bool, tag: Option<string>)
    ensures NewClientAsWritten(apiKey, useSsl, testMode, tag).Err? <==> useSsl
    ensures useSsl ==> NewClientAsWritten(apiKey, useSsl, testMode, tag) == Err(UriFormatException)
  {
    SslEndpointAsWritten();
  }

  /**
   * The URL the form is posted to: the endpoint, then the credentials as query
   * string; a null key reads as empty, as C# string concatenation has it.
   */
  function RequestUrl(c: Client): string {
    c.endpoint + CredentialsQuery + c.apiKey.GetOr("")
  }

  /** The request URL of a client is fixed by the SSL flag and the key alone. */
  lemma RequestUrlOfNewClient(apiKey: Option<string>, useSsl: bool, testMode: bool, tag: Option<string>)
    ensures RequestUrl(NewClient(apiKey, useSsl, testMode, tag))
      == (if useSsl then "https" else "http") + "://docraptor.com/docs?user_credentials=" + apiKey.GetOr("")
    ensures apiKey.None? ==> RequestUrl(NewClient(apiKey, useSsl, testMode, tag)) == Endpoint(useSsl) + CredentialsQuery
  {
  }

  /** The arguments of `CreateDocumentAsync`; `None` stands for `null`. */
  datatype DocumentParams = DocumentParams(
    url: Option<string>,
    content: Option<string>,
    name: Option<string>,
    tag: Option<string>,
    documentType: DocumentType,
    princeVersion: Option<string>,
    strict: bool,
    javascript: bool,
    test: bool,
    help: bool)

  /** The default document name of every request operation. */
  const DefaultName: Option<string> := Some("Untitled")
  /** The default Prince version of every request operation. */
  const DefaultPrinceVersion: Option<string> := Some("9.0")

  /**
   * The arguments of `CreateDocumentAsync` called with none given: no url, no
   * content and no tag, a PDF named "Untitled" for Prince 9.0, and every flag
   * off. The test flag is off too, whatever the client's test mode.
   */
  const DefaultParams := DocumentParams(None, None, DefaultName, None, Pdf, DefaultPrinceVersion, false, false, false, false)

  /** The fields a request form can carry. */
  datatype Key =
    | DocumentTypeKey | TestKey | TagKey | StrictKey
    | UrlKey | ContentKey | NameKey | HelpKey | VersionKey | JavascriptKey

  /** The name a field is posted under. */
  function Name(k: Key): string {
    match k
    case DocumentTypeKey => "doc[document_type]"
    case TestKey => "doc[test]"
    case TagKey => "doc[tag]"
    case StrictKey => "doc[strict]"
    case UrlKey => "doc[document_url]"
    case ContentKey => "doc[document_content]"
    case NameKey => "doc[name]"
    case HelpKey => "doc[help]"
    case VersionKey => "doc[prince_options][version]"
    case JavascriptKey => "doc[javascript]"
  }

  /** No two fields are posted under the same name. */
  lemma NamesDistinct(a: Key, b: Key)
    requires Name(a) == Name(b)
    ensures a == b
  {
  }

  /** The form of a request: a value per field, where a value may be `null`. */
  type Form = map<Key, Option<string>>

  /** The fields of the initializer, present in every form. */
  const BaseKeys: set<Key> := {DocumentTypeKey, TestKey, TagKey, StrictKey}

  /** The document source: the url when there is one, otherwise the content. */
  function SourceKeys(p: DocumentParams): set<Key> {
    if p.url.Some? then {UrlKey} else {ContentKey}
  }

  /** The name, unless it is null or empty. */
  function NameKeys(p: DocumentParams): set<Key> {
    if !IsNullOrEmpty(p.name) then {NameKey} else {}
  }

  /** The help flag, only when it is set. */
  function HelpKeys(p: DocumentParams): set<Key> {
    if p.help then {HelpKey} else {}
  }

  /** The Prince version and the JavaScript flag, only for PDF documents. */
  function PdfKeys(p: DocumentParams): set<Key> {
    if p.documentType == Pdf then {VersionKey, JavascriptKey} else {}
  }

  /** Which fields the form carries for `p`, rule by rule. */
  function FormKeys(p: DocumentParams): set<Key> {
    BaseKeys + SourceKeys(p) + NameKeys(p) + HelpKeys(p) + PdfKeys(p)
  }

  /** The value a field of the form carries for `p`. */
  function FieldValue(p: DocumentParams, k: Key): Option<string> {
    match k
    case DocumentTypeKey => Some(TypeText(p.documentType))
    case TestKey => Some(BoolText(p.test))
    case TagKey => p.tag
    case StrictKey => Some(if p.strict then "html" else "none")
    case UrlKey => p.url
    case ContentKey => p.content
    case NameKey => p.name
    case HelpKey => Some("true")
    case VersionKey => p.princeVersion
    case JavascriptKey => Some(BoolText(p.javascript))
  }

  /** The form `CreateDocumentAsync` posts for `p`: the fields the rules admit, with their values. */
  function FormOf(p: DocumentParams): Form {
    map k | k in FormKeys(p) :: FieldValue(p, k)
  }

  /**
   * A form that carries each field exactly when the rules admit it, with the
   * value the rules give it, is `FormOf(p)`.
   */
  lemma FormFromFields(p: DocumentParams, form: Form)
    requires DocumentTypeKey in form && form[DocumentTypeKey] == Some(TypeText(p.documentType))
    requires TestKey in form && form[TestKey] == Some(BoolText(p.test))
    requires TagKey in form && form[TagKey] == p.tag
    requires StrictKey in form && form[StrictKey] == Some(if p.strict then "html" else "none")
    requires (UrlKey in form) == p.url.Some? && (UrlKey in form ==> form[UrlKey] == p.url)
    requires (ContentKey in form) == p.url.None? && (ContentKey in form ==> form[ContentKey] == p.content)
    requires (NameKey in form) == !IsNullOrEmpty(p.name) && (NameKey in form ==> form[NameKey] == p.name)
    requires (HelpKey in form) == p.help && (HelpKey in form ==> form[HelpKey] == Some("true"))
    requires (VersionKey in form) == (p.documentType == Pdf) && (VersionKey in form ==> form[VersionKey] == p.princeVersion)
    requires (JavascriptKey in form) == (p.documentType == Pdf) && (JavascriptKey in form ==> form[JavascriptKey] == Some(BoolText(p.javascript)))
    ensures form == FormOf(p)
  {
    forall k
      ensures (k in form) == (k in FormKeys(p))
      ensures k in form ==> form[k] == FieldValue(p, k)
    {
      match k
      case DocumentTypeKey =>
      case TestKey =>
      case TagKey =>
      case StrictKey =>
      case UrlKey =>
      case ContentKey =>
      case NameKey =>
      case HelpKey =>
      case VersionKey =>
      case JavascriptKey =>
    }
  }

  /**
   * The form building of `CreateDocumentAsync`: the four fields of the
   * initializer, then one `Add` per rule that applies. `Dictionary.Add`
   * throws on a key already present; the assertions show that no `Add` meets
   * one, so none throws.
   */
  method BuildForm(p: DocumentParams) returns (form: Form)
    ensures form == FormOf(p)
  {
    form := map[];
    form := form[DocumentTypeKey := Some(TypeText(p.documentType))];
    form := form[TestKey := Some(BoolText(p.test))];
    form := form[TagKey := p.tag];
    form := form[StrictKey := Some(if p.strict then "html" else "none")];

    if p.url.Some? {
      assert UrlKey !in form;
      form := form[UrlKey := p.url];
    } else {
      assert ContentKey !in form;
      form := form[ContentKey := p.content];
    }

    if !IsNullOrEmpty(p.name) {
      assert NameKey !in form;
      form := form[NameKey := p.name];
    }

    if p.help {
      assert HelpKey !in form;
      form := form[HelpKey := Some("true")];
    }

    if p.documentType == Pdf {
      assert VersionKey !in form;
      form := form[VersionKey := p.princeVersion];
      assert JavascriptKey !in form;
      form := form[JavascriptKey := Some(BoolText(p.javascript))];
    }
    FormFromFields(p, form);
  }

  // Properties of the form

  /** The four fields of the initializer are always there, with the .NET texts lower-cased. */
  lemma FixedFields(p: DocumentParams)
    ensures DocumentTypeKey in FormOf(p) && FormOf(p)[DocumentTypeKey] == Some(ToLower(EnumName(p.documentType)))
    ensures FormOf(p)[DocumentTypeKey] in {Some("pdf"), Some("xls"), Some("xlsx")}
    ensures TestKey in FormOf(p) && FormOf(p)[TestKey] == Some(ToLower(BoolToString(p.test)))
    ensures FormOf(p)[TestKey] == Some(if p.test then "true" else "false")
    ensures TagKey in FormOf(p) && FormOf(p)[TagKey] == p.tag
    ensures StrictKey in FormOf(p) && FormOf(p)[StrictKey] == Some(if p.strict then "html" else "none")
  {
    TextsAreLowerNames(p.documentType, p.test);
  }

  /**
   * Exactly one source field: the url when there is one (even when content is
   * given too), otherwise the content, even when that is null.
   */
  lemma SourceField(p: DocumentParams)
    ensures (UrlKey in FormOf(p)) == p.url.Some?
    ensures (ContentKey in FormOf(p)) == p.url.None?
    ensures p.url.Some? ==> FormOf(p)[UrlKey] == p.url
    ensures p.url.None? ==> FormOf(p)[ContentKey] == p.content
  {
  }

  /** The name is sent exactly when it is neither null nor empty, and then as given. */
  lemma NameField(p: DocumentParams)
    ensures (NameKey in FormOf(p)) == (p.name.Some? && p.name.value != "")
    ensures NameKey in FormOf(p) ==> FormOf(p)[NameKey] == p.name
  {
  }

  /** Help is sent exactly when it is asked for, and then always as "true"; "false" is never sent. */
  lemma HelpField(p: DocumentParams)
    ensures (HelpKey in FormOf(p)) == p.help
    ensures HelpKey in FormOf(p) ==> FormOf(p)[HelpKey] == Some("true")
  {
  }

  /** The Prince version and the JavaScript flag are sent for PDF documents only. */
  lemma PdfFields(p: DocumentParams)
    ensures (VersionKey in FormOf(p)) == (p.documentType == Pdf)
    ensures (JavascriptKey in FormOf(p)) == (p.documentType == Pdf)
    ensures p.documentType == Pdf ==> FormOf(p)[VersionKey] == p.princeVersion
    ensures p.documentType == Pdf ==> FormOf(p)[JavascriptKey] == Some(ToLower(BoolToString(p.javascript)))
  {
    TextsAreLowerNames(p.documentType, p.javascript);
  }

  // The PDF convenience overloads

  /**
   * `CreatePdfDocumentAsync(Uri url, ...)`: a null url throws
   * `ArgumentNullException`; otherwise the arguments it hands to
   * `CreateDocumentAsync`: a PDF from the url, no content, and the client's
   * tag and test mode.
   */
  function PdfFromUrl(
    c: Client, url: Option<string>, name: Option<string>, princeVersion: Option<string>,
    strict: bool, javascript: bool, help: bool): (r: Result<DocumentParams, Exception>)
    ensures url.None? <==> r.Err?
    ensures r.Err? ==> r.error == ArgumentNullException("url")
    ensures r.Ok? ==> r.value.url == url && r.value.content.None? && r.value.documentType == Pdf
    ensures r.Ok? ==> r.value.tag == c.tag && r.value.test == c.testMode
    ensures r.Ok? ==> r.value.name == name && r.value.princeVersion == princeVersion
    ensures r.Ok? ==> r.value.strict == strict && r.value.javascript == javascript && r.value.help == help
  {
    if url.None? then Err(ArgumentNullException("url"))
    else Ok(DocumentParams(url, None, name, c.tag, Pdf, princeVersion, strict, javascript, c.testMode, help))
  }

  /**
   * `CreatePdfDocumentAsync(string content, ...)`: a null content throws
   * `ArgumentNullException`; otherwise the arguments it hands to
   * `CreateDocumentAsync`: a PDF from the content, no url, and the client's
   * tag and test mode.
   */
  function PdfFromContent(
    c: Client, content: Option<string>, name: Option<string>, princeVersion: Option<string>,
    strict: bool, javascript: bool, help: bool): (r: Result<DocumentParams, Exception>)
    ensures content.None? <==> r.Err?
    ensures r.Err? ==> r.error == ArgumentNullException("content")
    ensures r.Ok? ==> r.value.url.None? && r.value.content == content && r.value.documentType == Pdf
    ensures r.Ok? ==> r.value.tag == c.tag && r.value.test == c.testMode
    ensures r.Ok? ==> r.value.name == name && r.value.princeVersion == princeVersion
    ensures r.Ok? ==> r.value.strict == strict && r.value.javascript == javascript && r.value.help == help
  {
    if content.None? then Err(ArgumentNullException("content"))
    else Ok(DocumentParams(None, content, name, c.tag, Pdf, princeVersion, strict, javascript, c.testMode, help))
  }

  /**
   * The form of a PDF from a url: the url and no content, the PDF type, the
   * Prince version and JavaScript fields, and the client's tag and test mode.
   */
  lemma PdfFromUrlForm(
    c: Client, url: string, name: Option<string>, princeVersion: Option<string>,
    strict: bool, javascript: bool, help: bool)
    ensures var f := FormOf(PdfFromUrl(c, Some(url), name, princeVersion, strict, javascript, help).value);
      && f[UrlKey] == Some(url) && ContentKey !in f
      && f[DocumentTypeKey] == Some("pdf")
      && f[VersionKey] == princeVersion && f[JavascriptKey] == Some(BoolText(javascript))
      && f[TagKey] == c.tag && f[TestKey] == Some(BoolText(c.testMode))
  {
    var p := PdfFromUrl(c, Some(url), name, princeVersion, strict, javascript, help).value;
    SourceField(p);
    PdfFields(p);
  }

  /**
   * A PDF from content with the default arguments: the form carries the PDF
   * type, the content, the name "Untitled", strict mode "none", JavaScript
   * "false", the client's test mode, no url and no help field.
   */
  lemma PdfFromContentDefaultsForm(c: Client, content: string)
    ensures var f := FormOf(PdfFromContent(c, Some(content), DefaultName, DefaultPrinceVersion, false, false, false).value);
      && f[DocumentTypeKey] == Some("pdf")
      && f[ContentKey] == Some(content) && UrlKey !in f
      && f[NameKey] == Some("Untitled")
      && f[StrictKey] == Some("none")
      && f[JavascriptKey] == Some("false")
      && f[VersionKey] == Some("9.0")
      && f[TestKey] == Some(if c.testMode then "true" else "false")
      && f[TagKey] == c.tag
      && HelpKey !in f
  {
    var p := PdfFromContent(c, Some(content), DefaultName, DefaultPrinceVersion, false, false, false).value;
    SourceField(p);
    NameField(p);
    HelpField(p);
    PdfFields(p);
  }

  /**
   * A call with every argument left at its default posts a PDF with a null
   * content field, named "Untitled", for Prince 9.0, not in test mode, with a
   * null tag, strict "none" and JavaScript "false", and no url or help.
   */
  lemma DefaultParamsForm()
    ensures var f := FormOf(DefaultParams);
      && f[DocumentTypeKey] == Some("pdf")
      && UrlKey !in f && ContentKey in f && f[ContentKey] == None
      && f[NameKey] == Some("Untitled")
      && f[TestKey] == Some("false")
      && f[TagKey] == None
      && f[StrictKey] == Some("none")
      && f[VersionKey] == Some("9.0")
      && f[JavascriptKey] == Some("false")
      && HelpKey !in f
  {
    SourceField(DefaultParams);
    NameField(DefaultParams);
    HelpField(DefaultParams);
    PdfFields(DefaultParams);
  }

  // Reading the response

  /** The name of the header that carries the page count. */
  const NumPagesHeader := "X-DocRaptor-Num-Pages"

  /**
   * The page count `CreateResponse` reads: 0 without the header, otherwise
   * `int.Parse` of its first value, which throws on a malformed one.
   */
  function PageCount(m: HttpResponseMessage): Result<int, Exception> {
    match m.numPagesHeader
    case None => Ok(0)
    case Some(value) => ParseInt32(value)
  }

  /**
   * The page count of a response: 0 without the header; the number itself
   * when the header carries a 32-bit number as .NET prints it; and an
   * exception, never a count, when the value is malformed or too large.
   */
  lemma PageCountCases(m: HttpResponseMessage, n: int)
    ensures m.numPagesHeader.None? ==> PageCount(m) == Ok(0)
    ensures MinInt32 <= n <= MaxInt32 && m.numPagesHeader == Some(FormatInt32(n)) ==> PageCount(m) == Ok(n)
    ensures m.numPagesHeader == Some("") ==> PageCount(m) == Err(FormatException)
    ensures m.numPagesHeader.Some? && PageCount(m).Err? ==> PageCount(m).error in {FormatException, OverflowException}
    ensures m.numPagesHeader.Some? && NoDigits(m.numPagesHeader.value) ==> PageCount(m) == Err(FormatException)
    ensures m.numPagesHeader.Some? ==> var v := m.numPagesHeader.value;
      AllDigits(v) && v != [] && DigitsValue(v) > MaxInt32 ==> PageCount(m) == Err(OverflowException)
  {
    if m.numPagesHeader.Some? && NoDigits(m.numPagesHeader.value) {
      ParseRejectsWithoutDigits(m.numPagesHeader.value);
    }
    if MinInt32 <= n <= MaxInt32 {
      ParseFormatRoundTrip(n);
    }
  }

  /**
   * `CreateResponse`: reads the page count, then wraps the message and sets
   * the count. A malformed header makes it throw; otherwise the wrapper holds
   * the message, the count, and the success and reason phrase of the message.
   */
  method CreateResponse(message: HttpResponseMessage) returns (outcome: Result<DocRaptorResponse, Exception>)
    ensures outcome.Err? <==> PageCount(message).Err?
    ensures outcome.Err? ==> outcome.error == PageCount(message).error
    ensures outcome.Ok? ==> fresh(outcome.value)
    ensures outcome.Ok? ==> outcome.value.response == message && outcome.value.numberOfPages == PageCount(message).value
    ensures outcome.Ok? ==> outcome.value.Success() == message.IsSuccessStatusCode()
    ensures outcome.Ok? ==> outcome.value.ReasonPhrase() == message.reasonPhrase
  {
    var numPagesHeader := 0;
    if message.numPagesHeader.Some? {
      var parsed := ParseInt32(message.numPagesHeader.value);
      if parsed.Err? {
        return Err(parsed.error);
      }
      numPagesHeader := parsed.value;
    }
    var response := new DocRaptorResponse(message);
    response.SetNumberOfPages(numPagesHeader);
    return Ok(response);
  }

  // Issuing a request

  /** A POST request: its URL and its form body. */
  datatype PostRequest = PostRequest(url: string, form: Form)

  /**
   * `CreateDocumentAsync`: builds the form, posts it to the request URL, and
   * reads the reply. The transport is left out: `reply` is whatever the
   * service answers to `request`.
   */
  method CreateDocument(c: Client, p: DocumentParams, reply: HttpResponseMessage)
    returns (request: PostRequest, outcome: Result<DocRaptorResponse, Exception>)
    ensures request.url == RequestUrl(c) && request.form == FormOf(p)
    ensures outcome.Err? <==> PageCount(reply).Err?
    ensures outcome.Err? ==> outcome.error == PageCount(reply).error
    ensures outcome.Ok? ==> fresh(outcome.value)
    ensures outcome.Ok? ==> outcome.value.response == reply && outcome.value.numberOfPages == PageCount(reply).value
  {
    var form := BuildForm(p);
    request := PostRequest(RequestUrl(c), form);
    outcome := CreateResponse(reply);
  }

  /**
   * `CreatePdfDocumentAsync(Uri url, ...)`: a null url throws before any
   * request is built; otherwise the request of `CreateDocumentAsync` for
   * `PdfFromUrl`.
   */
  method CreatePdfDocumentFromUrl(
    c: Client, url: Option<string>, name: Option<string>, princeVersion: Option<string>,
    strict: bool, javascript: bool, help: bool, reply: HttpResponseMessage)
    returns (request: Option<PostRequest>, outcome: Result<DocRaptorResponse, Exception>)
    ensures url.None? ==> request.None? && outcome == Err(ArgumentNullException("url"))
    ensures url.Some? ==> request == Some(PostRequest(RequestUrl(c),
      FormOf(PdfFromUrl(c, url, name, princeVersion, strict, javascript, help).value)))
    ensures url.Some? ==> (outcome.Err? <==> PageCount(reply).Err?)
    ensures url.Some? && outcome.Err? ==> outcome.error == PageCount(reply).error
    ensures outcome.Ok? ==> fresh(outcome.value) && outcome.value.response == reply
    ensures outcome.Ok? ==> outcome.value.numberOfPages == PageCount(reply).value
  {
    var args := PdfFromUrl(c, url, name, princeVersion, strict, javascript, help);
    if args.Err? {
      return None, Err(args.error);
    }
    var sent;
    sent, outcome := CreateDocument(c, args.value, reply);
    request := Some(sent);
  }

  /**
   * `CreatePdfDocumentAsync(string content, ...)`: a null content throws
   * before any request is built; otherwise the request of
   * `CreateDocumentAsync` for `PdfFromContent`.
   */
  method CreatePdfDocumentFromContent(
    c: Client, content: Option<string>, name: Option<string>, princeVersion: Option<string>,
    strict: bool, javascript: bool, help: bool, reply: HttpResponseMessage)
    returns (request: Option<PostRequest>, outcome: Result<DocRaptorResponse, Exception>)
    ensures content.None? ==> request.None? && outcome == Err(ArgumentNullException("content"))
    ensures content.Some? ==> request == Some(PostRequest(RequestUrl(c),
      FormOf(PdfFromContent(c, content, name, princeVersion, strict, javascript, help).value)))
    ensures content.Some? ==> (outcome.Err? <==> PageCount(reply).Err?)
    ensures content.Some? && outcome.Err? ==> outcome.error == PageCount(reply).error
    ensures outcome.Ok? ==> fresh(outcome.value) && outcome.value.response == reply
    ensures outcome.Ok? ==> outcome.value.numberOfPages == PageCount(reply).value
  {
    var args := PdfFromContent(c, content, name, princeVersion, strict, javascript, help);
    if args.Err? {
      return None, Err(args.error);
    }
    var sent;
    sent, outcome := CreateDocument(c, args.value, reply);
    request := Some(sent);
  }
}
