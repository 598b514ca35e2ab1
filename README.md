# NDocRaptor client, modelled in Dafny

NDocRaptor is a thin C# client for the DocRaptor document service. A
`DocRaptor` object holds an API key, an endpoint, a default tag and a test-mode
flag. `CreateDocumentAsync` turns its arguments into a dictionary of form
fields (`doc[document_type]`, `doc[test]`, `doc[tag]`, `doc[strict]`, the
document source, and the name, help, Prince-version and JavaScript fields when
their rules apply), posts it to `<endpoint>?user_credentials=<key>`, and wraps
the reply in a `DocRaptorResponse`. That wrapper derives `Success` from the
status code, passes the reason phrase through, and carries the page count read
from the `X-DocRaptor-Num-Pages` header. Two `CreatePdfDocumentAsync`
overloads reject a null url or content and then delegate with the PDF type
and the client's tag and test mode.

The model has five modules:

- `Wrappers` (`wrappers.dfy`): `Option`, which stands for a C# reference that may be `null`, and `Result`, which stands for a call that may throw.
- `Runtime` (`runtime.dfy`): the .NET pieces the client uses. These are the exceptions it raises, `bool.ToString()`, `string.ToLower()`, `string.IsNullOrEmpty`, `new Uri(string)` reduced to its absolute-URI check (`IsAbsoluteUri`), and the parts of `HttpResponseMessage` it reads.
- `Int32Parse` (`int32_parse.dfy`): `int.Parse` and `int.ToString()` for 32-bit values, with their round trip.
- `Responses` (`docraptor_response.dfy`): the `DocRaptorResponse` class. Its `response` never changes after construction, and its `numberOfPages` is changed only by the internal setter.
- `DocRaptorClient` (`docraptor.dfy`): the client configuration, the request form, the request URL, the PDF overloads and the reading of the response.

Form fields are the enumeration `Key`. `Name` gives the string each field is
posted under, and `NamesDistinct` shows that no two fields share a name. The
form is `map<Key, Option<string>>`, where a `None` value is a null that the
dictionary stores. `BuildForm` builds it step by step, as the source does.
`FormOf` gives the same form declaratively: the set of fields the rules admit,
and the value of each one.

## Model

| member | source | states |
|---|---|---|
| `DocRaptorClient.BuildForm` | NDocRaptor/DocRaptor.cs:35-60 | The form built by successive `Add`s is exactly `FormOf(p)`. No `Add` meets a key already in the dictionary, so none throws. |
| `DocRaptorClient.FormFromFields` | NDocRaptor/DocRaptor.cs:35-60 | Each field's presence rule and value together fix the whole form. Any dictionary that meets all ten per-field rules is `FormOf(p)`. |
| `DocRaptorClient.NamesDistinct` | NDocRaptor/DocRaptor.cs:35-60 | The ten field names are pairwise distinct strings. |
| `DocRaptorClient.FixedFields` | NDocRaptor/DocRaptor.cs:35-40 | Document type, test, tag and strict are always present. Their values are the lower-cased enum name (`pdf`, `xls` or `xlsx`), the lower-cased flag (`true` or `false`), the tag even when null, and `html` or `none`. |
| `DocRaptorClient.TextsAreLowerNames` | NDocRaptor/DocRaptor.cs:36-37 | The texts the form carries equal `ToLower` of the .NET `ToString()` of the enum member and of the flag. |
| `DocRaptorClient.SourceField` | NDocRaptor/DocRaptor.cs:42-47 | Exactly one source field is present. It is the url when the url is non-null, so the url wins over content; otherwise it is the content, even a null one. |
| `DocRaptorClient.NameField` | NDocRaptor/DocRaptor.cs:49-51 | `doc[name]` is present iff the name is neither null nor empty, and then it holds the name. |
| `DocRaptorClient.HelpField` | NDocRaptor/DocRaptor.cs:53-55 | `doc[help]` is present iff help is set, and then it is always `"true"`. |
| `DocRaptorClient.PdfFields` | NDocRaptor/DocRaptor.cs:57-60 | The Prince version and JavaScript fields are present iff the type is PDF. They then hold the version and the lower-cased flag. |
| `DocRaptorClient.SslEndpointAsWritten` | NDocRaptor/DocRaptor.cs:20 | As written, the endpoint expression yields `"https"` with SSL, which is not an absolute URI. Without SSL it yields `http://docraptor.com/docs`, which is absolute. |
| `DocRaptorClient.NewClientAsWrittenThrows` | NDocRaptor/DocRaptor.cs:15-21 | As written, the constructor throws `UriFormatException` exactly when SSL is requested. `new Uri` rejects `"https"`, so no client with SSL can be built. |
| `DocRaptorClient.EndpointNamesService` | NDocRaptor/DocRaptor.cs:20 | The corrected endpoint is the service address `://docraptor.com/docs` under the scheme `https` with SSL, or `http` without. It is an absolute URI. |
| `DocRaptorClient.NewClient` | NDocRaptor/DocRaptor.cs:15-21 | The constructor with the corrected endpoint keeps the key, tag and test mode, and its endpoint is an absolute URI. Without SSL it builds the same client as the constructor as written. |
| `DocRaptorClient.RequestUrlOfNewClient` | NDocRaptor/DocRaptor.cs:62 | The request URL of a constructed client is the endpoint, then `?user_credentials=`, then the key. A null key adds nothing. |
| `DocRaptorClient.PdfFromUrl` | NDocRaptor/DocRaptor.cs:71-84 | A null url gives `ArgumentNullException("url")`. Otherwise the overload delegates a PDF from that url with no content, the client's tag and test mode, and its own remaining arguments unchanged. |
| `DocRaptorClient.PdfFromContent` | NDocRaptor/DocRaptor.cs:86-99 | A null content gives `ArgumentNullException("content")`. Otherwise the overload delegates a PDF from that content with no url, the client's tag and test mode, and its own remaining arguments unchanged. |
| `DocRaptorClient.PdfFromUrlForm` | NDocRaptor/DocRaptor.cs:79-83 | The form of the url overload carries the url and no content. It has type `pdf`, the version and JavaScript fields, and the client's tag and test mode. |
| `DocRaptorClient.DefaultParamsForm` | NDocRaptor/DocRaptor.cs:23-60 | When every argument is left at its default, the form has a null content field, no url and no help. It has type `pdf`, name `Untitled`, version `9.0`, test `false` whatever the client's test mode, a null tag, strict `none` and JavaScript `false`. |
| `DocRaptorClient.PdfFromContentDefaultsForm` | NDocRaptor/DocRaptor.cs:86-98 | With default arguments, the content overload's form has type `pdf`, the content, name `Untitled`, strict `none`, JavaScript `false`, version `9.0`, and the client's test mode and tag. It has no url and no help field. |
| `DocRaptorClient.PageCountCases` | NDocRaptor/DocRaptor.cs:101-105 | With no header the page count is 0. A header holding a printed 32-bit number gives that number back. A value with no digit at all, the empty one included, throws `FormatException`. A digit string above `Int32.MaxValue` throws `OverflowException`. Any other error is one of these two exceptions. |
| `DocRaptorClient.CreateResponse` | NDocRaptor/DocRaptor.cs:101-112 | It throws exactly when the page-count header does not parse. Otherwise it returns a new wrapper that holds the message and the page count, with `Success` and `ReasonPhrase` taken from the message. |
| `DocRaptorClient.CreateDocument` | NDocRaptor/DocRaptor.cs:23-69 | It posts `FormOf(p)` to the request URL, and its result is `CreateResponse` of the reply. |
| `DocRaptorClient.CreatePdfDocumentFromUrl` | NDocRaptor/DocRaptor.cs:71-84 | A null url throws `ArgumentNullException("url")` before any request is built. Otherwise it sends the request `CreateDocument` builds for `PdfFromUrl`. It then throws exactly the page-count exception, or returns a new wrapper that holds the reply and its page count. |
| `DocRaptorClient.CreatePdfDocumentFromContent` | NDocRaptor/DocRaptor.cs:86-99 | A null content throws `ArgumentNullException("content")` before any request is built. Otherwise it sends the request `CreateDocument` builds for `PdfFromContent`. It then throws exactly the page-count exception, or returns a new wrapper that holds the reply and its page count. |
| `Responses.DocRaptorResponse.constructor` | NDocRaptor/DocRaptorResponse.cs:45-47 | The constructor stores the response and leaves the page count at its default of 0. |
| `Responses.DocRaptorResponse.SetNumberOfPages` | NDocRaptor/DocRaptorResponse.cs:10 | The internal setter changes the page count and nothing else. The response is a `const`. |
| `Responses.DocRaptorResponse.Success` | NDocRaptor/DocRaptorResponse.cs:17-24 | `Success` is true iff the status code is in the 2xx class (200..299), not only 200. Reading it changes nothing. |
| `Responses.DocRaptorResponse.ReasonPhrase` | NDocRaptor/DocRaptorResponse.cs:26-33 | `ReasonPhrase` is the wrapped response's reason phrase, unchanged and possibly null. |
| `Int32Parse.ParseInt32` | NDocRaptor/DocRaptor.cs:104 | `int.Parse` either gives a value within the `Int32` range or throws `FormatException` or `OverflowException`. A plain digit string gives its value when that fits, and `OverflowException` when it does not. |
| `Int32Parse.ParseFormatRoundTrip` | NDocRaptor/DocRaptor.cs:104 | Parsing the decimal text of any `Int32` gives that number back. |
| `Int32Parse.ParseAcceptsWhiteAndSign` | NDocRaptor/DocRaptor.cs:104 | Take any run of leading white space, an optional `+` or `-`, a non-empty digit string and any run of trailing white space. If the signed value fits in `Int32`, parsing gives the digits' value, negated after `-`. |
| `Int32Parse.ParseRejectsWithoutDigits` | NDocRaptor/DocRaptor.cs:104 | Any value that contains no digit, the empty one included, throws `FormatException`. |
| `Int32Parse.ParseRejectsOverflow` | NDocRaptor/DocRaptor.cs:104 | `2147483648` throws `OverflowException`. |

## Findings

| source | as written | input that shows it | evidently intended | confidence | as-written member | corrected member |
|---|---|---|---|---|---|---|
| NDocRaptor/DocRaptor.cs:20 | The conditional operator binds more loosely than `+`, so the service address is appended only to `"http"`. With SSL the expression yields the bare word `"https"`, which is not an absolute URI, so `new Uri` throws `UriFormatException` and the constructor fails. | `useSsl = true` | endpoint `https://docraptor.com/docs` | high (not executed) | `DocRaptorClient.NewClientAsWrittenThrows` | `DocRaptorClient.NewClient` |

The functions `EndpointAsWritten` and `NewClientAsWritten` model the code as
written. `NewClient` is the corrected constructor, and the request
operations use clients built with it.

## Left out

- `HttpClient`, `SendAsync` and the async/`Task` machinery are network I/O and concurrency. The transport is the `reply` parameter of `CreateDocument`: whatever the service answers. Transport failures are not modelled.
- `FormUrlEncodedContent`: the percent-encoding of the body is library code. The model stops at the field map and the field names.
- `Uri`: a url argument is modelled as its text, and `Uri.ToString()` is taken to return that text unchanged. Uri parsing is left out. The constructor's `new Uri` is reduced to one check: a scheme of letters followed by `://` (`IsAbsoluteUri`). That check is enough to reject `"https"`, the one case this client meets.
- NewClient: builds the corrected endpoint `https://docraptor.com/docs` when SSL is requested. In .NET the constructor as written throws `UriFormatException` in that case; `NewClientAsWritten` models it.
- `int.Parse` is modelled for the invariant culture and ASCII digits only. Culture-specific signs and digits are not modelled. Nor is .NET's acceptance of trailing NUL characters.
- `string.ToLower()` is modelled on ASCII letters only. The culture-specific mapping of other characters is not modelled. In this client it only lower-cases the fixed names `Pdf`, `Xls`, `Xlsx`, `True` and `False`.
- `HttpResponseMessage` is reduced to the status code, the reason phrase, the first value of `X-DocRaptor-Num-Pages` and the body. The rest of the header collection and the status-code range checks of the .NET type are not modelled.
- `DocRaptorResponse.SaveAs` is file I/O with a blocking asynchronous copy.
- The demo program `NDocRaptor.Test/Program.cs`, which uses the console, temporary files and process start, is not part of this model.
- The field names are an enumeration. Because of that, the distinctness of the keys within one dictionary is checked on the enumeration (the assertions in `BuildForm`), and the distinctness of the strings is checked separately by `NamesDistinct`.
- The code has no pipeline field, no ignore-console-messages field and no merging of extra parameters. It rejects neither a blank name nor a call without url and content, and the model has none of these either:
  - a null or empty name is not sent, but a name of only white space is sent as given;
  - a call with neither url nor content sends a null `doc[document_content]` (`DefaultParamsForm`).
