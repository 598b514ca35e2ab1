/**
 * `DocRaptorResponse`: the wrapper handed back to callers around the HTTP
 * response of one document request.
 */
module Responses {
  import opened Wrappers
  import opened Runtime

  class DocRaptorResponse {
    /** The value of the `X-DocRaptor-Num-Pages` header, when using PDF (internal setter). */
    var numberOfPages: int

    /** The HTTP response; its setter is private and only the constructor assigns it. */
    const response: HttpResponseMessage

    /** Wraps `response`; the page count keeps its default of 0. */
    constructor (response: HttpResponseMessage)
      ensures this.response == response
      ensures numberOfPages == 0
    {
      this.response := response;
      numberOfPages := 0;
    }

    /** The internal setter of `NumberOfPages`; nothing else changes. */
    method SetNumberOfPages(n: int)
      modifies this`numberOfPages
      ensures numberOfPages == n
    {
      numberOfPages := n;
    }

    /**
     * Whether the request succeeded: any status in the 2xx class, not only
     * 200 OK, and nothing but the status code decides it.
     */
    function Success(): (r: bool)
      ensures r <==> response.statusCode / 100 == 2
    {
      response.IsSuccessStatusCode()
    }

    /** The reason phrase of the wrapped response, passed through unchanged. */
    function ReasonPhrase(): (r: Option<string>)
      ensures r == response.reasonPhrase
    {
      response.reasonPhrase
    }
  }

}
