/**
 * The pieces of the .NET runtime that the client relies on, stated as values:
 * the exceptions it can raise, the string conversions it applies to enum and
 * boolean arguments, and the HTTP response message it receives.
 */
module Runtime {
  import opened Wrappers

  /** The exceptions the modelled code raises or lets escape. */
  datatype Exception =
    | ArgumentNullException(paramName: string)
    | FormatException
    | OverflowException
    | UriFormatException

  /** `bool.ToString()`: capitalised, as .NET prints booleans. */
  function BoolToString(b: bool): string {
    if b then "True" else "False"
  }

  /** Lower-casing of one character (the ASCII letters; every other character is kept). */
  function LowerChar(c: char): char {
    if 'A' <= c <= 'Z' then (c as int - 'A' as int + 'a' as int) as char else c
  }

  /** `string.ToLower()`, character by character. */
  function ToLower(s: string): (r: string)
    ensures |r| == |s|
  {
    if s == [] then [] else [LowerChar(s[0])] + ToLower(s[1..])
  }

  /** Each character of `ToLower(s)` is the lower case of the character of `s` at that place. */
  lemma {:induction false} ToLowerAt(s: string, i: nat)
    requires i < |s|
    ensures ToLower(s)[i] == LowerChar(s[i])
    ensures !('A' <= ToLower(s)[i] <= 'Z')
  {
    if i > 0 {
      ToLowerAt(s[1..], i - 1);
    }
  }

  predicate IsLetter(c: char) {
    'a' <= c <= 'z' || 'A' <= c <= 'Z'
  }

  /**
   * What `new Uri(string)` takes as an absolute URI in the form used here: a
   * scheme of letters followed by "://". Any other string makes the
   * constructor throw `UriFormatException`.
   */
  predicate IsAbsoluteUri(s: string) {
    exists i :: 0 < i <= |s| - 3 && SchemeEndsAt(s, i)
  }

  /** `s` starts with a non-empty scheme of letters that ends at `i`, where "://" follows. */
  predicate SchemeEndsAt(s: string, i: int) {
    0 < i <= |s| - 3 && s[i..i + 3] == "://" && forall j :: 0 <= j < i ==> IsLetter(s[j])
  }

  /** `string.IsNullOrEmpty`. */
  predicate IsNullOrEmpty(s: Option<string>) {
    s.None? || s.value == ""
  }

  /**
   * The part of `HttpResponseMessage` the client reads: the status code, the
   * reason phrase (which may be null), the first value of the
   * `X-DocRaptor-Num-Pages` header when the header is present, and the body.
   */
  datatype HttpResponseMessage = HttpResponseMessage(
    statusCode: int,
    reasonPhrase: Option<string>,
    numPagesHeader: Option<string>,
    content: seq<bv8>)
  {
    /** `HttpResponseMessage.IsSuccessStatusCode`: the code lies in 200..299. */
    predicate IsSuccessStatusCode() {
      200 <= statusCode <= 299
    }
  }
}
