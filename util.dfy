/** The proxy variant's error type and the text each variant prints (`#[error("...")]`). */
module Util {

  import opened Text

  /** Each variant carries the text of the error it wraps. */
  datatype ShadowError =
    | Io(text: string)
    | Hyper(text: string)
    | Http(text: string)
    | UriParse(text: string)
    | UrlParse(text: string)
    | InvalidHeaderValue(text: string)
    | InvalidHeaderName(text: string)
    | Cache(text: string)
    | TlsConfig(text: string)
    | ActixWeb(text: string)
    | ActixWebPayload(text: string)
    | Rustls(text: string)

  /** The words each variant prints before the colon. */
  function Name(e: ShadowError): string {
    match e
    case Io(_) => "i/o error"
    case Hyper(_) => "hyper error"
    case Http(_) => "http error"
    case UriParse(_) => "uri parse error"
    case UrlParse(_) => "url parse error"
    case InvalidHeaderValue(_) => "invalid header value"
    case InvalidHeaderName(_) => "invalid header name"
    case Cache(_) => "cache error"
    case TlsConfig(_) => "tls configuration error"
    case ActixWeb(_) => "actix web error"
    case ActixWebPayload(_) => "actix web payload error"
    case Rustls(_) => "rustls error"
  }

  function Prefix(e: ShadowError): string {
    Name(e) + ": "
  }

  /** The `Display` text of an error: its variant's prefix, then the wrapped error's text. */
  function Message(e: ShadowError): (m: string)
    ensures StartsWith(m, Prefix(e)) && m[|Prefix(e)|..] == e.text
  {
    Prefix(e) + e.text
  }

  /** No variant's name holds a colon. */
  lemma NameColonFree(e: ShadowError)
    ensures forall i :: 0 <= i < |Name(e)| ==> Name(e)[i] != ':'
  {
    assert ':' !in Name(e);
  }

  /** Distinct variants print distinct prefixes. */
  lemma PrefixInjective(e1: ShadowError, e2: ShadowError)
    requires Prefix(e1) == Prefix(e2)
    ensures e1.(text := e2.text) == e2
  {
    assert Name(e1) == Prefix(e1)[..|Prefix(e1)| - 2] == Prefix(e2)[..|Prefix(e2)| - 2] == Name(e2);
  }

  /** No prefix is the start of a longer one. */
  lemma PrefixFree(e1: ShadowError, e2: ShadowError)
    requires |Prefix(e1)| <= |Prefix(e2)| && Prefix(e2)[..|Prefix(e1)|] == Prefix(e1)
    ensures Prefix(e1) == Prefix(e2)
  {
    var n1, n2 := Name(e1), Name(e2);
    NameColonFree(e1);
    NameColonFree(e2);
    assert Prefix(e2)[|n1|] == Prefix(e1)[|n1|] == ':';
  }

  /**
   * The message names the error: no prefix is the start of another, so the variant and the
   * wrapped text can both be read back from the message.
   */
  lemma MessageInjective(e1: ShadowError, e2: ShadowError)
    requires Message(e1) == Message(e2)
    ensures e1 == e2
  {
    var p1, p2, m := Prefix(e1), Prefix(e2), Message(e1);
    assert m[..|p1|] == p1 && m[..|p2|] == p2;
    if |p1| <= |p2| {
      assert p2[..|p1|] == m[..|p1|];
      PrefixFree(e1, e2);
    } else {
      assert p1[..|p2|] == m[..|p2|];
      PrefixFree(e2, e1);
    }
    PrefixInjective(e1, e2);
    assert e1.text == m[|p1|..] == e2.text;
  }
}
