/** `isValidImageUrl` of the backend: whether a profile-image value from
    the database is worth sending to the browser. URL parsing is a
    parameter: `protocolOf(s)` is the `protocol` of `new URL(s)`, or `None`
    when the constructor throws. */
module ImageUrl {
  import opened Wrappers
  import opened Text

  /** The value as it comes from the database column: absent or falsy,
      a string, or some other truthy value. */
  datatype DbValue = Falsy | Str(s: string) | NonString

  function IsValidImageUrl(url: DbValue, protocolOf: string -> Option<string>): (r: bool)
  {
    match url
    case Str(s) =>
      if s == [] then false
      else if Lower(s) == "false" || Lower(s) == "null" || Trim(s) == [] then false
      else protocolOf(s) == Some("http:") || protocolOf(s) == Some("https:")
    case _ => false
  }

  /** The value is accepted exactly when it is a string that is not "false"
      or "null" in any letter case, not blank, and parses to an http or
      https URL. */
  lemma IsValidImageUrlIff(url: DbValue, protocolOf: string -> Option<string>)
    ensures IsValidImageUrl(url, protocolOf) <==>
              && url.Str?
              && Lower(url.s) != "false" && Lower(url.s) != "null"
              && !AllWhitespace(url.s)
              && protocolOf(url.s) in {Some("http:"), Some("https:")}
  {
    if url.Str? {
      TrimEmptyIffBlank(url.s);
      if url.s == [] {
        assert AllWhitespace(url.s);
      }
    }
  }

  /** Whatever the parser says, a blank string is rejected. */
  lemma BlankRejected(s: string, protocolOf: string -> Option<string>)
    requires AllWhitespace(s)
    ensures !IsValidImageUrl(Str(s), protocolOf)
  {
    IsValidImageUrlIff(Str(s), protocolOf);
  }

  /** Whatever the parser says, "NULL" and "False" are rejected. */
  lemma SentinelRejected(protocolOf: string -> Option<string>)
    ensures !IsValidImageUrl(Str("NULL"), protocolOf)
    ensures !IsValidImageUrl(Str("False"), protocolOf)
  {
    assert Lower("NULL") == "null";
    assert Lower("False") == "false";
  }
}
