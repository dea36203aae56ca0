/** What the pages see of the remote GraphQL API: a query or mutation either
    succeeds with a payload or fails with the ordered list of messages the
    server attached (empty for a transport failure or an error that is not a
    GraphQL error). Also the JavaScript truthiness tests the pages apply to ids. */
module Remote {

  datatype Option<+T> = None | Some(value: T)

  /** The settled outcome of one query or mutation. */
  datatype Response<+T> = Ok(payload: T) | Err(messages: seq<string>)

  /** The alert a failed mutation produces everywhere in the console: the first
      server message when there is one, otherwise the page's fixed fallback. */
  function ErrorAlert(messages: seq<string>, fallback: string): (alert: string)
    ensures messages != [] ==> alert == messages[0]
    ensures messages == [] ==> alert == fallback
    ensures alert in messages || alert == fallback
  {
    if |messages| > 0 then messages[0] else fallback
  }

  /** JavaScript truthiness of a nullable numeric id: `null` and `0` are falsy. */
  predicate IdTruthy(id: Option<int>)
    ensures !IdTruthy(id) <==> id == None || id == Some(0)
  {
    id.Some? && id.value != 0
  }

  /** `s || ""` on a nullable string: absent reads as the empty string. */
  function OrEmpty(s: Option<string>): (r: string)
    ensures s.Some? ==> r == s.value
    ensures s.None? ==> r == ""
  {
    if s.Some? then s.value else ""
  }
}
