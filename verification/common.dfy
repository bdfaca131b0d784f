/**
 * Values shared by every Lambda handler of the chat backend: the API Gateway
 * response, the way a handler can end, the payload posted to a WebSocket
 * connection, and a few sequence helpers.
 */
module Common {
  import opened Wrappers

  /** `{"statusCode": ..., "body": ...}` as built by `_get_response` / `build_response`. */
  datatype Response = Response(statusCode: int, body: string)

  /** A handler either returns a response or lets an exception escape (a failed post). */
  datatype Outcome = Returned(response: Response) | Raised

  /** One chat line as clients see it: `{"username": ..., "content": ...}`. */
  datatype Summary = Summary(username: string, content: string)

  /** The data posted to a connection: `{"messages": [...]}`. */
  datatype Payload = Payload(messages: seq<Summary>)

  /** The two `eventType` values of the `$connect` and `$disconnect` routes. */
  const ConnectEvent := "CONNECT"
  const DisconnectEvent := "DISCONNECT"

  const MissingIdBody := "connectionId value must not be empty or missing"
  const UnrecognizedEventBody := "Unrecognized eventType. CONNECT and DISCONNECT are only available."
  const IdNotSetBody := "connectionId value not set."
  const UnrecognizedActionBody := "Unrecognized WebSocket action."
  const ConnectBody := "Connect successful."
  const DisconnectBody := "Disconnect successful."

  /** `default_message`: the reply to a WebSocket action that no route matches. */
  function DefaultMessage(): (r: Response)
    ensures r.statusCode == 400 && r.body == UnrecognizedActionBody
  {
    Response(400, UnrecognizedActionBody)
  }

  /** Python's `not connection_id` for `requestContext.get("connectionId")`: absent or empty. */
  predicate IsMissing(connectionId: Option<string>)
  {
    connectionId.None? || connectionId.value == ""
  }

  /** `"Sent recent messages to '{}'."` */
  function SentRecentBody(connectionId: string): string
  {
    "Sent recent messages to '" + connectionId + "'."
  }

  /** `"Message sent to {} connections."` */
  function SentToBody(n: nat): string
  {
    "Message sent to " + DecimalString(n) + " connections."
  }

  /** Python's `str(n)` for a natural number. */
  function DecimalString(n: nat): string
  {
    if n < 10 then [DigitChar(n)] else DecimalString(n / 10) + [DigitChar(n % 10)]
  }

  function DigitChar(d: nat): char
    requires d < 10
  {
    "0123456789"[d]
  }

  predicate Distinct<T(==)>(s: seq<T>)
  {
    forall i, j :: 0 <= i < j < |s| ==> s[i] != s[j]
  }

  /** What Python's `list.reverse()` leaves behind. */
  function Reversed<T>(s: seq<T>): (r: seq<T>)
    ensures |r| == |s|
  {
    seq(|s|, i requires 0 <= i < |s| => s[|s| - 1 - i])
  }

  /** `s` with every occurrence of `x` removed, order kept. */
  function Without(s: seq<string>, x: string): (r: seq<string>)
    ensures forall y :: y in r <==> y in s && y != x
    ensures Distinct(s) ==> Distinct(r)
    ensures |r| <= |s|
  {
    if s == [] then []
    else if s[0] == x then Without(s[1..], x)
    else
      var rest := Without(s[1..], x);
      assert Distinct(s) ==> Distinct(s[1..]) && s[0] !in s[1..];
      [s[0]] + rest
  }

  /** A duplicate-free sequence has as many elements as the set of its elements. */
  lemma {:induction false} DistinctCardinality(s: seq<string>)
    requires Distinct(s)
    ensures |set x | x in s| == |s|
  {
    if s != [] {
      DistinctCardinality(s[1..]);
      assert (set x | x in s) == (set x | x in s[1..]) + {s[0]};
      assert s[0] !in s[1..];
    }
  }

  /** Python's `list.reverse()`: reverses the list in place. */
  method ReverseInPlace(a: array<Summary>)
    modifies a
    ensures a[..] == Reversed(old(a[..]))
  {
    ghost var s := a[..];
    var lo, hi := 0, a.Length;
    while lo + 1 < hi
      invariant 0 <= lo <= hi <= a.Length && lo + hi == a.Length
      invariant forall k :: 0 <= k < lo || hi <= k < a.Length ==> a[k] == s[a.Length - 1 - k]
      invariant forall k :: lo <= k < hi ==> a[k] == s[k]
    {
      a[lo], a[hi - 1] := a[hi - 1], a[lo];
      lo, hi := lo + 1, hi - 1;
    }
    assert forall k :: 0 <= k < a.Length ==> a[k] == Reversed(s)[k];
  }
}
