/** Finding the public address of this endpoint in the Via headers of a response. */
module ViaScan {
  import opened Text

  datatype Via = Via(received: Option<string>, rport: Option<nat>, sentHost: string, sentPort: nat, transport: string)

  /** A transport of None is UNKNOWN_TRANSPORT. */
  datatype Endpoint = Endpoint(host: string, port: nat, transport: Option<string>)

  /** The stack's address functions, whose bodies the repository does not show. */
  datatype Net = Net(isPrivate: string -> bool, isAddress: string -> bool,
                     toTransport: string -> Option<string>, ntop: string -> string, uriHost: string -> string)

  /** The host a Via reveals: a public `received`, otherwise a public literal sent-by host. */
  function PublicHost(net: Net, via: Via): Option<string> {
    if via.received.Some? && !net.isPrivate(via.received.value) then via.received
    else if net.isAddress(via.sentHost) && !net.isPrivate(via.sentHost) then Some(via.sentHost)
    else None
  }

  /** `rport` is preferred to the sent-by port. */
  function EndpointAt(net: Net, via: Via, host: string): Endpoint {
    Endpoint(host, if via.rport.Some? then via.rport.value else via.sentPort, net.toTransport(via.transport))
  }

  /** Look at the last Via first, and at the others only if it shows nothing. */
  function Scan(net: Net, vias: seq<Via>): Option<Endpoint> {
    if vias == [] then None else
    var n := |vias| - 1;
    var host := PublicHost(net, vias[n]);
    if host.Some? then Some(EndpointAt(net, vias[n], host.value)) else Scan(net, vias[..n])
  }

  predicate ReceivedIsPublic(net: Net, via: Via) {
    via.received.Some? && !net.isPrivate(via.received.value)
  }

  predicate SentByIsPublic(net: Net, via: Via) {
    net.isAddress(via.sentHost) && !net.isPrivate(via.sentHost)
  }

  predicate ShowsPublic(net: Net, via: Via) {
    ReceivedIsPublic(net, via) || SentByIsPublic(net, via)
  }

  predicate LastPublic(net: Net, vias: seq<Via>, i: int) {
    0 <= i < |vias| && ShowsPublic(net, vias[i]) && forall j :: i < j < |vias| ==> !ShowsPublic(net, vias[j])
  }

  /** The scan yields the endpoint of the last Via that shows a public host: that host, `received`
      before the sent-by host, with `rport` before the sent-by port and the Via's own transport. It
      yields nothing exactly when no Via shows one. */
  lemma {:induction false} ScanFindsLast(net: Net, vias: seq<Via>, i: int)
    ensures LastPublic(net, vias, i) ==>
      var via, found := vias[i], Scan(net, vias);
      && found.Some? && ShowsPublic(net, via)
      && found.value.host == (if ReceivedIsPublic(net, via) then via.received.value else via.sentHost)
      && found.value.port == (if via.rport.Some? then via.rport.value else via.sentPort)
      && found.value.transport == net.toTransport(via.transport)
    ensures Scan(net, vias).None? <==> forall j :: 0 <= j < |vias| ==> !ShowsPublic(net, vias[j])
  {
    if vias != [] {
      var n := |vias| - 1;
      ScanFindsLast(net, vias[..n], i);
      assert forall j :: 0 <= j < n ==> vias[..n][j] == vias[j];
      if LastPublic(net, vias, i) && i < n {
        assert LastPublic(net, vias[..n], i);
      }
    }
  }

  /** The backward walk of processIpAndPort; no Vias stands for an absent header. */
  method ProcessIpAndPort(net: Net, vias: seq<Via>) returns (found: Option<Endpoint>)
    ensures found == Scan(net, vias)
  {
    found := None;
    if vias == [] {
      return;
    }
    var it := |vias|;
    assert vias[..it] == vias;
    while true
      invariant 0 < it <= |vias|
      invariant Scan(net, vias) == Scan(net, vias[..it])
      decreases it
    {
      it := it - 1;
      var via := vias[it];
      assert vias[..it + 1][..it] == vias[..it];
      if via.received.Some? {
        if !net.isPrivate(via.received.value) {
          found := Some(EndpointAt(net, via, via.received.value));
          return;
        }
      }
      if net.isAddress(via.sentHost) {
        if !net.isPrivate(via.sentHost) {
          found := Some(EndpointAt(net, via, via.sentHost));
          return;
        }
      }
      if it == 0 {
        break;
      }
    }
  }

  // ---------------------------------------------------------------- over all responses

  function Decimal(n: nat): (s: string)
    ensures s != ""
  {
    var digit := ['0' + (n % 10) as char];
    if n < 10 then digit else Decimal(n / 10) + digit
  }

  /** The number a text of digits denotes. */
  function NumberOf(s: string): int {
    if s == "" then 0 else 10 * NumberOf(s[..|s| - 1]) + (s[|s| - 1] as int - '0' as int)
  }

  /** The decimal text of a number is all digits, has no leading zero and reads back. */
  lemma {:induction false} DecimalReadsBack(n: nat)
    ensures NumberOf(Decimal(n)) == n
    ensures forall k :: 0 <= k < |Decimal(n)| ==> '0' <= Decimal(n)[k] <= '9'
    ensures n > 0 ==> Decimal(n)[0] != '0'
  {
    if n >= 10 {
      DecimalReadsBack(n / 10);
      assert Decimal(n)[..|Decimal(n)| - 1] == Decimal(n / 10);
    }
  }

  /** What one success response teaches about the public address. */
  function Learned(net: Net, vias: seq<Via>): Option<string> {
    var e := Scan(net, vias);
    if e.Some? && e.value.transport.Some? && net.ntop(e.value.host) != ""
    then Some(net.ntop(e.value.host) + ":" + Decimal(e.value.port))
    else None
  }

  /** A response teaches the address and port of its last public Via, written as `address:port`, if
      that Via's transport is known and the address has a text; otherwise nothing. */
  lemma LearnedIff(net: Net, vias: seq<Via>, i: int)
    requires LastPublic(net, vias, i)
    ensures var via := vias[i];
      var ip := net.ntop(if ReceivedIsPublic(net, via) then via.received.value else via.sentHost);
      var port := if via.rport.Some? then via.rport.value else via.sentPort;
      Learned(net, vias) ==
        if net.toTransport(via.transport).Some? && ip != "" then Some(ip + ":" + Decimal(port)) else None
  {
    ScanFindsLast(net, vias, i);
  }

  /** The stored address after a list of success responses. */
  function Known(net: Net, start: string, responses: seq<seq<Via>>): string {
    if responses == [] then start else
    var n := |responses| - 1;
    var learned := Learned(net, responses[n]);
    if learned.Some? then learned.value else Known(net, start, responses[..n])
  }

  /** Response `i` is the last one that taught an address. */
  predicate LastLearned(net: Net, responses: seq<seq<Via>>, i: int) {
    && 0 <= i < |responses| && Learned(net, responses[i]).Some?
    && forall j :: i < j < |responses| ==> Learned(net, responses[j]).None?
  }

  /** The stored address is always the one the last informative response gave, it changes on no
      other response, and once there is one it is never lost. */
  lemma {:induction false} AddressIsLatest(net: Net, start: string, responses: seq<seq<Via>>, i: int)
    ensures LastLearned(net, responses, i) ==> Known(net, start, responses) == Learned(net, responses[i]).value != ""
    ensures (forall j :: 0 <= j < |responses| ==> Learned(net, responses[j]).None?) ==>
      Known(net, start, responses) == start
    ensures start != "" ==> Known(net, start, responses) != ""
  {
    if responses != [] {
      var n := |responses| - 1;
      var init := responses[..n];
      AddressIsLatest(net, start, init, i);
      if LastLearned(net, responses, i) && i < n {
        assert LastLearned(net, init, i);
      }
    }
  }

  /** Responses can be taken in any number of parts. */
  lemma {:induction false} KnownAppend(net: Net, start: string, a: seq<seq<Via>>, b: seq<seq<Via>>)
    ensures Known(net, start, a + b) == Known(net, Known(net, start, a), b)
    decreases |b|
  {
    if b == [] {
      assert a + b == a;
    } else {
      var n := |b| - 1;
      assert (a + b)[..|a| + n] == a + b[..n];
      KnownAppend(net, start, a, b[..n]);
    }
  }
}
