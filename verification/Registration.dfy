/** The registration half of SipControllerCore: the contact URI each registerUser overload builds,
    and the public address it may use. */
module Registration {
  import opened Text
  import opened ViaScan

  type Headers = map<string, string>

  // ---------------------------------------------------------------- text of a contact

  /** `s` without any '>'. */
  function Unclosed(s: string): string {
    if s == "" then "" else (if s[0] == '>' then "" else [s[0]]) + Unclosed(s[1..])
  }

  predicate Plain(s: string) {
    '<' !in s && '>' !in s
  }

  function Wrap(body: string): string {
    "<" + body + ">"
  }

  function UriBody(user: string, host: string): string {
    "sip:" + user + "@" + host + ";transport=tls"
  }

  /** A name-addr whose only brackets are its first and last character. */
  predicate Bracketed(s: string) {
    |s| >= 2 && s[0] == '<' && s[|s| - 1] == '>' && '<' !in s[1..] && '>' !in s[..|s| - 1]
  }

  lemma {:induction false} UnclosedAppend(a: string, b: string)
    ensures Unclosed(a + b) == Unclosed(a) + Unclosed(b)
  {
    if a == "" {
      assert a + b == b;
    } else {
      assert (a + b)[1..] == a[1..] + b;
      UnclosedAppend(a[1..], b);
      Assoc(if a[0] == '>' then "" else [a[0]], Unclosed(a[1..]), Unclosed(b));
    }
  }

  lemma {:induction false} UnclosedPlain(s: string)
    ensures '>' !in Unclosed(s)
    ensures '>' !in s ==> Unclosed(s) == s
  {
    if s != "" {
      UnclosedPlain(s[1..]);
      assert s == [s[0]] + s[1..];
    }
  }

  lemma WrapBracketed(body: string)
    ensures Bracketed(Wrap(body)) <==> Plain(body)
  {
    var s := Wrap(body);
    assert s[1..] == body + ">" && s[..|s| - 1] == "<" + body;
    assert forall k :: 0 <= k < |body| ==> (body + ">")[k] == body[k] && ("<" + body)[k + 1] == body[k];
  }

  lemma PlainAppend(a: string, b: string)
    ensures Plain(a + b) <==> Plain(a) && Plain(b)
  {
  }

  lemma PlainUri(user: string, host: string)
    requires Plain(user) && Plain(host)
    ensures Plain(UriBody(user, host))
  {
  }

  lemma PlainParam(body: string, name: string, value: string)
    requires Plain(body) && Plain(name) && Plain(value)
    ensures Plain(body + name + value)
  {
  }

  // ---------------------------------------------------------------- addapnsInContact

  function CertParam(certid: string): string {
    if certid == "" then "" else ";certid=" + certid
  }

  /** What addapnsInContact leaves in its in-out argument. */
  function WithApns(certid: string, contact: string, token: string): string {
    if token != "" then
      Unclosed(if certid == "" then contact else contact + ";certid=" + certid + ">") + ";app_id=" + token + ">"
    else if certid != "" then contact + ";certid=" + certid + ">"
    else contact + ">"
  }

  /** The find-and-erase loop removes every '>', whatever the text. */
  method EraseClosing(text: string) returns (erased: string)
    ensures erased == Unclosed(text)
  {
    erased := text;
    var i := Find(erased, ">");
    while i != -1
      invariant Unclosed(erased) == Unclosed(text)
      invariant i == Find(erased, ">")
      decreases |erased|
    {
      Erasing(erased, i);
      erased := erased[..i] + erased[i + 1..];
      i := Find(erased, ">");
    }
    NothingFound(erased);
    UnclosedPlain(erased);
  }

  lemma Erasing(s: string, i: int)
    requires OccursAt(s, ">", i)
    ensures Unclosed(s[..i] + s[i + 1..]) == Unclosed(s)
  {
    assert s == s[..i] + s[i..];
    assert s[i..][0] == '>' by {
      assert s[i..i + 1][0] == '>';
    }
    assert s[i..][1..] == s[i + 1..];
    UnclosedAppend(s[..i], s[i..]);
    UnclosedAppend(s[..i], s[i + 1..]);
  }

  lemma NothingFound(s: string)
    requires Find(s, ">") == -1
    ensures '>' !in s
  {
    forall j | 0 <= j < |s|
      ensures s[j] != '>'
    {
      assert !OccursAt(s, ">", j);
      assert s[j..j + 1] == [s[j]];
    }
  }

  method AddApnsInContact(certid: string, contact: string, token: string) returns (result: string)
    ensures result == WithApns(certid, contact, token)
  {
    result := contact;
    if |certid| == 0 && |token| == 0 {
      result := result + ">";
    }
    if |certid| != 0 {
      result := result + ";certid=" + certid + ">";
    }
    if |token| != 0 {
      result := EraseClosing(result);
      result := result + ";app_id=" + token + ">";
    }
  }

  /** Adding to a finished contact gives a name-addr exactly when a token is added; the result then
      holds transport, certid and app_id in that order. */
  lemma ApnsBracketedIff(body: string, certid: string, token: string)
    requires Plain(body) && Plain(certid) && Plain(token)
    ensures Bracketed(WithApns(certid, Wrap(body), token)) <==> token != ""
    ensures token != "" ==>
      WithApns(certid, Wrap(body), token) == Wrap(body + CertParam(certid) + ";app_id=" + token)
  {
    if token != "" {
      ApnsWithToken(body, certid, token);
    } else {
      var rest := if certid != "" then ";certid=" + certid + ">" else ">";
      assert WithApns(certid, Wrap(body), token) == Wrap(body) + rest by {
        Assoc(Wrap(body), ";certid=", certid);
        Assoc(Wrap(body), ";certid=" + certid, ">");
      }
      SecondClosing(body, rest);
    }
  }

  lemma ApnsWithToken(body: string, certid: string, token: string)
    requires Plain(body) && Plain(certid) && Plain(token) && token != ""
    ensures var inside := body + CertParam(certid) + ";app_id=" + token;
      WithApns(certid, Wrap(body), token) == Wrap(inside) && Bracketed(Wrap(inside))
  {
    var inner := body + CertParam(certid);
    ErasedContact(body, certid);
    Assoc("<", body, CertParam(certid));
    Assoc("<", inner, ";app_id=");
    Assoc("<", inner + ";app_id=", token);
    if certid != "" {
      PlainParam(body, ";certid=", certid);
      Assoc(body, ";certid=", certid);
    }
    Assoc(body, "", "");
    PlainParam(inner, ";app_id=", token);
    WrapBracketed(inner + ";app_id=" + token);
  }

  lemma SecondClosing(body: string, rest: string)
    requires rest != ""
    ensures !Bracketed(Wrap(body) + rest)
  {
    var s := Wrap(body) + rest;
    assert s[..|s| - 1][|body| + 1] == '>';
  }

  lemma ErasedContact(body: string, certid: string)
    requires Plain(body) && Plain(certid)
    ensures var contact := Wrap(body);
      Unclosed(if certid == "" then contact else contact + ";certid=" + certid + ">") == "<" + body + CertParam(certid)
  {
    var contact := Wrap(body);
    ErasedWrap(body);
    if certid != "" {
      var param := ";certid=" + certid;
      PlainAppend(";certid=", certid);
      UnclosedPlain(param);
      UnclosedAppend(contact, param);
      ErasedClosing(contact + param);
      Assoc(contact, ";certid=", certid);
    } else {
      Assoc("<" + body, "", "");
    }
  }

  lemma ErasedClosing(s: string)
    ensures Unclosed(s + ">") == Unclosed(s)
  {
    UnclosedAppend(s, ">");
    assert Unclosed(">") == "";
  }

  lemma ErasedWrap(body: string)
    requires Plain(body)
    ensures Unclosed(Wrap(body)) == "<" + body
  {
    PlainInner(body);
    UnclosedPlain("<" + body);
    ErasedClosing("<" + body);
  }

  lemma PlainInner(body: string)
    requires Plain(body)
    ensures '>' !in "<" + body
  {
  }

  // ---------------------------------------------------------------- registerUser

  /** The contact of the overload with a proxy: "NA" marks an argument that was not given. */
  function ProxyContact(domain: string, user: string, token: string, certid: string, publicIpPort: string): string {
    var plain := Wrap(UriBody(user, if publicIpPort != "" then publicIpPort else domain));
    if certid != "NA" && token != "NA" then WithApns(certid, plain, token)
    else if certid != "NA" then Wrap(UriBody(user, publicIpPort) + ";certid=" + certid)
    else if token != "NA" then Wrap(UriBody(user, publicIpPort) + ";fcm=" + token)
    else plain
  }

  /** The host the proxy overload puts in the contact. */
  function ProxyHost(domain: string, token: string, certid: string, publicIpPort: string): string {
    if (certid == "NA") != (token == "NA") then publicIpPort
    else if publicIpPort != "" then publicIpPort
    else domain
  }

  function ProxyParams(token: string, certid: string): string {
    if certid != "NA" && token != "NA" then CertParam(certid) + ";app_id=" + token
    else if certid != "NA" then ";certid=" + certid
    else if token != "NA" then ";fcm=" + token
    else ""
  }

  /** The contact is one name-addr exactly unless a certid comes with an empty token. */
  lemma ProxyBracketedIff(domain: string, user: string, token: string, certid: string, publicIpPort: string)
    requires Plain(domain) && Plain(user) && Plain(token) && Plain(certid) && Plain(publicIpPort)
    ensures var contact := ProxyContact(domain, user, token, certid, publicIpPort);
      Bracketed(contact) <==> certid == "NA" || token != ""
  {
    var host := if publicIpPort != "" then publicIpPort else domain;
    if certid != "NA" && token != "NA" {
      PlainUri(user, host);
      ApnsBracketedIff(UriBody(user, host), certid, token);
    } else if certid != "NA" {
      ParamBracketed(user, publicIpPort, ";certid=", certid);
    } else if token != "NA" {
      ParamBracketed(user, publicIpPort, ";fcm=", token);
    } else {
      PlainUri(user, host);
      WrapBracketed(UriBody(user, host));
    }
  }

  lemma ParamBracketed(user: string, host: string, name: string, value: string)
    requires Plain(user) && Plain(host) && Plain(name) && Plain(value)
    ensures Bracketed(Wrap(UriBody(user, host) + name + value))
  {
  }

  /** When it is a name-addr, it is the user at the chosen host with the parameters in order; and
      that host is empty exactly when one of certid and token alone is given before an address has
      been learned, or there is no domain to fall back on. */
  lemma ProxyContactForm(domain: string, user: string, token: string, certid: string, publicIpPort: string)
    requires Plain(domain) && Plain(user) && Plain(token) && Plain(certid) && Plain(publicIpPort)
    requires certid == "NA" || token != ""
    ensures ProxyContact(domain, user, token, certid, publicIpPort) ==
      Wrap(UriBody(user, ProxyHost(domain, token, certid, publicIpPort)) + ProxyParams(token, certid))
    ensures ProxyHost(domain, token, certid, publicIpPort) == "" <==>
      publicIpPort == "" && ((certid == "NA") != (token == "NA") || domain == "")
  {
    var host := ProxyHost(domain, token, certid, publicIpPort);
    var body := UriBody(user, host);
    PlainUri(user, host);
    ApnsBracketedIff(body, certid, token);
    Assoc(body, CertParam(certid) + ";app_id=", token);
    Assoc(body, CertParam(certid), ";app_id=");
    Assoc(body, ";certid=", certid);
    Assoc(body, ";fcm=", token);
    Assoc(body, "", "");
  }

  /** The overloads without a proxy: the first two always give a name-addr, the third exactly with
      a token. */
  lemma DirectContacts(domain: string, user: string, token: string, certid: string)
    requires Plain(domain) && Plain(user) && Plain(token) && Plain(certid)
    ensures Bracketed(Wrap(UriBody(user, domain)))
    ensures Bracketed(Wrap(UriBody(user, domain) + ";fcm=" + token))
    ensures Bracketed(WithApns(certid, Wrap(UriBody(user, domain)), token)) <==> token != ""
  {
    PlainUri(user, domain);
    WrapBracketed(UriBody(user, domain));
    ParamBracketed(user, domain, ";fcm=", token);
    ApnsBracketedIff(UriBody(user, domain), certid, token);
  }

  // ---------------------------------------------------------------- runs of registrations

  /** A REGISTER request; `route` is the Route header, if one is added. */
  datatype Sent = Sent(address: string, contact: string, route: Option<string>, headers: Headers)

  /** What registrations keep for one another. */
  datatype Account = Account(publicIpPort: string, proxyServer: string, headers: Headers)

  datatype Event =
    | Direct(user: string, secret: string)
    | WithToken(user: string, secret: string, token: string)
    | WithCert(user: string, secret: string, token: string, cert: string)
    | ViaProxy(user: string, secret: string, token: string, cert: string, proxy: string, extra: Headers)
    | Success(vias: seq<Via>)
    | CallPlaced(extra: Headers)   // createSession stores its headers in the same field

  predicate Registers(e: Event) {
    !e.Success? && !e.CallPlaced?
  }

  function ProxyUri(proxyServer: string): string {
    "sip:" + proxyServer + ";transport=tls"
  }

  /** The route through the outbound proxy, which needs a host. */
  function ProxyRoute(net: Net, proxyServer: string): Option<string> {
    if proxyServer != "" && net.uriHost(ProxyUri(proxyServer)) != "" then Some(ProxyUri(proxyServer)) else None
  }

  /** "NA" keeps what was stored. */
  function Given(argument: string, stored: string): string {
    if argument == "NA" then stored else argument
  }

  function After(net: Net, a: Account, e: Event): Account {
    match e
    case ViaProxy(_, _, _, _, proxy, extra) => a.(proxyServer := Given(proxy, a.proxyServer), headers := extra)
    case Success(vias) => a.(publicIpPort := Known(net, a.publicIpPort, [vias]))
    case CallPlaced(extra) => a.(headers := extra)
    case _ => a
  }

  /** The request a registration sends when the account is `a`. */
  function Request(net: Net, domain: string, a: Account, e: Event): Sent
    requires Registers(e)
  {
    var sipUri := Wrap(UriBody(e.user, domain));
    match e
    case Direct(_, _) => Sent(sipUri, sipUri, None, a.headers)
    case WithToken(user, _, token) => Sent(sipUri, Wrap(UriBody(user, domain) + ";fcm=" + token), None, a.headers)
    case WithCert(_, _, token, cert) => Sent(sipUri, WithApns(cert, sipUri, token), None, a.headers)
    case ViaProxy(user, _, token, cert, proxy, extra) =>
      Sent(sipUri, ProxyContact(domain, user, token, cert, a.publicIpPort),
           ProxyRoute(net, Given(proxy, a.proxyServer)), extra)
  }

  /** The requests of the overloads without a proxy, word for word. */
  lemma DirectTexts(net: Net, domain: string, a: Account, user: string, secret: string, token: string)
    ensures var address := "<sip:" + user + "@" + domain + ";transport=tls>";
      Request(net, domain, a, Direct(user, secret)) == Sent(address, address, None, a.headers)
    ensures Request(net, domain, a, WithToken(user, secret, token)) ==
      Sent("<sip:" + user + "@" + domain + ";transport=tls>",
           "<sip:" + user + "@" + domain + ";transport=tls;fcm=" + token + ">", None, a.headers)
  {
    PublicContacts(user, domain, token, "");
  }

  lemma CertText(net: Net, domain: string, a: Account, user: string, secret: string, token: string, cert: string)
    requires Plain(domain) && Plain(user) && Plain(token) && Plain(cert) && token != "" && cert != ""
    ensures Request(net, domain, a, WithCert(user, secret, token, cert)) ==
      Sent("<sip:" + user + "@" + domain + ";transport=tls>",
           "<sip:" + user + "@" + domain + ";transport=tls;certid=" + cert + ";app_id=" + token + ">", None, a.headers)
  {
    var body := UriBody(user, domain);
    PlainUri(user, domain);
    ApnsBracketedIff(body, cert, token);
    PublicContacts(user, domain, token, cert);
    CertTokenText(user, domain, token, cert);
  }

  lemma CertTokenText(user: string, host: string, token: string, cert: string)
    requires cert != ""
    ensures "<sip:" + user + "@" + host + ";transport=tls;certid=" + cert + ";app_id=" + token + ">" ==
      Wrap(UriBody(user, host) + CertParam(cert) + ";app_id=" + token)
  {
    var start := "<sip:" + user + "@" + host + ";transport=tls;certid=" + cert;
    var inner := UriBody(user, host) + CertParam(cert);
    CertContact(user, host, cert);
    Assoc(UriBody(user, host), ";certid=", cert);
    SameBeforeLast(start, "<" + inner, '>');
    Assoc("<", inner, ";app_id=");
    Assoc("<", inner + ";app_id=", token);
  }

  lemma SameBeforeLast(a: string, b: string, c: char)
    requires a + [c] == b + [c]
    ensures a == b
  {
    assert a == (a + [c])[..|a|] && b == (b + [c])[..|b|];
  }

  function AccountAfter(net: Net, a: Account, events: seq<Event>): Account {
    if events == [] then a
    else After(net, AccountAfter(net, a, events[..|events| - 1]), events[|events| - 1])
  }

  function RequestsOf(net: Net, domain: string, a: Account, events: seq<Event>): seq<Sent> {
    if events == [] then [] else
    var init, e := events[..|events| - 1], events[|events| - 1];
    RequestsOf(net, domain, a, init) + if Registers(e) then [Request(net, domain, AccountAfter(net, a, init), e)] else []
  }

  /** The success responses among the events, in order. */
  function Responses(events: seq<Event>): seq<seq<Via>> {
    if events == [] then [] else
    var e := events[|events| - 1];
    Responses(events[..|events| - 1]) + if e.Success? then [e.vias] else []
  }

  function Registrations(events: seq<Event>): nat {
    if events == [] then 0 else Registrations(events[..|events| - 1]) + if Registers(events[|events| - 1]) then 1 else 0
  }

  /** Whatever is registered in between, the stored address follows the success responses alone. */
  lemma {:induction false} AddressFollows(net: Net, a: Account, events: seq<Event>)
    ensures AccountAfter(net, a, events).publicIpPort == Known(net, a.publicIpPort, Responses(events))
  {
    if events != [] {
      var init, e := events[..|events| - 1], events[|events| - 1];
      AddressFollows(net, a, init);
      if e.Success? {
        KnownAppend(net, a.publicIpPort, Responses(init), [e.vias]);
      } else {
        assert Responses(events) == Responses(init);
      }
    }
  }

  /** Event `i` is the last one that named a proxy. */
  predicate LastProxy(events: seq<Event>, i: int) {
    && 0 <= i < |events| && NamesProxy(events[i])
    && forall j :: i < j < |events| ==> !NamesProxy(events[j])
  }

  predicate NamesProxy(e: Event) {
    e.ViaProxy? && e.proxy != "NA"
  }

  /** The stored proxy is the one named last, and the configured one as long as none was named. */
  lemma {:induction false} ProxyIsLatest(net: Net, a: Account, events: seq<Event>, i: int)
    ensures LastProxy(events, i) ==> AccountAfter(net, a, events).proxyServer == events[i].proxy
    ensures (forall j :: 0 <= j < |events| ==> !NamesProxy(events[j])) ==>
      AccountAfter(net, a, events).proxyServer == a.proxyServer
  {
    if events != [] {
      var n := |events| - 1;
      var init := events[..n];
      ProxyIsLatest(net, a, init, i);
      if LastProxy(events, i) && i < n {
        assert LastProxy(init, i);
      }
    }
  }

  /** Event `i` is the last one that stored headers. */
  predicate LastHeaders(events: seq<Event>, i: int) {
    0 <= i < |events| && StoresHeaders(events[i]) && forall j :: i < j < |events| ==> !StoresHeaders(events[j])
  }

  predicate StoresHeaders(e: Event) {
    e.ViaProxy? || e.CallPlaced?
  }

  /** The stored headers are those of the last proxy registration or placed call. */
  lemma {:induction false} HeadersAreLatest(net: Net, a: Account, events: seq<Event>, i: int)
    ensures LastHeaders(events, i) ==> AccountAfter(net, a, events).headers == events[i].extra
    ensures (forall j :: 0 <= j < |events| ==> !StoresHeaders(events[j])) ==>
      AccountAfter(net, a, events).headers == a.headers
  {
    if events != [] {
      var n := |events| - 1;
      var init := events[..n];
      HeadersAreLatest(net, a, init, i);
      if LastHeaders(events, i) && i < n {
        assert LastHeaders(init, i);
      }
    }
  }

  /** One request per registration, in order, each built from the account of its own moment. */
  lemma {:induction false} RequestAt(net: Net, domain: string, a: Account, events: seq<Event>, p: nat)
    requires p < |events| && Registers(events[p])
    ensures |RequestsOf(net, domain, a, events)| == Registrations(events) > Registrations(events[..p])
    ensures RequestsOf(net, domain, a, events)[Registrations(events[..p])] ==
      Request(net, domain, AccountAfter(net, a, events[..p]), events[p])
    decreases |events|
  {
    var n := |events| - 1;
    RequestCount(net, domain, a, events[..n]);
    if p < n {
      RequestAt(net, domain, a, events[..n], p);
      assert events[..n][..p] == events[..p];
    }
  }

  lemma {:induction false} RequestCount(net: Net, domain: string, a: Account, events: seq<Event>)
    ensures |RequestsOf(net, domain, a, events)| == Registrations(events)
  {
    if events != [] {
      RequestCount(net, domain, a, events[..|events| - 1]);
    }
  }

  /** Over any run: once a success response has taught an address, every well-formed registration
      through the proxy offers the address taught last, whatever its parameters, with the proxy
      named last as route if that has a host. */
  lemma ProxyUsesLatest(net: Net, domain: string, a: Account, events: seq<Event>, p: nat, i: int)
    requires p < |events| && events[p].ViaProxy? && (events[p].cert == "NA" || events[p].token != "")
    requires LastLearned(net, Responses(events[..p]), i)
    requires var e := events[p]; Plain(domain) && Plain(e.user) && Plain(e.token) && Plain(e.cert)
    requires Plain(Learned(net, Responses(events[..p])[i]).value)
    ensures var e, k, all := events[p], Registrations(events[..p]), RequestsOf(net, domain, a, events);
      && k < |all|
      && all[k].contact == Wrap(UriBody(e.user, Learned(net, Responses(events[..p])[i]).value) + ProxyParams(e.token, e.cert))
      && all[k].route == (
           var proxy := AccountAfter(net, a, events[..p + 1]).proxyServer;
           var uri := "sip:" + proxy + ";transport=tls";
           if proxy == "" || net.uriHost(uri) == "" then None else Some(uri))
      && all[k].headers == e.extra
  {
    var e := events[p];
    var before := AccountAfter(net, a, events[..p]);
    RequestAt(net, domain, a, events, p);
    AddressFollows(net, a, events[..p]);
    AddressIsLatest(net, a.publicIpPort, Responses(events[..p]), i);
    ProxyContactForm(domain, e.user, e.token, e.cert, before.publicIpPort);
    assert events[..p + 1][..p] == events[..p];
  }

  class Registrar {
    const net: Net
    const domain: string

    var uri: string
    var username: string
    var password: string
    var appId: string
    var certId: string
    var proxyServer: string
    var publicIpPort: string
    var headers: Headers
    var proxyRegister: bool

    // The REGISTER requests handed to the transport, in order.
    ghost var requests: seq<Sent>

    ghost function Kept(): Account
      reads this
    {
      Account(publicIpPort, proxyServer, headers)
    }

    /** The constructor does not set `proxyRegister`: its value is whatever the memory held. */
    constructor (net: Net, domain: string, proxyServer: string, proxyRegister: bool)
      ensures this.net == net && this.domain == domain && this.proxyRegister == proxyRegister
      ensures Kept() == Account("", proxyServer, map[]) && requests == []
    {
      this.net, this.domain, this.proxyServer, this.proxyRegister := net, domain, proxyServer, proxyRegister;
      uri, username, password, appId, certId, publicIpPort := "", "", "", "", "", "";
      headers := map[];
      requests := [];
    }

    method CreateUri(user: string) returns (sipUri: string)
      modifies this`uri
      ensures uri == user + "@" + domain && sipUri == Wrap(UriBody(user, domain))
    {
      uri := user + "@" + domain;
      sipUri := "<sip:" + uri + ";transport=tls>";
      assert sipUri == "<" + ("sip:" + user + "@" + domain + ";transport=tls") + ">";
    }

    /** The part of setupTransport that builds the request. */
    method Send(address: string, contact: string)
      modifies this`requests
      ensures var route := if proxyRegister then ProxyRoute(net, proxyServer) else None;
        requests == old(requests) + [Sent(address, contact, route, headers)]
    {
      var outboundHost, outboundProxy := "", "";
      if |proxyServer| != 0 {
        outboundProxy := "sip:" + proxyServer + ";transport=tls";
        outboundHost := net.uriHost(outboundProxy);
      }
      var route := None;
      if proxyRegister {
        if outboundHost != "" {
          route := Some(outboundProxy);
        }
      }
      requests := requests + [Sent(address, contact, route, headers)];
    }

    method RegisterUser(user: string, secret: string)
      modifies this`proxyRegister, this`uri, this`username, this`password, this`requests
      ensures requests == old(requests) + [Request(net, domain, Kept(), Direct(user, secret))]
      ensures username == user && password == secret && !proxyRegister
    {
      proxyRegister := false;
      var sipUri := CreateUri(user);
      username, password := user, secret;
      Send(sipUri, sipUri);
    }

    method RegisterWithToken(user: string, secret: string, token: string)
      modifies this`proxyRegister, this`uri, this`username, this`password, this`requests, this`appId
      ensures requests == old(requests) + [Request(net, domain, Kept(), WithToken(user, secret, token))]
      ensures username == user && password == secret && appId == token && !proxyRegister
    {
      proxyRegister := false;
      var sipUri := CreateUri(user);
      appId := token;
      var contact := "<sip:" + uri + ";transport=tls;fcm=" + token + ">";
      FcmContact(user, domain, token);
      username, password := user, secret;
      Send(sipUri, contact);
    }

    method RegisterWithCert(user: string, secret: string, token: string, cert: string)
      modifies this`proxyRegister, this`uri, this`username, this`password, this`requests, this`appId, this`certId
      ensures requests == old(requests) + [Request(net, domain, Kept(), WithCert(user, secret, token, cert))]
      ensures username == user && password == secret && appId == token && certId == cert && !proxyRegister
    {
      proxyRegister := false;
      var sipUri := CreateUri(user);
      appId, certId := token, cert;
      var contact := AddApnsInContact(cert, sipUri, token);
      username, password := user, secret;
      Send(sipUri, contact);
    }

    method RegisterViaProxy(user: string, secret: string, token: string, cert: string, proxy: string, extra: Headers)
      modifies this
      ensures Kept() == Account(old(publicIpPort), Given(proxy, old(proxyServer)), extra)
      ensures requests == old(requests) +
        [Sent(Wrap(UriBody(user, domain)), ProxyContact(domain, user, token, cert, publicIpPort),
              ProxyRoute(net, proxyServer), extra)]
      ensures username == user && password == secret && proxyRegister
      ensures certId == Given(cert, old(certId)) && appId == Given(token, old(appId))
    {
      proxyRegister := true;
      var sipUri := CreateUri(user);
      Remember(proxy, token, cert, extra);
      var contact := BuildProxyContact(sipUri, user, token, cert);
      username, password := user, secret;
      Send(sipUri, contact);
    }

    /** Keep the arguments that were given. */
    method Remember(proxy: string, token: string, cert: string, extra: Headers)
      modifies this`proxyServer, this`certId, this`appId, this`headers
      ensures Kept() == Account(publicIpPort, Given(proxy, old(proxyServer)), extra)
      ensures certId == Given(cert, old(certId)) && appId == Given(token, old(appId))
    {
      if proxy != "NA" {
        proxyServer := proxy;
      }
      headers := extra;
      if cert != "NA" {
        certId := cert;
      }
      if token != "NA" {
        appId := token;
      }
    }

    method BuildProxyContact(sipUri: string, user: string, token: string, cert: string) returns (contact: string)
      requires sipUri == Wrap(UriBody(user, domain))
      ensures contact == ProxyContact(domain, user, token, cert, publicIpPort)
    {
      contact := sipUri;
      PublicContacts(user, publicIpPort, token, cert);
      if |publicIpPort| != 0 {
        contact := "<sip:" + user + "@" + publicIpPort + ";transport=tls>";
      }
      if cert != "NA" && token != "NA" {
        contact := AddApnsInContact(cert, contact, token);
      } else if cert != "NA" {
        contact := "<sip:" + user + "@" + publicIpPort + ";transport=tls;certid=" + cert + ">";
      } else if token != "NA" {
        contact := "<sip:" + user + "@" + publicIpPort + ";transport=tls;fcm=" + token + ">";
      }
    }

    /** A successful registration: the proxy route is dropped and the public address refreshed. */
    method OnSuccess(vias: seq<Via>)
      modifies this`proxyRegister, this`publicIpPort
      ensures !proxyRegister
      ensures publicIpPort == Known(net, old(publicIpPort), [vias])
    {
      proxyRegister := false;
      if vias != [] {
        var found := ProcessIpAndPort(net, vias);
        if found.Some? && found.value.transport.Some? {
          var ip, port := net.ntop(found.value.host), Decimal(found.value.port);
          if |ip| != 0 && |port| != 0 {
            publicIpPort := ip + ":" + port;
          }
        }
      }
      assert [vias][..0] == [];
    }

    method Dispatch(e: Event)
      modifies this
      ensures Kept() == After(net, old(Kept()), e)
      ensures requests == old(requests) + if Registers(e) then [Request(net, domain, old(Kept()), e)] else []
    {
      match e
      case Direct(user, secret) => RegisterUser(user, secret);
      case WithToken(user, secret, token) => RegisterWithToken(user, secret, token);
      case WithCert(user, secret, token, cert) => RegisterWithCert(user, secret, token, cert);
      case ViaProxy(user, secret, token, cert, proxy, extra) => RegisterViaProxy(user, secret, token, cert, proxy, extra);
      case Success(vias) => OnSuccess(vias);
      case CallPlaced(extra) => headers := extra;
    }

    /** Any sequence of registrations and success responses: the requests are those of the run, and
        the stored address is what the responses taught, never lost once known. */
    method Play(events: seq<Event>)
      modifies this
      ensures Kept() == AccountAfter(net, old(Kept()), events)
      ensures requests == old(requests) + RequestsOf(net, domain, old(Kept()), events)
      ensures publicIpPort == Known(net, old(publicIpPort), Responses(events))
      ensures old(publicIpPort) != "" ==> publicIpPort != ""
    {
      ghost var start, before := Kept(), requests;
      for i := 0 to |events|
        invariant Kept() == AccountAfter(net, start, events[..i])
        invariant requests == before + RequestsOf(net, domain, start, events[..i])
      {
        Dispatch(events[i]);
        assert events[..i + 1][..i] == events[..i];
      }
      assert events[..|events|] == events;
      AddressFollows(net, start, events);
      AddressIsLatest(net, start.publicIpPort, Responses(events), 0);
    }
  }

  lemma FcmContact(user: string, domain: string, token: string)
    ensures "<sip:" + (user + "@" + domain) + ";transport=tls;fcm=" + token + ">" ==
      Wrap(UriBody(user, domain) + ";fcm=" + token)
  {
    assert ";transport=tls;fcm=" == ";transport=tls" + ";fcm=";
    assert "<sip:" == "<" + "sip:";
  }

  lemma CertContact(user: string, host: string, cert: string)
    ensures "<sip:" + user + "@" + host + ";transport=tls;certid=" + cert + ">" ==
      Wrap(UriBody(user, host) + ";certid=" + cert)
  {
    assert ";transport=tls;certid=" == ";transport=tls" + ";certid=";
    assert "<sip:" == "<" + "sip:";
  }

  lemma PublicContacts(user: string, host: string, token: string, cert: string)
    ensures "<sip:" + user + "@" + host + ";transport=tls>" == Wrap(UriBody(user, host))
    ensures "<sip:" + user + "@" + host + ";transport=tls;certid=" + cert + ">" ==
      Wrap(UriBody(user, host) + ";certid=" + cert)
    ensures "<sip:" + user + "@" + host + ";transport=tls;fcm=" + token + ">" ==
      Wrap(UriBody(user, host) + ";fcm=" + token)
  {
    assert "<sip:" == "<" + "sip:";
    assert ";transport=tls>" == ";transport=tls" + ">";
    CertContact(user, host, cert);
    FcmContact(user, host, token);
    assert "<sip:" + user + "@" + host == "<sip:" + (user + "@" + host);
  }
}
