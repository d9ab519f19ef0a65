/**
 * The two parameter decorators that read request headers:
 * src/common/decorators/ip.decorator.ts (the client address) and
 * src/common/decorators/device-id.decorator.ts (the device id). Headers are
 * Node's lower-cased header map, where these names carry one string each.
 */
module RequestHeaders {
  import opened Wrappers
  import opened Strings

  type Headers = map<string, string>

  function Header(headers: Headers, name: string): Option<string>
  {
    if name in headers then Some(headers[name]) else None
  }

  /** `a || b` over optional strings: the empty string is falsy. */
  function Or(a: Option<string>, b: Option<string>): (r: Option<string>)
    ensures Present(a) ==> r == a
    ensures !Present(a) ==> r == b
  {
    if Present(a) then a else b
  }

  /** `... || undefined`: a falsy value becomes undefined. */
  function OrUndefined(a: Option<string>): (r: Option<string>)
    ensures r.Some? <==> Present(a)
    ensures r.Some? ==> r == a
  {
    if Present(a) then a else None
  }

  /** The first entry of a comma-separated list, trimmed. */
  function FirstForwarded(forwardedFor: string): (ip: string)
    ensures ',' !in ip && IsTrimmed(ip)
  {
    var first := Split(forwardedFor, ',')[0];
    var ip := Trim(first);
    assert forall i :: 0 <= i < |ip| ==> ip[i] in first;
    ip
  }

  /** The `Ip` decorator. */
  function ClientIp(headers: Headers, requestIp: Option<string>, remoteAddress: Option<string>): (ip: Option<string>)
    ensures Present(Header(headers, "x-forwarded-for")) ==>
      ip == Some(FirstForwarded(headers["x-forwarded-for"]))
    ensures !Present(Header(headers, "x-forwarded-for")) ==>
      ip == OrUndefined(Or(Header(headers, "x-real-ip"), Or(Header(headers, "x-client-ip"), Or(requestIp, remoteAddress))))
    ensures !Present(Header(headers, "x-forwarded-for")) && ip.Some? ==> ip.value != ""
  {
    var forwardedFor := Header(headers, "x-forwarded-for");
    if Present(forwardedFor) then Some(FirstForwarded(forwardedFor.value))
    else OrUndefined(Or(Header(headers, "x-real-ip"), Or(Header(headers, "x-client-ip"), Or(requestIp, remoteAddress))))
  }

  /** The first entry of 'client,proxies' is the client itself. */
  lemma FirstForwardedClient(client: string, proxies: string)
    requires ',' !in client && IsTrimmed(client)
    ensures FirstForwarded(client + "," + proxies) == client
  {
    assert client + "," + proxies == client + [','] + proxies;
    SplitAt(client, proxies, ',');
    TrimTrimmed(client);
  }

  /** A proxy chain 'client, proxy, ...' yields the client address, and the other headers do not matter. */
  lemma ForwardedClientWins(headers: Headers, client: string, proxies: string, requestIp: Option<string>,
                            remoteAddress: Option<string>)
    requires ',' !in client && IsTrimmed(client)
    requires headers == headers["x-forwarded-for" := client + "," + proxies]
    ensures ClientIp(headers, requestIp, remoteAddress) == Some(client)
  {
    var forwardedFor := client + "," + proxies;
    assert Header(headers, "x-forwarded-for") == Some(forwardedFor);
    assert forwardedFor[|client|] == ',';
    FirstForwardedClient(client, proxies);
  }

  /** Without x-forwarded-for, the first non-empty of x-real-ip, x-client-ip, request.ip and socket address wins. */
  lemma FallbackOrder(headers: Headers, requestIp: Option<string>, remoteAddress: Option<string>)
    requires !Present(Header(headers, "x-forwarded-for"))
    ensures var ip := ClientIp(headers, requestIp, remoteAddress);
      (Present(Header(headers, "x-real-ip")) ==> ip == Header(headers, "x-real-ip"))
      && (!Present(Header(headers, "x-real-ip")) && Present(Header(headers, "x-client-ip")) ==> ip == Header(headers, "x-client-ip"))
      && (!Present(Header(headers, "x-real-ip")) && !Present(Header(headers, "x-client-ip")) && Present(requestIp) ==> ip == requestIp)
      && (!Present(Header(headers, "x-real-ip")) && !Present(Header(headers, "x-client-ip")) && !Present(requestIp)
          ==> ip == OrUndefined(remoteAddress))
  {
  }

  /**
   * A non-empty x-forwarded-for whose first entry is blank is still taken,
   * and yields the empty string rather than falling back.
   */
  lemma BlankForwardedEntry(headers: Headers, requestIp: Option<string>, remoteAddress: Option<string>)
    requires headers == headers["x-forwarded-for" := " ,10.0.0.1"]
    ensures ClientIp(headers, requestIp, remoteAddress) == Some("")
  {
    assert " ,10.0.0.1" == " " + [','] + "10.0.0.1";
    SplitAt(" ", "10.0.0.1", ',');
    TrimBlank(" ");
  }

  /** The `DeviceId` decorator: `x-device-id || device-id || undefined`. */
  function DeviceId(headers: Headers): (id: Option<string>)
    ensures id.Some? ==> id.value != ""
    ensures Present(Header(headers, "x-device-id")) ==> id == Header(headers, "x-device-id")
    ensures !Present(Header(headers, "x-device-id")) ==> id == OrUndefined(Header(headers, "device-id"))
    ensures id.None? <==> !Present(Header(headers, "x-device-id")) && !Present(Header(headers, "device-id"))
  {
    OrUndefined(Or(Header(headers, "x-device-id"), Header(headers, "device-id")))
  }
}
