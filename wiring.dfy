/**
 * How the form and the relay fit together: the path the form posts to is the route the
 * relay serves, and a call the form sends becomes the intended upstream request. With
 * `Client.SendMessageChain`, `Client.SendFileByUrlChain` and `Client.ReadActions`, which say
 * which call each action sends, `CallReachesUpstream` follows an action through the relay.
 */
module Wiring {
  import opened Wrappers
  import opened Text
  import Json
  import Relay
  import Client

  /** A segment that reaches the route unchanged: non-empty, no `/` or `\` (both separate
      segments), no `?` or `#` (they end the path), not a dot segment (the browser removes
      it), no C0 control character U+0000 to U+001F (the browser deletes tab, line feed and
      carriage return anywhere and strips the others from the ends of the URL), and no `%`
      (Express decodes escapes, and `%2e` is a dot segment). */
  predicate PlainSegment(seg: string) {
    seg != "" && seg != "." && seg != ".."
    && '/' !in seg && '\\' !in seg && '?' !in seg && '#' !in seg && '%' !in seg
    && forall i :: 0 <= i < |seg| ==> seg[i] > '\U{1F}'
  }

  /** The token ends the URL, and the browser strips a space from the end of a URL, so the
      token must not end in one. */
  predicate PlainLastSegment(seg: string) {
    PlainSegment(seg) && seg[|seg| - 1] != ' '
  }

  /** The relay route recovers the credentials and endpoint from the form's path, provided
      each of them is a plain segment and the token does not end in a space. */
  lemma ProxyPathRoutes(c: Client.Credentials, endpoint: string)
    requires PlainSegment(c.idInstance) && PlainSegment(endpoint) && PlainLastSegment(c.apiTokenInstance)
    ensures Relay.RouteParams(Client.ProxyPath(c, endpoint))
      == Some(Relay.Params(c.idInstance, endpoint, c.apiTokenInstance))
  {
  }

  /** Conversely, every path the route accepts is a path the form builds. */
  lemma RoutedPathIsProxyPath(path: string)
    requires Relay.RouteParams(path).Some?
    ensures var p := Relay.RouteParams(path).value;
      path == Client.ProxyPath(Client.Credentials(p.idInstance, p.apiToken), p.apiMethod)
  {
    var segs := Split(path, '/');
    JoinSplit(path, '/');
    assert segs == ["", "api", "green-api", segs[3], segs[4], segs[5]];
    JoinOfSix("", "api", "green-api", segs[3], segs[4], segs[5], '/');
    assert "" + "/" + "api" + "/" + "green-api" == Client.ProxyBase;
  }

  /** A routed request always has its three parameters, so the relay's missing-parameter
      reply is never produced for it. */
  lemma RoutedRequestHasParams(path: string, body: Relay.RequestBody)
    requires Relay.RouteParams(path).Some?
    ensures var r := Relay.Prepare(Relay.RouteParams(path).value, body);
      r.Success? || r.error.category == Relay.InvalidCredentials
  {
  }

  /** A call the form posts for credentials that are not the placeholders becomes the
      request the relay hands to `fetch`: the upstream endpoint it names, the method it asks
      for, and its data as the body when that data is truthy. The form's own calls are a
      send action's object as the body of a POST and a read action's `null`, which leaves a
      GET without a body. */
  lemma CallReachesUpstream(c: Client.Credentials, endpoint: string, httpMethod: string, data: Json.Value)
    requires PlainSegment(c.idInstance) && PlainSegment(endpoint) && PlainLastSegment(c.apiTokenInstance)
    requires c.idInstance != "123" && c.apiTokenInstance != "asd"
    ensures var params := Relay.Params(c.idInstance, endpoint, c.apiTokenInstance);
      && Relay.RouteParams(Client.ProxyPath(c, endpoint)) == Some(params)
      && Relay.Prepare(params, Relay.RequestBody(Some(httpMethod), Some(data)))
         == Success(Relay.Outbound(Relay.UpstreamUrl(params), if httpMethod == "" then "GET" else httpMethod,
                                   "application/json", if Json.Truthy(data) then Some(data) else None))
  {
    ProxyPathRoutes(c, endpoint);
  }
}
