// The Consul config entries the adapter writes, as far as it fills them in (Consul's api package).

module ConsulEntries {
  import opened Wrappers
  import opened Core

  datatype HeaderModifiers = HeaderModifiers(add: map<string, string>, put: map<string, string>, remove: seq<string>)

  const NO_MODIFIERS := HeaderModifiers(map[], map[], [])

  // An empty string in a match field means that the field is not set.
  datatype MatchHeader = MatchHeader(name: string, present: bool, exact: string, prefix: string,
                                     suffix: string, regex: string)

  datatype MatchQueryParam = MatchQueryParam(name: string, present: bool, exact: string, regex: string)

  datatype ServiceRouteMatch = ServiceRouteMatch(pathExact: string, pathPrefix: string, pathRegex: string,
                                                 headers: seq<MatchHeader>, queryParams: seq<MatchQueryParam>,
                                                 methods: seq<string>)

  datatype Destination = Destination(service: ResolvedService, prefixRewrite: string, requestHeaders: HeaderModifiers)

  datatype ServiceRoute = ServiceRoute(httpMatch: Option<ServiceRouteMatch>, destination: Destination)

  datatype ServiceRouter = ServiceRouter(name: string, namespace: string, meta: Meta, routes: seq<ServiceRoute>)

  datatype ServiceSplit = ServiceSplit(weight: real, service: ResolvedService, requestHeaders: HeaderModifiers)

  datatype ServiceSplitter = ServiceSplitter(name: string, namespace: string, meta: Meta, splits: seq<ServiceSplit>)

  datatype ServiceDefaults = ServiceDefaults(name: string, namespace: string, protocol: string, meta: Meta)

  /** Services that come from HTTP routes carry hosts; TCP services carry none. */
  datatype IngressService = IngressService(name: string, hosts: seq<string>, namespace: string)

  datatype GatewayTLS = GatewayTLS(minVersion: string, maxVersion: string, cipherSuites: seq<string>,
                                   certResource: Option<string>)

  datatype IngressListener = IngressListener(port: int, protocol: string, services: seq<IngressService>,
                                             tls: GatewayTLS)

  datatype IngressGateway = IngressGateway(name: string, namespace: string, meta: Meta,
                                           maxConnections: Option<int>, listeners: seq<IngressListener>)
}
