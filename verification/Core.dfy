// The resolved, provider-neutral values that the Kubernetes layer hands to the Consul adapter
// (internal/core), together with the Option type used throughout the project.

module Wrappers {
  datatype Option<+T> = None | Some(value: T)
}

module Core {
  import opened Wrappers

  /** Identifies a gateway in the store and in the adapter. */
  datatype GatewayID = GatewayID(consulNamespace: string, service: string)

  datatype ResolvedService = ResolvedService(consulNamespace: string, service: string)

  type Meta = map<string, string>

  // ----- HTTP filters ---------------------------------------------------------------------

  datatype HTTPHeaderFilter = HTTPHeaderFilter(setHeaders: map<string, string>,
                                               addHeaders: map<string, string>,
                                               removeHeaders: seq<string>)

  datatype HTTPFilter =
    | HeaderFilter(header: HTTPHeaderFilter)
    | RedirectFilter(scheme: string, hostname: string, port: int, status: int)
    | URLRewriteFilter(replacesPrefix: bool, replacePrefixMatch: string)

  datatype HTTPService = HTTPService(service: ResolvedService, weight: int, filters: seq<HTTPFilter>)

  // ----- HTTP matches ---------------------------------------------------------------------

  datatype PathMatchType = PathNone | PathExact | PathPrefix | PathRegex
  datatype HTTPPathMatch = HTTPPathMatch(kind: PathMatchType, value: string)

  datatype HeaderMatchType =
    HeaderNone | HeaderExact | HeaderPrefix | HeaderSuffix | HeaderPresent | HeaderRegex
  datatype HTTPHeaderMatch = HTTPHeaderMatch(kind: HeaderMatchType, name: string, value: string)

  datatype QueryMatchType = QueryNone | QueryExact | QueryPresent | QueryRegex
  datatype HTTPQueryMatch = HTTPQueryMatch(kind: QueryMatchType, name: string, value: string)

  datatype HTTPMethod =
    MethodNone | Connect | Delete | Get | Head | Options | Patch | Post | Put | Trace

  datatype HTTPMatch = HTTPMatch(path: HTTPPathMatch,
                                 headers: seq<HTTPHeaderMatch>,
                                 query: seq<HTTPQueryMatch>,
                                 httpMethod: HTTPMethod)

  datatype HTTPRouteRule = HTTPRouteRule(matches: seq<HTTPMatch>,
                                         filters: seq<HTTPFilter>,
                                         services: seq<HTTPService>)

  // ----- Routes, listeners, gateways ------------------------------------------------------

  datatype ResolvedRoute =
    | HTTPRoute(meta: Meta, name: string, namespace: string,
                hostnames: seq<string>, rules: seq<HTTPRouteRule>)
    | TCPRoute(meta: Meta, name: string, namespace: string, service: ResolvedService)

  datatype TLSParams = TLSParams(minVersion: string, maxVersion: string,
                                 cipherSuites: seq<string>, certificates: seq<string>)

  const NO_TLS := TLSParams("", "", [], [])

  datatype ResolvedListener = ResolvedListener(name: string, hostname: string, port: int,
                                               protocol: string, tls: TLSParams,
                                               routes: seq<ResolvedRoute>)

  datatype ResolvedGateway = ResolvedGateway(id: GatewayID, meta: Meta,
                                             listeners: seq<ResolvedListener>,
                                             maxConnections: Option<int>)
}
