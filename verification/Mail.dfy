/** The values that cross package boundaries (internal/msg/msg.go and the route
    type of internal/config/config.go). */
module Mail {

  /** The outcome of one disposition attempt. */
  datatype Result = OK | TempFail | PermFail | Queued

  /** `Unset` is the absent match type, which Prepare turns into `Address`. */
  datatype MatchType = Unset | Address | Domain

  datatype RouteType =
    | Unrouted
    | CommandRoute(path: string)
    | WebhookRoute(url: string, secret: string)
    | ForwardRoute(host: string, port: int)

  datatype Route = Route(recipient: string, match_: MatchType, kind: RouteType, timeoutSec: int)

  datatype Message = Message(from: string, to: string, route: Route, body: string)
}
