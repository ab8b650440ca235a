/**
 * The directions flow behind the two buttons of a marker's info window:
 * choosing an origin (the device position, or an address the user types
 * and the geocoder resolves), routing to the resource by its coordinates
 * and, failing that, by its address, and turning a final routing failure
 * into a message. Every external service is a parameter; what the page
 * does is recorded as a sequence of events in the order it happens.
 */
module Directions {
  import opened Optional

  /** A map position; only whether a coordinate is zero is ever inspected. */
  datatype Position = Position(lat: real, lng: real)

  /** Where a route starts or ends: a position or an address for the service to resolve. */
  datatype Place = At(position: Position) | Named(address: string)

  datatype RouteRequest = RouteRequest(origin: Place, destination: Place)

  /** The resource a route is planned to: its address and the coordinates geocoding gave it. */
  datatype Destination = Destination(address: string, lat: real, lng: real)

  /** What asking the device for its position comes to. */
  datatype Geolocation = Unsupported | PositionFailed | Located(position: Position)

  /** One observable step of the flow. */
  datatype Event =
    | Locate                        // the device is asked for its position
    | AskOrigin                     // the user is prompted for a start address
    | Geocode(address: string)      // the geocoder is asked to resolve a start address
    | OpenPanel                     // the directions panel is shown and the renderer reset
    | Route(request: RouteRequest)  // the route service is asked for a driving route
    | Render(request: RouteRequest) // the route found for this request is drawn
    | Alert(message: string)        // a message is shown to the user

  const NoGeolocationMessage: string := "您的瀏覽器不支持地理定位功能，請使用自訂出發地。"
  const NoPositionMessage: string := "無法獲取您的當前位置，請使用自訂出發地。"
  const NoOriginMessage: string := "未提供出發地點，無法規劃路線。"
  const RoutingFailed: string := "無法規劃路線"

  function UnknownOriginMessage(startAddress: string): string {
    "無法識別出發地址「" + startAddress + "」，請提供更精確的地址。"
  }

  /** `handleRoutingError`: the message shown for a route status other than OK. */
  function RoutingErrorMessage(status: string): string {
    RoutingFailed +
    if status == "ZERO_RESULTS" then "：找不到可行駛的路線。"
    else if status == "NOT_FOUND" then "：找不到起點或終點位置。"
    else if status == "OVER_QUERY_LIMIT" then "：API使用超出限制，請稍後再試。"
    else if status == "REQUEST_DENIED" then "：請求被拒絕，可能需要API金鑰。"
    else if status == "INVALID_REQUEST" then "：請求無效，請檢查參數。"
    else "：" + status
  }

  predicate KnownStatus(status: string) {
    status in {"ZERO_RESULTS", "NOT_FOUND", "OVER_QUERY_LIMIT", "REQUEST_DENIED", "INVALID_REQUEST"}
  }

  /** `destLat && destLng`: a coordinate is truthy when it is not zero. */
  predicate CoordinatesKnown(dest: Destination) {
    dest.lat != 0.0 && dest.lng != 0.0
  }

  function CoordinateRequest(origin: Place, dest: Destination): RouteRequest {
    RouteRequest(origin, At(Position(dest.lat, dest.lng)))
  }

  function AddressRequest(origin: Place, dest: Destination): RouteRequest {
    RouteRequest(origin, Named(dest.address))
  }

  /** `tryRouteWithAddress`: one request to the address; drawn on OK, otherwise reported. */
  function AddressRoute(origin: Place, dest: Destination, route: RouteRequest -> string): seq<Event> {
    var request := AddressRequest(origin, dest);
    [Route(request)] +
    if route(request) == "OK" then [Render(request)] else [Alert(RoutingErrorMessage(route(request)))]
  }

  /** `calculateRoute`: the coordinates first when they are known, the address when they are not or fail. */
  function RouteEvents(origin: Place, dest: Destination, route: RouteRequest -> string): seq<Event> {
    [OpenPanel] +
    if CoordinatesKnown(dest) then
      var request := CoordinateRequest(origin, dest);
      [Route(request)] +
      if route(request) == "OK" then [Render(request)] else AddressRoute(origin, dest, route)
    else AddressRoute(origin, dest, route)
  }

  /** A prompt answer the page accepts: not cancelled (`null`) and not empty. */
  predicate Answered(answer: Option<string>) {
    answer.Some? && answer.value != ""
  }

  /** `showDirectionsWithCustomLocation`: prompt, geocode the answer, then route from where it resolved. */
  function CustomEvents(dest: Destination, answer: Option<string>,
                        geocode: string -> Option<Position>, route: RouteRequest -> string): seq<Event>
  {
    [AskOrigin] +
    if !Answered(answer) then [Alert(NoOriginMessage)]
    else
      [Geocode(answer.value)] +
      match geocode(answer.value)
      case Some(p) => RouteEvents(At(p), dest, route)
      case None => [Alert(UnknownOriginMessage(answer.value))]
  }

  /** `showDirectionsWithCurrentLocation`: the device position when there is one, else the custom flow. */
  function CurrentEvents(dest: Destination, geolocation: Geolocation, answer: Option<string>,
                         geocode: string -> Option<Position>, route: RouteRequest -> string): seq<Event>
  {
    match geolocation
    case Unsupported => [Alert(NoGeolocationMessage)] + CustomEvents(dest, answer, geocode, route)
    case PositionFailed => [Locate, Alert(NoPositionMessage)] + CustomEvents(dest, answer, geocode, route)
    case Located(p) => [Locate] + RouteEvents(At(p), dest, route)
  }

  /** The route requests among the events, in order. */
  function Routes(events: seq<Event>): seq<RouteRequest> {
    if events == [] then []
    else (if events[0].Route? then [events[0].request] else []) + Routes(events[1..])
  }

  /** The geocoder requests among the events, in order. */
  function Geocodes(events: seq<Event>): seq<Event> {
    if events == [] then []
    else (if events[0].Geocode? then [events[0]] else []) + Geocodes(events[1..])
  }

  lemma {:induction false} RoutesAppend(a: seq<Event>, b: seq<Event>)
    ensures Routes(a + b) == Routes(a) + Routes(b)
    ensures Geocodes(a + b) == Geocodes(a) + Geocodes(b)
  {
    RoutesOfAppend(a, b);
    GeocodesOfAppend(a, b);
  }

  lemma {:induction false} RoutesOfAppend(a: seq<Event>, b: seq<Event>)
    ensures Routes(a + b) == Routes(a) + Routes(b)
  {
    if a == [] {
      assert a + b == b;
    } else {
      RoutesOfAppend(a[1..], b);
      DropAppend(a, b);
      var h := if a[0].Route? then [a[0].request] else [];
      assert Routes(a + b) == h + Routes(a[1..] + b);
    }
  }

  lemma {:induction false} GeocodesOfAppend(a: seq<Event>, b: seq<Event>)
    ensures Geocodes(a + b) == Geocodes(a) + Geocodes(b)
  {
    if a == [] {
      assert a + b == b;
    } else {
      GeocodesOfAppend(a[1..], b);
      DropAppend(a, b);
      var h := if a[0].Geocode? then [a[0]] else [];
      assert Geocodes(a + b) == h + Geocodes(a[1..] + b);
    }
  }

  lemma DropAppend(a: seq<Event>, b: seq<Event>)
    requires a != []
    ensures (a + b)[0] == a[0] && (a + b)[1..] == a[1..] + b
  {
  }

  lemma AddressRouteShape(origin: Place, dest: Destination, route: RouteRequest -> string)
    ensures Routes(AddressRoute(origin, dest, route)) == [AddressRequest(origin, dest)]
    ensures Geocodes(AddressRoute(origin, dest, route)) == []
  {
    var request := AddressRequest(origin, dest);
    var last := if route(request) == "OK" then [Render(request)] else [Alert(RoutingErrorMessage(route(request)))];
    RoutesAppend([Route(request)], last);
  }

  /**
   * The route requests `calculateRoute` makes: the coordinate request exactly
   * when the coordinates are known, then the address request exactly when
   * there were no coordinates or the coordinate request failed; so at most two.
   */
  lemma RouteRequests(origin: Place, dest: Destination, route: RouteRequest -> string)
    ensures Routes(RouteEvents(origin, dest, route)) ==
              (if CoordinatesKnown(dest) then [CoordinateRequest(origin, dest)] else []) +
              (if !CoordinatesKnown(dest) || route(CoordinateRequest(origin, dest)) != "OK"
               then [AddressRequest(origin, dest)] else [])
    ensures |Routes(RouteEvents(origin, dest, route))| <= 2
    ensures Geocodes(RouteEvents(origin, dest, route)) == []
  {
    AddressRouteShape(origin, dest, route);
    var tail := AddressRoute(origin, dest, route);
    if CoordinatesKnown(dest) {
      var request := CoordinateRequest(origin, dest);
      var more := if route(request) == "OK" then [Render(request)] else tail;
      RoutesAppend([Route(request)], more);
      RoutesAppend([OpenPanel], [Route(request)] + more);
    } else {
      RoutesAppend([OpenPanel], tail);
    }
  }

  /** The coordinate request is made exactly when the coordinates are known. */
  lemma CoordinatesFirst(origin: Place, dest: Destination, route: RouteRequest -> string)
    ensures CoordinateRequest(origin, dest) in Routes(RouteEvents(origin, dest, route)) <==> CoordinatesKnown(dest)
    ensures AddressRequest(origin, dest) in Routes(RouteEvents(origin, dest, route)) <==>
              !CoordinatesKnown(dest) || route(CoordinateRequest(origin, dest)) != "OK"
  {
    RouteRequests(origin, dest, route);
  }

  /**
   * How routing ends: with the route of the last request drawn when its status
   * is OK, otherwise with the message for the address request's status.
   */
  lemma RouteOutcome(origin: Place, dest: Destination, route: RouteRequest -> string)
    ensures var events := RouteEvents(origin, dest, route);
            var last := events[|events| - 1];
            var coord, addr := CoordinateRequest(origin, dest), AddressRequest(origin, dest);
            if CoordinatesKnown(dest) && route(coord) == "OK" then last == Render(coord)
            else if route(addr) == "OK" then last == Render(addr)
            else last == Alert(RoutingErrorMessage(route(addr)))
  {
  }

  /** Every failure message starts with the common text; an unknown status is appended verbatim after a colon. */
  lemma RoutingErrorShape(status: string)
    ensures |RoutingFailed| < |RoutingErrorMessage(status)|
    ensures RoutingErrorMessage(status)[..|RoutingFailed|] == RoutingFailed
    ensures !KnownStatus(status) ==> RoutingErrorMessage(status) == RoutingFailed + "：" + status
  {
  }

  /** The status of an unknown failure can be read back from its message. */
  lemma UnknownStatusRecoverable(status: string)
    requires !KnownStatus(status)
    ensures RoutingErrorMessage(status)[|RoutingFailed| + 1..] == status
  {
    RoutingErrorShape(status);
    assert RoutingErrorMessage(status) == (RoutingFailed + "：") + status;
  }

  /** A cancelled or empty prompt ends the flow with one message and no geocode or route request. */
  lemma NoAnswerNoRequest(dest: Destination, answer: Option<string>,
                          geocode: string -> Option<Position>, route: RouteRequest -> string)
    requires !Answered(answer)
    ensures CustomEvents(dest, answer, geocode, route) == [AskOrigin, Alert(NoOriginMessage)]
    ensures Routes(CustomEvents(dest, answer, geocode, route)) == []
    ensures Geocodes(CustomEvents(dest, answer, geocode, route)) == []
  {
    assert Routes([Alert(NoOriginMessage)]) == [];
    assert Geocodes([Alert(NoOriginMessage)]) == [];
  }

  /**
   * The custom flow geocodes the answer once; it routes from the resolved
   * position when there is one and makes no route request when there is not.
   */
  lemma CustomRequests(dest: Destination, answer: Option<string>,
                       geocode: string -> Option<Position>, route: RouteRequest -> string)
    requires Answered(answer)
    ensures Geocodes(CustomEvents(dest, answer, geocode, route)) == [Geocode(answer.value)]
    ensures geocode(answer.value).None? ==>
              CustomEvents(dest, answer, geocode, route) ==
                [AskOrigin, Geocode(answer.value), Alert(UnknownOriginMessage(answer.value))] &&
              Routes(CustomEvents(dest, answer, geocode, route)) == []
    ensures geocode(answer.value).Some? ==>
              Routes(CustomEvents(dest, answer, geocode, route)) == Routes(RouteEvents(At(geocode(answer.value).value), dest, route))
  {
    var s := answer.value;
    var rest := match geocode(s)
      case Some(p) => RouteEvents(At(p), dest, route)
      case None => [Alert(UnknownOriginMessage(s))];
    if geocode(s).Some? {
      RouteRequests(At(geocode(s).value), dest, route);
    }
    RoutesAppend([Geocode(s)], rest);
    RoutesAppend([AskOrigin], [Geocode(s)] + rest);
  }

  /** With a device position no prompt and no geocode happen, and routing starts from that position. */
  lemma CurrentLocated(dest: Destination, position: Position, answer: Option<string>,
                       geocode: string -> Option<Position>, route: RouteRequest -> string)
    ensures AskOrigin !in CurrentEvents(dest, Located(position), answer, geocode, route)
    ensures Geocodes(CurrentEvents(dest, Located(position), answer, geocode, route)) == []
    ensures Routes(CurrentEvents(dest, Located(position), answer, geocode, route)) ==
              Routes(RouteEvents(At(position), dest, route))
    ensures |Routes(CurrentEvents(dest, Located(position), answer, geocode, route))| <= 2
  {
    var events := RouteEvents(At(position), dest, route);
    RouteRequests(At(position), dest, route);
    RoutesAppend([Locate], events);
    assert AskOrigin !in events by {
      AddressRouteNoPrompt(At(position), dest, route);
    }
  }

  lemma AddressRouteNoPrompt(origin: Place, dest: Destination, route: RouteRequest -> string)
    ensures AskOrigin !in RouteEvents(origin, dest, route)
  {
  }

  /** The messages and device query that precede the custom flow when there is no device position. */
  function FallbackPrefix(geolocation: Geolocation): seq<Event> {
    match geolocation
    case Unsupported => [Alert(NoGeolocationMessage)]
    case PositionFailed => [Locate, Alert(NoPositionMessage)]
    case Located(_) => []
  }

  /** Without a device position the user is told why, and the custom flow follows. */
  lemma CurrentFallback(dest: Destination, geolocation: Geolocation, answer: Option<string>,
                        geocode: string -> Option<Position>, route: RouteRequest -> string)
    requires !geolocation.Located?
    ensures CurrentEvents(dest, geolocation, answer, geocode, route) ==
              FallbackPrefix(geolocation) + CustomEvents(dest, answer, geocode, route)
    ensures Alert(if geolocation.Unsupported? then NoGeolocationMessage else NoPositionMessage) in FallbackPrefix(geolocation)
  {
  }

  /** The fallback issues exactly the custom flow's requests, so again at most two route requests. */
  lemma CurrentFallbackRequests(dest: Destination, geolocation: Geolocation, answer: Option<string>,
                                geocode: string -> Option<Position>, route: RouteRequest -> string)
    requires !geolocation.Located?
    ensures Routes(CurrentEvents(dest, geolocation, answer, geocode, route)) == Routes(CustomEvents(dest, answer, geocode, route))
    ensures Geocodes(CurrentEvents(dest, geolocation, answer, geocode, route)) == Geocodes(CustomEvents(dest, answer, geocode, route))
    ensures |Routes(CurrentEvents(dest, geolocation, answer, geocode, route))| <= 2
  {
    var prefix := FallbackPrefix(geolocation);
    CurrentFallback(dest, geolocation, answer, geocode, route);
    CustomBound(dest, answer, geocode, route);
    RoutesAppend(prefix, CustomEvents(dest, answer, geocode, route));
    assert Routes(prefix) == [] && Geocodes(prefix) == [] by {
      if geolocation.PositionFailed? {
        assert prefix == [Locate] + [Alert(NoPositionMessage)];
        RoutesAppend([Locate], [Alert(NoPositionMessage)]);
      }
    }
  }

  lemma CustomBound(dest: Destination, answer: Option<string>,
                    geocode: string -> Option<Position>, route: RouteRequest -> string)
    ensures |Routes(CustomEvents(dest, answer, geocode, route))| <= 2
  {
    if Answered(answer) {
      CustomRequests(dest, answer, geocode, route);
      if geocode(answer.value).Some? {
        RouteRequests(At(geocode(answer.value).value), dest, route);
      }
    } else {
      NoAnswerNoRequest(dest, answer, geocode, route);
    }
  }

  /**
   * A resource with coordinates, a device position, and a route service that
   * finds nothing either way: two route requests, then the no-route message.
   */
  lemma NoRouteEitherWay(dest: Destination, position: Position, answer: Option<string>,
                         geocode: string -> Option<Position>, route: RouteRequest -> string)
    requires CoordinatesKnown(dest)
    requires forall request :: route(request) == "ZERO_RESULTS"
    ensures CurrentEvents(dest, Located(position), answer, geocode, route) ==
              [Locate, OpenPanel,
               Route(RouteRequest(At(position), At(Position(dest.lat, dest.lng)))),
               Route(RouteRequest(At(position), Named(dest.address))),
               Alert("無法規劃路線：找不到可行駛的路線。")]
  {
    var origin := At(position);
    assert route(AddressRequest(origin, dest)) == "ZERO_RESULTS";
    assert route(CoordinateRequest(origin, dest)) == "ZERO_RESULTS";
    assert RoutingErrorMessage("ZERO_RESULTS") == "無法規劃路線：找不到可行駛的路線。";
  }

  /** `tryRouteWithAddress` as the page runs it. */
  method TryRouteWithAddress(origin: Place, dest: Destination, route: RouteRequest -> string)
    returns (events: seq<Event>)
    ensures events == AddressRoute(origin, dest, route)
  {
    var request := RouteRequest(origin, Named(dest.address));
    events := [Route(request)];
    var status := route(request);
    if status == "OK" {
      events := events + [Render(request)];
    } else {
      events := events + [Alert(RoutingErrorMessage(status))];
    }
  }

  /** `calculateRoute` as the page runs it. */
  method CalculateRoute(origin: Place, dest: Destination, route: RouteRequest -> string)
    returns (events: seq<Event>)
    ensures events == RouteEvents(origin, dest, route)
  {
    events := [OpenPanel];
    if dest.lat != 0.0 && dest.lng != 0.0 {
      var request := RouteRequest(origin, At(Position(dest.lat, dest.lng)));
      events := events + [Route(request)];
      var status := route(request);
      if status == "OK" {
        events := events + [Render(request)];
        return;
      }
    }
    var more := TryRouteWithAddress(origin, dest, route);
    events := events + more;
  }

  /** `showDirectionsWithCustomLocation` as the page runs it; `answer` is what the prompt returns. */
  method ShowDirectionsWithCustomLocation(dest: Destination, answer: Option<string>,
                                          geocode: string -> Option<Position>, route: RouteRequest -> string)
    returns (events: seq<Event>)
    ensures events == CustomEvents(dest, answer, geocode, route)
  {
    events := [AskOrigin];
    if answer.None? || answer.value == "" {
      events := events + [Alert(NoOriginMessage)];
      return;
    }
    var startAddress := answer.value;
    events := events + [Geocode(startAddress)];
    match geocode(startAddress) {
      case Some(origin) =>
        var more := CalculateRoute(At(origin), dest, route);
        events := events + more;
      case None =>
        events := events + [Alert(UnknownOriginMessage(startAddress))];
    }
  }

  /** `showDirectionsWithCurrentLocation` as the page runs it; `geolocation` is what the device reports. */
  method ShowDirectionsWithCurrentLocation(dest: Destination, geolocation: Geolocation, answer: Option<string>,
                                           geocode: string -> Option<Position>, route: RouteRequest -> string)
    returns (events: seq<Event>)
    ensures events == CurrentEvents(dest, geolocation, answer, geocode, route)
  {
    if geolocation.Unsupported? {
      var more := ShowDirectionsWithCustomLocation(dest, answer, geocode, route);
      return [Alert(NoGeolocationMessage)] + more;
    }
    events := [Locate];
    match geolocation {
      case Located(origin) =>
        var more := CalculateRoute(At(origin), dest, route);
        events := events + more;
      case PositionFailed =>
        var more := ShowDirectionsWithCustomLocation(dest, answer, geocode, route);
        events := events + [Alert(NoPositionMessage)] + more;
    }
  }
}
