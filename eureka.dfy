/**
 * The registry client of package `eureka`: registering a service instance
 * with a Eureka registry by an HTTP POST of its JSON description, and
 * deregistering it by an HTTP DELETE of its resource.
 *
 * The network round trip is a parameter `roundTrip` (what the registry, or
 * the network, answers to a request), and whether `http.NewRequest` accepts a
 * URL is a parameter `urlOk`; neither is modelled further.
 */
module Eureka {
  import opened Wrappers
  import Utf8
  import Base64
  import opened Json

  // ---------------------------------------------------------------------
  // Configuration and instance description

  /** Go's `type Status string`: any string, with three named values. */
  type Status = string

  const StatusUp: Status := "UP"
  const StatusDown: Status := "DOWN"
  const StatusOutOfService: Status := "OUT_OF_SERVICE"

  /** What the caller passes to both operations. `app` is carried but not read
      by either operation. An empty `authHeader` means "not set". */
  datatype Config = Config(eurekaUrl: string, app: string, instance: InstanceData, authHeader: string)

  datatype InstanceData = InstanceData(
    instanceId: string,
    hostName: string,
    app: string,
    ipAddr: string,
    status: Status,
    port: PortData,
    securePort: PortData,
    homePageUrl: string,
    statusPageUrl: string,
    healthCheckUrl: string,
    vipAddress: string,
    secureVipAddress: string,
    countryId: int,
    dataCenterInfo: DataCenterInfoData)

  datatype PortData = PortData(value: int, enabled: string)

  /** `className` is the Go field `Class` (`class` is a Dafny keyword). */
  datatype DataCenterInfoData = DataCenterInfoData(className: string, name: string)

  // ---------------------------------------------------------------------
  // The JSON wire format: keys fixed by the struct tags, in field order

  const EnvelopeKey := "instance"
  const InstanceKeys: seq<string> := [
    "instanceId", "hostName", "app", "ipAddr", "status", "port", "securePort",
    "homePageUrl", "statusPageUrl", "healthCheckUrl", "vipAddress", "secureVipAddress",
    "countryId", "dataCenterInfo"]
  const PortKeys: seq<string> := ["$", "@enabled"]
  const DataCenterKeys: seq<string> := ["@class", "name"]

  function PortToJson(p: PortData): (v: Value)
    ensures v.JObject? && Keys(v.members) == PortKeys
    ensures PortFromJson(v) == Some(p)
  {
    JObject([("$", JNumber(p.value)), ("@enabled", JString(p.enabled))])
  }

  function DataCenterToJson(d: DataCenterInfoData): (v: Value)
    ensures v.JObject? && Keys(v.members) == DataCenterKeys
    ensures DataCenterFromJson(v) == Some(d)
  {
    JObject([("@class", JString(d.className)), ("name", JString(d.name))])
  }

  /** The JSON object `json.Marshal` makes of an InstanceData value; reading it
      back gives the same value. */
  function InstanceToJson(i: InstanceData): (v: Value)
    ensures v.JObject? && Keys(v.members) == InstanceKeys
    ensures InstanceFromJson(v) == Some(i)
  {
    JObject([
      ("instanceId", JString(i.instanceId)),
      ("hostName", JString(i.hostName)),
      ("app", JString(i.app)),
      ("ipAddr", JString(i.ipAddr)),
      ("status", JString(i.status)),
      ("port", PortToJson(i.port)),
      ("securePort", PortToJson(i.securePort)),
      ("homePageUrl", JString(i.homePageUrl)),
      ("statusPageUrl", JString(i.statusPageUrl)),
      ("healthCheckUrl", JString(i.healthCheckUrl)),
      ("vipAddress", JString(i.vipAddress)),
      ("secureVipAddress", JString(i.secureVipAddress)),
      ("countryId", JNumber(i.countryId)),
      ("dataCenterInfo", DataCenterToJson(i.dataCenterInfo))])
  }

  /** convertToJSON: the registration body, an object whose one member
      `instance` holds the instance. */
  function ConvertToJson(i: InstanceData): (v: Value)
    ensures v.JObject? && Keys(v.members) == [EnvelopeKey]
    ensures EnvelopeInstance(v) == Some(i)
  {
    JObject([(EnvelopeKey, InstanceToJson(i))])
  }

  // Reading the wire format back: the documents the encoder produces, and no
  // others with a different shape, are accepted.

  function PortFromJson(v: Value): Option<PortData> {
    if !v.JObject? || Keys(v.members) != PortKeys then None
    else
      var value :- AsInt(v.members[0].1);
      var enabled :- AsString(v.members[1].1);
      Some(PortData(value, enabled))
  }

  function DataCenterFromJson(v: Value): Option<DataCenterInfoData> {
    if !v.JObject? || Keys(v.members) != DataCenterKeys then None
    else
      var className :- AsString(v.members[0].1);
      var name :- AsString(v.members[1].1);
      Some(DataCenterInfoData(className, name))
  }

  function InstanceFromJson(v: Value): Option<InstanceData> {
    if !v.JObject? || Keys(v.members) != InstanceKeys then None
    else
      var m := v.members;
      var instanceId :- AsString(m[0].1);
      var hostName :- AsString(m[1].1);
      var app :- AsString(m[2].1);
      var ipAddr :- AsString(m[3].1);
      var status :- AsString(m[4].1);
      var port :- PortFromJson(m[5].1);
      var securePort :- PortFromJson(m[6].1);
      var homePageUrl :- AsString(m[7].1);
      var statusPageUrl :- AsString(m[8].1);
      var healthCheckUrl :- AsString(m[9].1);
      var vipAddress :- AsString(m[10].1);
      var secureVipAddress :- AsString(m[11].1);
      var countryId :- AsInt(m[12].1);
      var dataCenterInfo :- DataCenterFromJson(m[13].1);
      Some(InstanceData(instanceId, hostName, app, ipAddr, status, port, securePort,
                        homePageUrl, statusPageUrl, healthCheckUrl, vipAddress,
                        secureVipAddress, countryId, dataCenterInfo))
  }

  /** The instance a registration body carries, if it is an object with the
      single member `instance`. */
  function EnvelopeInstance(v: Value): Option<InstanceData> {
    if v.JObject? && Keys(v.members) == [EnvelopeKey] then InstanceFromJson(v.members[0].1) else None
  }

  // ---------------------------------------------------------------------
  // HTTP requests and outcomes

  const MethodPost := "POST"
  const MethodDelete := "DELETE"
  const ContentTypeHeader := "Content-Type"
  const AuthorizationHeader := "Authorization"
  const JsonMediaType := "application/json"
  const BasicPrefix := "Basic "

  const StatusOK := 200
  const StatusNoContent := 204

  /** An outgoing request; `verb` is the HTTP method. Each header has the single value `Header.Set` gave it;
      the body is the JSON document whose text is sent. */
  datatype Request = Request(verb: string, url: string, header: map<string, string>, body: Option<Value>)

  /** What one round trip of `http.DefaultClient.Do` ends in. */
  datatype Exchange = Failed(cause: string) | Response(status: int)

  datatype Error =
    | RequestBuildFailed
    | TransportFailed(cause: string)
    | RegistrationRejected(status: int)
    | DeregistrationRejected(status: int)

  /** The `error` result: Success is Go's nil. */
  datatype Outcome = Success | Failure(error: Error)

  /** http.NewRequest: a request exists exactly when the URL is accepted; it
      carries the method, URL and body it was given and no headers yet. */
  function NewRequest(verb: string, url: string, body: Option<Value>, urlOk: string -> bool): (r: Option<Request>)
    ensures r.Some? <==> urlOk(url)
    ensures r.Some? ==> r.value.verb == verb && r.value.url == url && r.value.body == body
    ensures r.Some? ==> r.value.header.Keys == {}
  {
    if urlOk(url) then Some(Request(verb, url, map[], body)) else None
  }

  /** Header.Set: the header `key` now has the single value `value`, replacing
      any earlier one; every other header and the rest of the request stay. */
  function SetHeader(req: Request, key: string, value: string): (r: Request)
    ensures r.verb == req.verb && r.url == req.url && r.body == req.body
    ensures r.header.Keys == req.header.Keys + {key} && r.header[key] == value
    ensures forall k :: k in req.header && k != key ==> r.header[k] == req.header[k]
  {
    req.(header := req.header[key := value])
  }

  /** The base 64 encoding of the bytes of `username:password`; decoding it
      gives the username's bytes, a colon and the password's bytes. */
  function EncodeCredentials(username: string, password: string): (r: string)
    ensures Base64.Decode(r) == Some(Utf8.Encode(username) + [':' as int] + Utf8.Encode(password))
  {
    Utf8.EncodeAppend(username + ":", password);
    Utf8.EncodeAppend(username, ":");
    assert Utf8.Encode(":") == [':' as int];
    Base64.DecodeEncode(Utf8.Encode(username + ":" + password));
    Base64.Encode(Utf8.Encode(username + ":" + password))
  }

  /** createHTTPRequest: a POST of `body` to `url` with a JSON content type and
      an Authorization header that is `customAuthHeader` when that is set and
      Basic authentication with the encoded credentials `authHeader` otherwise. */
  function CreateHttpRequest(url: string, body: Value, authHeader: string, customAuthHeader: string,
                             urlOk: string -> bool): (r: Option<Request>)
    ensures r.Some? <==> urlOk(url)
    ensures r.Some? ==> r.value.verb == MethodPost && r.value.url == url && r.value.body == Some(body)
    ensures r.Some? ==> r.value.header.Keys == {ContentTypeHeader, AuthorizationHeader}
    ensures r.Some? ==> r.value.header[ContentTypeHeader] == JsonMediaType
    ensures r.Some? && customAuthHeader != "" ==> r.value.header[AuthorizationHeader] == customAuthHeader
    ensures r.Some? && customAuthHeader == "" ==> r.value.header[AuthorizationHeader] == BasicPrefix + authHeader
  {
    var req :- NewRequest(MethodPost, url, Some(body), urlOk);
    var req := SetHeader(req, ContentTypeHeader, JsonMediaType);
    if customAuthHeader != "" then
      Some(SetHeader(req, AuthorizationHeader, customAuthHeader))
    else
      Some(SetHeader(req, AuthorizationHeader, BasicPrefix + authHeader))
  }

  // ---------------------------------------------------------------------
  // The wire contract of the two operations

  /** The Authorization value of a registration: the configured header
      verbatim when set, else Basic authentication. */
  function RegistrationAuthorization(config: Config, username: string, password: string): string {
    if config.authHeader != "" then config.authHeader
    else BasicPrefix + EncodeCredentials(username, password)
  }

  /** POST {EurekaURL} with a JSON content type, the registration
      Authorization, and a body whose one member `instance` reads back to the
      configured instance. */
  function RegistrationRequest(config: Config, username: string, password: string): (r: Request)
    ensures r.verb == MethodPost && r.url == config.eurekaUrl
    ensures r.header.Keys == {ContentTypeHeader, AuthorizationHeader}
    ensures r.header[ContentTypeHeader] == JsonMediaType
    ensures config.authHeader != "" ==> r.header[AuthorizationHeader] == config.authHeader
    ensures config.authHeader == "" ==>
      && BasicPrefix <= r.header[AuthorizationHeader]
      && Base64.Decode(r.header[AuthorizationHeader][|BasicPrefix|..])
         == Some(Utf8.Encode(username) + [':' as int] + Utf8.Encode(password))
    ensures r.body.Some? && EnvelopeInstance(r.body.value) == Some(config.instance)
  {
    Request(MethodPost, config.eurekaUrl,
            map[ContentTypeHeader := JsonMediaType,
                AuthorizationHeader := RegistrationAuthorization(config, username, password)],
            Some(ConvertToJson(config.instance)))
  }

  /** The instance's resource: the registry URL, a slash, the instance id. */
  function DeregistrationUrl(config: Config): string {
    config.eurekaUrl + "/" + config.instance.instanceId
  }

  /** DELETE {EurekaURL}/{instanceId} with no body and Basic authentication,
      whatever authHeader holds. */
  function DeregistrationRequest(config: Config, username: string, password: string): (r: Request)
    ensures r.verb == MethodDelete && r.url == config.eurekaUrl + "/" + config.instance.instanceId
    ensures r.body.None? && r.header.Keys == {AuthorizationHeader}
    ensures BasicPrefix <= r.header[AuthorizationHeader]
    ensures Base64.Decode(r.header[AuthorizationHeader][|BasicPrefix|..])
            == Some(Utf8.Encode(username) + [':' as int] + Utf8.Encode(password))
  {
    Request(MethodDelete, DeregistrationUrl(config),
            map[AuthorizationHeader := BasicPrefix + EncodeCredentials(username, password)],
            None)
  }

  // ---------------------------------------------------------------------
  // The two operations

  /** RegisterWithEureka. The stages run in order and the first failure is the
      result: building the request, then the round trip, then the status,
      which must be exactly 204 No Content. */
  function Register(config: Config, username: string, password: string,
                    urlOk: string -> bool, roundTrip: Request -> Exchange): (r: Outcome)
    ensures var sent := RegistrationRequest(config, username, password);
      && (r == Success <==> urlOk(config.eurekaUrl) && roundTrip(sent) == Response(StatusNoContent))
      && (!urlOk(config.eurekaUrl) ==> r == Failure(RequestBuildFailed))
      && (urlOk(config.eurekaUrl) && roundTrip(sent).Failed? ==> r == Failure(TransportFailed(roundTrip(sent).cause)))
      && (urlOk(config.eurekaUrl) && roundTrip(sent).Response? && roundTrip(sent).status != StatusNoContent
          ==> r == Failure(RegistrationRejected(roundTrip(sent).status)))
  {
    var jsonData := ConvertToJson(config.instance);
    var auth := EncodeCredentials(username, password);
    match CreateHttpRequest(config.eurekaUrl, jsonData, auth, config.authHeader, urlOk)
    case None => Failure(RequestBuildFailed)
    case Some(req) =>
      assert req == RegistrationRequest(config, username, password);
      match roundTrip(req)
      case Failed(cause) => Failure(TransportFailed(cause))
      case Response(status) =>
        if status != StatusNoContent then Failure(RegistrationRejected(status)) else Success
  }

  /** DeregisterWithEureka. Building the request, then the round trip, then the
      status, which must be exactly 200 OK. */
  function Deregister(config: Config, username: string, password: string,
                      urlOk: string -> bool, roundTrip: Request -> Exchange): (r: Outcome)
    ensures var url, sent := DeregistrationUrl(config), DeregistrationRequest(config, username, password);
      && (r == Success <==> urlOk(url) && roundTrip(sent) == Response(StatusOK))
      && (!urlOk(url) ==> r == Failure(RequestBuildFailed))
      && (urlOk(url) && roundTrip(sent).Failed? ==> r == Failure(TransportFailed(roundTrip(sent).cause)))
      && (urlOk(url) && roundTrip(sent).Response? && roundTrip(sent).status != StatusOK
          ==> r == Failure(DeregistrationRejected(roundTrip(sent).status)))
  {
    var auth := EncodeCredentials(username, password);
    match NewRequest(MethodDelete, config.eurekaUrl + "/" + config.instance.instanceId, None, urlOk)
    case None => Failure(RequestBuildFailed)
    case Some(req) =>
      var req := SetHeader(req, AuthorizationHeader, BasicPrefix + auth);
      assert req == DeregistrationRequest(config, username, password);
      match roundTrip(req)
      case Failed(cause) => Failure(TransportFailed(cause))
      case Response(status) =>
        if status != StatusOK then Failure(DeregistrationRejected(status)) else Success
  }
}
