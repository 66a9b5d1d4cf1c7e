/**
 * Properties of the registry client: what each request carries, which
 * status means success, and which failure wins; and the scenarios of the
 * package's tests, stated against registries written as functions.
 */
module EurekaProperties {
  import opened Wrappers
  import Utf8
  import Base64
  import opened Json
  import opened Eureka

  // ---------------------------------------------------------------------
  // Reading the Authorization header the way a registry does

  /** The credential bytes of a Basic Authorization value, as a registry
      decodes them (section 2 of RFC 7617). */
  function BasicCredentialBytes(header: string): Option<seq<Utf8.Byte>> {
    if |header| >= |BasicPrefix| && header[..|BasicPrefix|] == BasicPrefix
    then Base64.Decode(header[|BasicPrefix|..])
    else None
  }

  /** The user-id and password of decoded credentials: the bytes before and
      after the first colon. */
  function SplitAtColon(b: seq<Utf8.Byte>): Option<(seq<Utf8.Byte>, seq<Utf8.Byte>)> {
    if b == [] then None
    else if b[0] == ':' as int then Some(([], b[1..]))
    else
      var (user, pass) :- SplitAtColon(b[1..]);
      Some(([b[0]] + user, pass))
  }

  lemma {:induction false} SplitAtFirstColon(user: seq<Utf8.Byte>, pass: seq<Utf8.Byte>)
    requires ':' as int !in user
    ensures SplitAtColon(user + [':' as int] + pass) == Some((user, pass))
  {
    if user != [] {
      SplitAtFirstColon(user[1..], pass);
      assert (user + [':' as int] + pass)[1..] == user[1..] + [':' as int] + pass;
      assert user == [user[0]] + user[1..];
    }
  }

  /** Basic authentication as the client writes it decodes to the bytes of
      `username:password`, and, when the username holds no colon, a registry
      splits them back into exactly the username and the password. */
  lemma {:induction false} BasicAuthorizationDecodes(username: string, password: string)
    ensures var header := BasicPrefix + EncodeCredentials(username, password);
      && BasicCredentialBytes(header) == Some(Utf8.Encode(username) + [':' as int] + Utf8.Encode(password))
      && (':' !in username ==>
            SplitAtColon(BasicCredentialBytes(header).value) == Some((Utf8.Encode(username), Utf8.Encode(password))))
  {
    var header := BasicPrefix + EncodeCredentials(username, password);
    assert header[..|BasicPrefix|] == BasicPrefix && header[|BasicPrefix|..] == EncodeCredentials(username, password);
    if ':' !in username {
      Utf8.AsciiByteOccurs(username, ':');
      SplitAtFirstColon(Utf8.Encode(username), Utf8.Encode(password));
    }
  }

  /** A colon in the username makes Basic authentication ambiguous: these two
      pairs of credentials send the same header. */
  lemma ColonInUsernameIsAmbiguous()
    ensures EncodeCredentials("a:b", "c") == EncodeCredentials("a", "b:c")
  {
    assert "a:b" + ":" + "c" == "a" + ":" + "b:c";
  }

  // ---------------------------------------------------------------------
  // Register: the request

  /** With AuthHeader set, registration sends it verbatim, and the username
      and password make no difference to anything Register does. */
  lemma RegisterCustomAuthorization(config: Config, u1: string, p1: string, u2: string, p2: string,
                                    urlOk: string -> bool, roundTrip: Request -> Exchange)
    requires config.authHeader != ""
    ensures RegistrationRequest(config, u1, p1).header[AuthorizationHeader] == config.authHeader
    ensures Register(config, u1, p1, urlOk, roundTrip) == Register(config, u2, p2, urlOk, roundTrip)
  {
  }

  /** With AuthHeader empty, registration sends Basic authentication for the
      given username and password. */
  lemma RegisterBasicAuthorization(config: Config, username: string, password: string)
    requires config.authHeader == ""
    ensures var header := RegistrationRequest(config, username, password).header[AuthorizationHeader];
      && header == BasicPrefix + Base64.Encode(Utf8.Encode(username + ":" + password))
      && BasicCredentialBytes(header) == Some(Utf8.Encode(username) + [':' as int] + Utf8.Encode(password))
  {
    BasicAuthorizationDecodes(username, password);
  }

  /** Registration is a POST to exactly EurekaURL with a JSON content type, and
      its body is an object whose only member `instance` holds the instance,
      with `instance.instanceId` the configured instance id. */
  lemma RegisterRequestShape(config: Config, username: string, password: string)
    ensures var req := RegistrationRequest(config, username, password);
      && req.verb == "POST" && req.url == config.eurekaUrl
      && req.header.Keys == {"Content-Type", "Authorization"}
      && req.header["Content-Type"] == "application/json"
      && req.body.Some? && req.body.value.JObject? && Keys(req.body.value.members) == ["instance"]
      && EnvelopeInstance(req.body.value) == Some(config.instance)
      && Member(req.body.value, "instance").Some?
      && Member(Member(req.body.value, "instance").value, "instanceId") == Some(JString(config.instance.instanceId))
  {
  }

  /** The serialized instance has exactly the tagged keys in field order; the
      two ports are `{"$": value, "@enabled": enabled}` and the data center is
      `{"@class": class, "name": name}`. */
  lemma InstanceJsonShape(i: InstanceData)
    ensures var v := InstanceToJson(i);
      && Keys(v.members) == ["instanceId", "hostName", "app", "ipAddr", "status", "port", "securePort",
                             "homePageUrl", "statusPageUrl", "healthCheckUrl", "vipAddress",
                             "secureVipAddress", "countryId", "dataCenterInfo"]
      && v.members[4].1 == JString(i.status)
      && v.members[5].1 == JObject([("$", JNumber(i.port.value)), ("@enabled", JString(i.port.enabled))])
      && v.members[6].1 == JObject([("$", JNumber(i.securePort.value)), ("@enabled", JString(i.securePort.enabled))])
      && v.members[12].1 == JNumber(i.countryId)
      && v.members[13].1 == JObject([("@class", JString(i.dataCenterInfo.className)), ("name", JString(i.dataCenterInfo.name))])
  {
  }

  /** Serializing is one-to-one: different instances have different bodies. */
  lemma ConvertToJsonInjective(a: InstanceData, b: InstanceData)
    requires ConvertToJson(a) == ConvertToJson(b)
    ensures a == b
  {
    assert EnvelopeInstance(ConvertToJson(a)) == Some(a);
  }

  // ---------------------------------------------------------------------
  // Register: outcome and order of failures

  /** Registration succeeds only on 204: every other status, 200 included, is
      a rejection that carries the status. */
  lemma RegisterStatus(config: Config, username: string, password: string, urlOk: string -> bool, status: int)
    requires urlOk(config.eurekaUrl)
    ensures Register(config, username, password, urlOk, _ => Response(status))
            == if status == 204 then Success else Failure(RegistrationRejected(status))
  {
  }

  /** A URL that cannot be built into a request fails before any round trip:
      what the network would answer makes no difference. */
  lemma RegisterBuildFailsFirst(config: Config, username: string, password: string, urlOk: string -> bool,
                                rt1: Request -> Exchange, rt2: Request -> Exchange)
    requires !urlOk(config.eurekaUrl)
    ensures Register(config, username, password, urlOk, rt1) == Failure(RequestBuildFailed)
    ensures Register(config, username, password, urlOk, rt1) == Register(config, username, password, urlOk, rt2)
  {
  }

  /** A failed round trip is reported as a transport failure with its cause,
      never as a rejection, and no status is looked at. */
  lemma RegisterTransportFailure(config: Config, username: string, password: string, urlOk: string -> bool,
                                 cause: string)
    requires urlOk(config.eurekaUrl)
    ensures Register(config, username, password, urlOk, _ => Failed(cause)) == Failure(TransportFailed(cause))
  {
  }

  // ---------------------------------------------------------------------
  // Deregister

  /** Deregistration is a DELETE of EurekaURL/instanceId with no body and only
      a Basic Authorization header. */
  lemma DeregisterRequestShape(config: Config, username: string, password: string)
    ensures var req := DeregistrationRequest(config, username, password);
      && req.verb == "DELETE" && req.url == config.eurekaUrl + "/" + config.instance.instanceId
      && req.body.None?
      && req.header.Keys == {"Authorization"}
      && req.header["Authorization"] == "Basic " + Base64.Encode(Utf8.Encode(username + ":" + password))
      && BasicCredentialBytes(req.header["Authorization"])
         == Some(Utf8.Encode(username) + [':' as int] + Utf8.Encode(password))
  {
    BasicAuthorizationDecodes(username, password);
  }

  /** Deregistration ignores AuthHeader: setting it to anything changes nothing. */
  lemma DeregisterIgnoresAuthHeader(config: Config, authHeader: string, username: string, password: string,
                                    urlOk: string -> bool, roundTrip: Request -> Exchange)
    ensures Deregister(config.(authHeader := authHeader), username, password, urlOk, roundTrip)
            == Deregister(config, username, password, urlOk, roundTrip)
  {
  }

  /** Deregistration succeeds only on 200; every other status is a rejection. */
  lemma DeregisterStatus(config: Config, username: string, password: string, urlOk: string -> bool, status: int)
    requires urlOk(DeregistrationUrl(config))
    ensures Deregister(config, username, password, urlOk, _ => Response(status))
            == if status == 200 then Success else Failure(DeregistrationRejected(status))
  {
  }

  lemma DeregisterBuildFailsFirst(config: Config, username: string, password: string, urlOk: string -> bool,
                                  rt1: Request -> Exchange, rt2: Request -> Exchange)
    requires !urlOk(DeregistrationUrl(config))
    ensures Deregister(config, username, password, urlOk, rt1) == Failure(RequestBuildFailed)
    ensures Deregister(config, username, password, urlOk, rt1) == Deregister(config, username, password, urlOk, rt2)
  {
  }

  lemma DeregisterTransportFailure(config: Config, username: string, password: string, urlOk: string -> bool,
                                   cause: string)
    requires urlOk(DeregistrationUrl(config))
    ensures Deregister(config, username, password, urlOk, _ => Failed(cause)) == Failure(TransportFailed(cause))
  {
  }

  /** A registry that accepts only a bearer token accepts the registration
      made with that token as AuthHeader and refuses the deregistration,
      which sends Basic authentication instead. */
  lemma CustomAuthorizationOnlyRegisters(config: Config, username: string, password: string, urlOk: string -> bool)
    requires config.authHeader == "Bearer token"
    requires urlOk(config.eurekaUrl) && urlOk(DeregistrationUrl(config))
    ensures var registry := (req: Request) =>
        if AuthorizationHeader in req.header && req.header[AuthorizationHeader] == "Bearer token"
        then Response(if req.verb == MethodPost then 204 else 200)
        else Response(401);
      && Register(config, username, password, urlOk, registry) == Success
      && Deregister(config, username, password, urlOk, registry) == Failure(DeregistrationRejected(401))
  {
    var basic := BasicPrefix + EncodeCredentials(username, password);
    assert basic[1] == 'a' && "Bearer token"[1] == 'e';
  }

  // ---------------------------------------------------------------------
  // The scenarios of eureka_test.go

  /** The instance of the tests: an id and Go's zero values elsewhere. */
  function TestInstance(): InstanceData {
    InstanceData("test-instance", "", "", "", "", PortData(0, ""), PortData(0, ""),
                 "", "", "", "", "", 0, DataCenterInfoData("", ""))
  }

  const TestUsername := "testuser"
  const TestPassword := "testpassword"

  function TestConfig(url: string): Config {
    Config(url, "test-app", TestInstance(), "")
  }

  /** The mock registry of TestRegisterWithEureka. It answers 401 unless the
      Basic header for testuser/testpassword is sent, and 400 when the body is
      not a JSON object (an empty body, or JSON that does not decode into a
      map). Its type assertions are unchecked: when `instance` is missing or
      not an object, or `instance.instanceId` is missing or not a string, the
      handler panics, the server drops the connection and the client sees a
      transport failure. Otherwise it answers 400 for an instance id other
      than "test-instance" and 204 for that one. */
  function CheckingRegistry(req: Request): Exchange {
    var expected := "Basic " + Base64.Encode(Utf8.Encode(TestUsername + ":" + TestPassword));
    if AuthorizationHeader !in req.header || req.header[AuthorizationHeader] != expected then Response(401)
    else if req.body.None? || !(req.body.value.JObject? || req.body.value.JNull?) then Response(400)
    else
      var instance := Member(req.body.value, "instance");
      if instance.None? || !instance.value.JObject? then Failed("handler panicked: connection closed")
      else
        var id := Member(instance.value, "instanceId");
        if id.None? || !id.value.JString? then Failed("handler panicked: connection closed")
        else if id.value.s != "test-instance" then Response(400)
        else Response(204)
  }

  lemma TestRegisterAccepted(url: string, urlOk: string -> bool)
    requires urlOk(url)
    ensures Register(TestConfig(url), TestUsername, TestPassword, urlOk, CheckingRegistry) == Success
  {
    RegisterRequestShape(TestConfig(url), TestUsername, TestPassword);
  }

  /** TestRegisterWithEurekaUnauthorized, TestRegisterWithEurekaInvalidRequestBody
      (a 200 answer with a body that is not JSON) and
      TestRegisterWithEurekaServerError: each status is a rejection. */
  lemma TestRegisterRejected(url: string, urlOk: string -> bool, status: int)
    requires urlOk(url)
    requires status in {401, 200, 500}
    ensures Register(TestConfig(url), TestUsername, TestPassword, urlOk, _ => Response(status))
            == Failure(RegistrationRejected(status))
  {
  }

  /** TestRegisterWithEurekaRequestError: a URL with no scheme, which no
      round trip can reach, fails either when the request is built or in the
      round trip, depending on where the URL is refused; it is never taken
      for an answer of the registry. */
  lemma TestRegisterBadUrl(urlOk: string -> bool, roundTrip: Request -> Exchange)
    requires forall req: Request :: req.url == "invalid-url" ==> roundTrip(req).Failed?
    ensures var r := Register(TestConfig("invalid-url"), TestUsername, TestPassword, urlOk, roundTrip);
      r == Failure(RequestBuildFailed) || (r.Failure? && r.error.TransportFailed?)
  {
  }
}
