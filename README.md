# Eureka registry client, modelled in Dafny

This project models the registry client of the Go package `eureka`. The client does two things:

- **Register** (`RegisterWithEureka`) sends the JSON description of a service instance to a Eureka registry. The request is `POST {EurekaURL}` with `Content-Type: application/json`. The body is `{"instance": {...}}`.
- **Deregister** (`DeregisterWithEureka`) removes the instance again. The request is `DELETE {EurekaURL}/{instanceId}`.

Authorization works differently for the two operations:

- Register sends the configured `AuthHeader` verbatim when it is set. Otherwise it sends `Basic <base64(username:password)>`.
- Deregister always sends Basic authentication.

The result depends only on the status code. Register succeeds on exactly 204. Deregister succeeds on exactly 200. Failures are reported in a fixed order: building the request, then the round trip, then the status.

Both operations are pure functions of their inputs (`Eureka.Register`, `Eureka.Deregister`). The parts that the model does not implement are parameters:

- `urlOk: string -> bool` says whether `http.NewRequest` accepts a URL.
- `roundTrip: Request -> Exchange` is what one `http.DefaultClient.Do` call ends in: `Failed(cause)` or `Response(status)`.

A request is a record: the HTTP method (field `verb`), the URL, the header map and an optional JSON body. Each header has the single value `Header.Set` gives it. The body is a tree (`Json.Value`), not bytes.

The project has six files:

- `wrappers.dfy` (module `Wrappers`): the `Option` type, with the failure-propagation members that the `:-` operator uses.
- `utf8.dfy` (module `Utf8`): Go's `[]byte(s)` conversion of a valid UTF-8 string.
- `base64.dfy` (module `Base64`): the encoder of section 4 of RFC 4648 (standard alphabet, with padding), which `base64.StdEncoding` implements. It comes with a strict decoder, proved to be its exact inverse in both directions.
- `json.dfy` (module `Json`): the JSON tree.
- `eureka.dfy` (module `Eureka`): the package's types, the instance serializer and a reader for its output, the request builder, the wire contract of both requests, and the two operations.
- `eureka_properties.dfy` (module `EurekaProperties`): properties of the operations, and the scenarios of `eureka/eureka_test.go` written against registries that are Dafny functions.

`Status` is Go's `type Status string`. It is modelled as a string with the constants `UP`, `DOWN` and `OUT_OF_SERVICE`, not as an enumeration. The tests send the zero value `""`.

Two readings of the code and its tests that the model pins down:

- Registration succeeds only on 204 (`eureka/eureka.go:83`). A 200 answer is a rejection, and `TestRegisterWithEurekaInvalidRequestBody` (`eureka/eureka_test.go:84-107`), whose server answers 200 with a body that is not JSON, expects an error. The model rejects it too.
- The URL `"invalid-url"` in the last test is not pinned to one stage. `TestRegisterBadUrl` proves that the failure is a build failure or a transport failure, never a rejection by the registry.

Two consequences of the code that the model makes explicit:

- The `AuthHeader` asymmetry is real: `CustomAuthorizationOnlyRegisters` gives a registry that accepts the registration and refuses the deregistration of the same configuration.
- Basic credentials are ambiguous when the username contains a colon. `ColonInUsernameIsAmbiguous` shows two credential pairs that encode identically. `BasicAuthorizationDecodes` proves that a registry recovers the exact username and password whenever the username has no colon.

## Model

| member | source | states |
|---|---|---|
| `Utf8.Encode` | eureka/eureka.go:68 | `[]byte(s)` of a string is the UTF-8 encodings of its characters in order, and has at least one byte per character. |
| `Utf8.EncodeRune` | eureka/eureka.go:68 | A character becomes 1 to 4 bytes: one byte equal to its code exactly when it is ASCII, otherwise a lead byte of at least 0xC0 and continuation bytes. |
| `Utf8.EncodeAppend` | eureka/eureka.go:68 | The bytes of `username + ":" + password` are the username's bytes, then the colon, then the password's. |
| `Utf8.AsciiByteOccurs` | eureka/eureka.go:68 | An ASCII byte such as `:` occurs in a string's UTF-8 bytes exactly when its character occurs in the string. |
| `Base64.Encode` | eureka/eureka.go:68 | The padded RFC 4648 encoding has 4 characters for every started group of 3 bytes. |
| `Base64.EncodeChars` | eureka/eureka.go:68 | Every character of the encoding is from the standard alphabet or is the padding `=`. |
| `Base64.DecodeEncode` | eureka/eureka.go:68 | Decoding an encoding gives back the original bytes, so nothing is lost. |
| `Base64.EncodeDecode` | eureka/eureka.go:68 | Every string the strict decoder accepts is exactly the encoding of what it decodes to. |
| `Base64.EncodeInjective` | eureka/eureka.go:68 | Different credential bytes give different encodings. |
| `Base64.EncodeConcat` | eureka/eureka.go:68 | Encoding works group by group: bytes split after a multiple of three encode to the concatenation of the two encodings. |
| `Base64.Rfc4648ShortVectors` | eureka/eureka.go:68 | The encoder gives the RFC 4648 test vectors `""`, `Zg==`, `Zm8=` and `Zm9v` for the bytes of "", "f", "fo" and "foo". |
| `Base64.Rfc4648PaddedVectors` | eureka/eureka.go:68 | The encoder gives `Zm9vYg==` and `Zm9vYmE=` for the bytes of "foob" and "fooba". |
| `Base64.Rfc4648FoobarVector` | eureka/eureka.go:68 | The encoder gives `Zm9vYmFy` for the bytes of "foobar". |
| `Eureka.PortToJson` | eureka/eureka.go:47-51 | A port serializes to an object with keys `$`, `@enabled` in that order, and reads back to the same port. |
| `Eureka.DataCenterToJson` | eureka/eureka.go:53-57 | Data-center info serializes to an object with keys `@class`, `name`, and reads back to the same value. |
| `Eureka.InstanceToJson` | eureka/eureka.go:29-45 | The instance serializes to an object with the 14 tagged keys in field order, and reads back to the same instance. |
| `Eureka.ConvertToJson` | eureka/eureka.go:91-93 | The body is an object whose only key is `instance`, and its `instance` member reads back to the given instance. |
| `Eureka.NewRequest` | eureka/eureka.go:96-99 | A request exists iff the URL is accepted; it has the given method, URL and body, and no headers yet. |
| `Eureka.SetHeader` | eureka/eureka.go:100 | The header now has exactly the given value; every other header, the method, URL and body are unchanged. |
| `Eureka.EncodeCredentials` | eureka/eureka.go:68 | The encoded credentials decode back to the username's bytes, a colon byte and the password's bytes. |
| `Eureka.CreateHttpRequest` | eureka/eureka.go:95-110 | A request exists iff the URL is accepted. It is a POST to that URL with exactly the headers Content-Type (`application/json`) and Authorization. Authorization is the custom value when that is non-empty, else `Basic ` + the encoded credentials. The body is the given JSON. |
| `Eureka.RegistrationRequest` | eureka/eureka.go:96-106 | The registration request is a POST to EurekaURL with exactly Content-Type `application/json` and Authorization. Authorization is AuthHeader when that is set, else `Basic ` followed by an encoding that decodes to the credential bytes. The body reads back to the configured instance. |
| `Eureka.DeregistrationRequest` | eureka/eureka.go:121-128 | The deregistration request is a DELETE of `EurekaURL/instanceId` with no body. Its only header is Authorization, which is `Basic ` followed by an encoding that decodes to the credential bytes. |
| `Eureka.Register` | eureka/eureka.go:59-89 | Success iff the URL is accepted and the round trip of the registration request answers exactly 204. A refused URL gives a build failure. A failed round trip gives a transport failure with its cause. Any other status gives a rejection carrying that status. |
| `Eureka.Deregister` | eureka/eureka.go:118-143 | Success iff `EurekaURL/instanceId` is accepted and the round trip of the deregistration request answers exactly 200. Otherwise: a build failure, a transport failure with its cause, or a rejection carrying the status, in that order. |
| `EurekaProperties.BasicAuthorizationDecodes` | eureka/eureka.go:121-128 | The Basic header decodes to the bytes of `username:password`. A registry splits them back into exactly the username and password when the username has no colon. |
| `EurekaProperties.ColonInUsernameIsAmbiguous` | eureka/eureka.go:68 | `a:b`/`c` and `a`/`b:c` give the same encoded credentials. |
| `EurekaProperties.RegisterCustomAuthorization` | eureka/eureka.go:102-104 | With AuthHeader set, registration sends it verbatim, and Register's result does not depend on the username or password. |
| `EurekaProperties.RegisterBasicAuthorization` | eureka/eureka.go:105-107 | With AuthHeader empty, registration sends `Basic ` + base64(username:password), which decodes back to those credential bytes. |
| `EurekaProperties.RegisterRequestShape` | eureka/eureka.go:91-100 | Registration is a POST to exactly EurekaURL with Content-Type `application/json` and exactly two headers. The body's only top-level key is `instance`, and `instance.instanceId` is the configured id. |
| `EurekaProperties.InstanceJsonShape` | eureka/eureka.go:30-57 | The serialized instance has exactly the tagged keys in field order. The ports are `{"$": value, "@enabled": enabled}` and the data center is `{"@class": class, "name": name}`. |
| `EurekaProperties.ConvertToJsonInjective` | eureka/eureka.go:91-93 | Different instances give different bodies. |
| `EurekaProperties.RegisterStatus` | eureka/eureka.go:83-88 | With the URL accepted, status 204 is success and every other status is a rejection carrying that status. |
| `EurekaProperties.RegisterBuildFailsFirst` | eureka/eureka.go:71-74 | A refused URL gives the build failure, whatever the network would answer; no round trip takes part. |
| `EurekaProperties.RegisterTransportFailure` | eureka/eureka.go:77-80 | A failed round trip is a transport failure carrying its cause, never a status rejection. |
| `EurekaProperties.DeregisterRequestShape` | eureka/eureka.go:121-128 | Deregistration is a DELETE of `EurekaURL + "/" + instanceId` with no body. Its only header is Authorization, always Basic, and it decodes to the credential bytes. |
| `EurekaProperties.DeregisterIgnoresAuthHeader` | eureka/eureka.go:119-128 | Changing AuthHeader does not change Deregister's result. |
| `EurekaProperties.DeregisterStatus` | eureka/eureka.go:137-142 | With the URL accepted, status 200 is success and every other status, including 204, is a rejection carrying that status. |
| `EurekaProperties.DeregisterBuildFailsFirst` | eureka/eureka.go:124-127 | A refused URL gives the build failure, whatever the network would answer. |
| `EurekaProperties.DeregisterTransportFailure` | eureka/eureka.go:131-134 | A failed round trip is a transport failure carrying its cause. |
| `EurekaProperties.CustomAuthorizationOnlyRegisters` | eureka/eureka.go:124-128 | Take a registry that accepts only the configured bearer token. It accepts the registration and rejects the deregistration with 401, because deregistration sends Basic authentication. |
| `EurekaProperties.TestRegisterAccepted` | eureka/eureka_test.go:12-58 | The mock registry answers 401 without the Basic header for testuser/testpassword, 400 for a body that is not an object or an instance id other than "test-instance", drops the connection where the handler's type assertions would panic, and answers 204 otherwise. Register against it succeeds. |
| `EurekaProperties.TestRegisterRejected` | eureka/eureka_test.go:60-133 | Answers 401, 200 (with a body that is not JSON) and 500 each give a rejection carrying the status. |
| `EurekaProperties.TestRegisterBadUrl` | eureka/eureka_test.go:135-150 | For `invalid-url`, which no round trip reaches, Register fails at build or in transport, never with a registry rejection. |

## Left out

- The JSON-conversion error branch (eureka/eureka.go:62-65) is not modelled. `json.Marshal` fails only on values it cannot represent, such as channels, functions, complex numbers, NaN or failing custom marshalers, and `InstanceData` holds none of them. So the conversion is a total function and Register has no serialization-error outcome.
- The network round trip `http.DefaultClient.Do` (eureka/eureka.go:77, 131) is I/O. It is the `roundTrip` parameter, so redirects, timeouts and header-value validation by the transport all happen inside it.
- The URL parsing of `http.NewRequest` (eureka/eureka.go:96, 124) is the `urlOk` predicate. The fixed method names "POST" and "DELETE" can never make it fail.
- `closeResponseBody` and the deferred close (eureka/eureka.go:81, 112-116, 135) are not modelled. They release a foreign resource, and no result depends on them.
- Logging with `fmt.Println` and the text of error messages are not modelled. This includes Register wrapping its errors while Deregister returns build and transport errors unwrapped. Errors are a datatype carrying the status or the transport cause.
- The body is the JSON tree, not the bytes `json.Marshal` writes. Not modelled: escaping (including HTML-safe escaping), the number format, and the replacement of invalid UTF-8.
- Go strings are arbitrary bytes. A string that is not valid UTF-8 is not modelled, because strings here are sequences of Unicode scalar values.
- `PortData.Value` and `CountryID` are Go `int` (64-bit). They are unbounded here: the client does no arithmetic on them and only serializes them.
- Header-name canonicalisation in `Header.Set` is not modelled. Both names the client uses, `Content-Type` and `Authorization`, are already canonical.
- `Eureka.InstanceFromJson` reads back exactly the shape the encoder writes. It is a partner for stating the round trip, not a model of `json.Unmarshal` (which matches keys without regard to case or order).
- The demo programs of the repository (example-gin, example-http, example-echo and the plain main program), which start web servers and deregister on a signal, are not modelled. They are demo wiring and concurrency that only call the two operations.
