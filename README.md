# CICS bundle deployment: target, credentials and response interpretation

This project models `BundleDeployHelper.deployBundle`, which uploads a CICS
bundle to the `managedcicsbundles` endpoint of a CICS deploy service and turns
the HTTP response into success or one error. It models the deterministic logic
around the HTTP traffic and proves properties of it in Dafny.

- **Target composition** (`Target`). The endpoint URI is a record of its
  components. The fixed segment `managedcicsbundles` is appended to the path,
  with a `/` inserted only when the path does not already end in one. A null
  path becomes the bare segment. The seven-argument `java.net.URI`
  constructor rebuilds the authority only from user information, host and
  port, and only when there is a host. So an endpoint with a registry-based
  authority, such as `http://my_host:9080/cics`, loses its authority: the
  target is `http:/cics/managedcicsbundles`. Scheme, host, query and fragment
  are copied unchanged. The constructor's check that an absolute URI has no
  relative path is modelled. Because of it, an endpoint with a scheme and no
  path (an opaque URI) always ends in the URI error: its composed path
  `managedcicsbundles` is relative. `Target.ComposeTarget` states this both
  ways.
- **Credentials** (`Credentials`, `Base64`). The Authorization value is
  `Basic ` followed by the Base64 of `username:password`, concatenated
  verbatim. This is the Basic scheme of section 2 of RFC 7617. The encoder
  writes out the standard alphabet and padding of section 4 of RFC 4648. A
  decoder that accepts only canonical text (zero pad bits, section 3.5 of
  RFC 4648) is proved to invert it both ways. So the header text is the only
  one that decodes to the user-pass bytes.
- **Response interpretation** (`Responses`, `Json`, `Text`). Status 200 is
  success. On any other status the entity's content is read first. A reply
  without an entity (204, 205, 304) dereferences null. Otherwise the failure
  message depends on the single Content-Type header:
  - none, or several headers: `Http response: ` + status line;
  - exactly `application/xml` (gateway) or any other type (platform): the body;
  - exactly `application/json` (the deploy service): `message` + `:\n - ` + a detail.

  The detail is the in-order fold over `requestErrors`, or the first
  `message` under `deployments` found by Jackson's `findValue`, or empty.
  JSON is a Dafny datatype. `findValue` is proved equal to "the first of all
  matches in document order".
- **Orchestration** (`Deploy`). `DeployBundle` runs the steps in the source's
  order against a transport that records what it is asked to send. A missing
  bundle fails with `Bundle does not exist: '<path>'` and the transport
  receives nothing.

In these places the model follows the code rather than the service's
documented behaviour:

- The message for a missing or repeated Content-Type is
  `"Http response: " + statusLine`, not the bare status line.
- The body is its lines joined with no separator, so line breaks are dropped.
  An "unmodified" XML or text body loses its newlines.
- Content types are compared with exact `equals`. `application/json;
  charset=UTF-8` therefore takes the plain-body branch
  (`Responses.JsonWithCharsetExample`).
- A failure reply without an entity is not reported through its status
  line. `getEntity()` is null, and the model returns `NullDereference("entity")`.
- A JSON body without the node that its branch reads does not give a parse
  error. Java dereferences null there, and the model returns a
  `NullDereference` outcome that names the node. `requestErrors` that is
  present but not an object gives an empty detail, because `fields()` on a
  non-object node iterates nothing.

## Model

| member | source | states |
|---|---|---|
| `Target.TargetPath` | src/main/java/com/ibm/cics/bundle/deploy/BundleDeployHelper.java:56-63 | The composed path ends in `managedcicsbundles`. A null path gives the bare segment. Otherwise the part before the segment starts with the path, ends in `/`, and adds exactly one character when the path does not end in `/` and none when it does. |
| `Target.TargetPathAddsNoDoubleSlash` | src/main/java/com/ibm/cics/bundle/deploy/BundleDeployHelper.java:56-63 | The composed path contains `//` if and only if the endpoint path already did. |
| `Target.ComposeTarget` | src/main/java/com/ibm/cics/bundle/deploy/BundleDeployHelper.java:56-78 | On success, the target has the composed path and the endpoint's scheme, host, query and fragment. With a host, the authority is rebuilt as `[userInfo@]host[:port]`, keeping user information and port. Without a host, the target has no authority, user information or port. The call fails if and only if the endpoint has a scheme and the composed path is relative, which happens for a null or relative endpoint path. |
| `Target.ServerBasedEndpointKept` | src/main/java/com/ibm/cics/bundle/deploy/BundleDeployHelper.java:67-75 | An endpoint with a server-based authority comes back unchanged except for its path. |
| `Target.RegistryAuthorityDropped` | src/main/java/com/ibm/cics/bundle/deploy/BundleDeployHelper.java:67-75 | `http://my_host:9080/cics`, whose authority has no host, gives `http:/cics/managedcicsbundles`. The authority is gone. |
| `Base64.DecodeEncode` | src/main/java/com/ibm/cics/bundle/deploy/BundleDeployHelper.java:86 | Decoding the Base64 text of any byte sequence gives back exactly those bytes. |
| `Base64.EncodeDecode` | src/main/java/com/ibm/cics/bundle/deploy/BundleDeployHelper.java:86 | A text that decodes to some bytes is exactly the encoding of those bytes. Non-zero pad bits and misplaced padding are refused. |
| `Base64.DecodeDeterminesText` | src/main/java/com/ibm/cics/bundle/deploy/BundleDeployHelper.java:86 | Two texts that decode to the same bytes are the same text. |
| `Base64.KnownAnswersOneGroup` | src/main/java/com/ibm/cics/bundle/deploy/BundleDeployHelper.java:86 | The encoder gives the test vectors of section 10 of RFC 4648 for "", "f", "fo" and "foo": "", "Zg==", "Zm8=", "Zm9v". |
| `Base64.KnownAnswersTwoGroups` | src/main/java/com/ibm/cics/bundle/deploy/BundleDeployHelper.java:86 | The encoder gives the test vectors of section 10 of RFC 4648 for "foob", "fooba" and "foobar": "Zm9vYg==", "Zm9vYmE=", "Zm9vYmFy". |
| `Credentials.AuthorizationValue` | src/main/java/com/ibm/cics/bundle/deploy/BundleDeployHelper.java:85-87 | The header value starts with `Basic `. The rest decodes to the bytes of `username + ":" + password`, taken verbatim. |
| `Credentials.AuthorizationValueIsUnique` | src/main/java/com/ibm/cics/bundle/deploy/BundleDeployHelper.java:85-87 | Any text that starts with `Basic ` and whose rest decodes to the user-pass bytes is the header value. The header is therefore exactly `Basic ` followed by the canonical Base64 text. |
| `Credentials.UserPassSplits` | src/main/java/com/ibm/cics/bundle/deploy/BundleDeployHelper.java:85 | For a user name without a colon, splitting the user-pass string at its first colon gives back the user name and the whole password, even when the password contains colons. |
| `Text.ContainsIffOccurs` | src/main/java/com/ibm/cics/bundle/deploy/BundleDeployHelper.java:119-125 | `contains` is true exactly when the substring occurs at some position. |
| `Text.JoinAppend` | src/main/java/com/ibm/cics/bundle/deploy/BundleDeployHelper.java:107 | The body text of a concatenation of line lists is the concatenation of their body texts. No separator is added between lines. |
| `Text.JoinChars` | src/main/java/com/ibm/cics/bundle/deploy/BundleDeployHelper.java:107 | The joined body contains no character that none of its lines contains, so the removed line breaks are not put back. |
| `Json.Lookup` | src/main/java/com/ibm/cics/bundle/deploy/BundleDeployHelper.java:116 | `get(name)` is null exactly when no member has that name. Otherwise it is the value of the first member with that name. |
| `Json.FindValueIsFirstMatch` | src/main/java/com/ibm/cics/bundle/deploy/BundleDeployHelper.java:126 | `findValue` returns the first of all values of members with the name, in document order. It is null exactly when there is none. |
| `Json.FindValueFindsMember` | src/main/java/com/ibm/cics/bundle/deploy/BundleDeployHelper.java:126 | `findValue` finds a value exactly when some member with the name exists, and the value it finds is one of those members' values. |
| `Responses.CollectRequestErrors` | src/main/java/com/ibm/cics/bundle/deploy/BundleDeployHelper.java:117-124 | The loop's accumulator ends as the fold of `key: value\n` over all members, in iteration order. |
| `Responses.ErrorLinesCons` | src/main/java/com/ibm/cics/bundle/deploy/BundleDeployHelper.java:121-124 | The detail of a list that starts with one member is that member's line followed by the detail of the rest. |
| `Responses.ErrorLinesRecoverable` | src/main/java/com/ibm/cics/bundle/deploy/BundleDeployHelper.java:121-124 | When no entry contains a line feed, the detail splits back into exactly the members' `key: value` entries, in order. No entry is lost or merged. |
| `Responses.ClassifyResponse` | src/main/java/com/ibm/cics/bundle/deploy/BundleDeployHelper.java:96-133 | The step-by-step handling of a response gives the same outcome as the layer-by-layer classification. |
| `Responses.MissingEntityDereferences` | src/main/java/com/ibm/cics/bundle/deploy/BundleDeployHelper.java:105-106 | On a status other than 200, a reply without an entity ends in a null dereference of the entity, whatever its headers. |
| `Responses.SuccessExactlyOnOk` | src/main/java/com/ibm/cics/bundle/deploy/BundleDeployHelper.java:105-133 | The outcome is success if and only if the status code is 200, whatever the headers and body. |
| `Responses.UnlabelledGivesStatusLine` | src/main/java/com/ibm/cics/bundle/deploy/BundleDeployHelper.java:97-109 | For a status other than 200, on a reply with an entity and with zero or several Content-Type headers, the failure message is `Http response: ` followed by the status line. |
| `Responses.NonJsonGivesBody` | src/main/java/com/ibm/cics/bundle/deploy/BundleDeployHelper.java:106-131 | For a status other than 200, on a reply with an entity and with one Content-Type that is not exactly `application/json`, the failure message is the body lines joined. |
| `Responses.InvalidParametersDetail` | src/main/java/com/ibm/cics/bundle/deploy/BundleDeployHelper.java:113-128 | For a JSON reply with an entity, when the service message contains "Some of the supplied parameters were invalid", the failure is the message, `:\n - `, and every `requestErrors` member's line in order. |
| `Responses.DeploymentFailureDetail` | src/main/java/com/ibm/cics/bundle/deploy/BundleDeployHelper.java:125-128 | For a JSON reply with an entity whose message does not report invalid parameters but contains "Bundle deployment failure", the detail is the text of the first `message` under `deployments` in document order. |
| `Responses.OtherServiceMessage` | src/main/java/com/ibm/cics/bundle/deploy/BundleDeployHelper.java:116-128 | For a JSON reply with an entity, any other service message gets an empty detail, so the failure message ends in `- `. |
| `Responses.MalformedServiceResponse` | src/main/java/com/ibm/cics/bundle/deploy/BundleDeployHelper.java:115-126 | For a JSON reply with an entity, an unparsable body is an I/O failure. A missing `message`, a missing `requestErrors`, a missing `deployments`, or a `deployments` without `message` is a null dereference naming that node. None of these gives a made-up message. |
| `Responses.GatewayExample` | src/main/java/com/ibm/cics/bundle/deploy/BundleDeployHelper.java:110-112 | Status 500, `application/xml`, body `<err>boom</err>`: the message is that body. |
| `Responses.PlatformExample` | src/main/java/com/ibm/cics/bundle/deploy/BundleDeployHelper.java:129-131 | Status 502, `text/plain`, body lines `Internal ` and `Server Error`: the message is `Internal Server Error`. |
| `Responses.NoContentExample` | src/main/java/com/ibm/cics/bundle/deploy/BundleDeployHelper.java:105-106 | Status 204 with no entity: a null dereference of the entity, not a status-line message. |
| `Responses.UnlabelledExample` | src/main/java/com/ibm/cics/bundle/deploy/BundleDeployHelper.java:108-109 | Status 503 with no Content-Type: the message is `Http response: HTTP/1.1 503 Service Unavailable`. |
| `Responses.JsonWithCharsetExample` | src/main/java/com/ibm/cics/bundle/deploy/BundleDeployHelper.java:110-131 | `application/json; charset=UTF-8` is not `application/json`, so the body is passed on unparsed. |
| `Responses.InvalidRegionExample` | src/main/java/com/ibm/cics/bundle/deploy/BundleDeployHelper.java:119-128 | `{"message":"Some of the supplied parameters were invalid","requestErrors":{"region":"unknown region"}}` gives that message followed by `:\n - region: unknown region\n`. |
| `Responses.SingleDeploymentExample` | src/main/java/com/ibm/cics/bundle/deploy/BundleDeployHelper.java:125-128 | `{"message":"Bundle deployment failure","deployments":[{"message":d}]}` gives `Bundle deployment failure:\n - ` followed by `d`. |
| `Deploy.Transport.Execute` | src/main/java/com/ibm/cics/bundle/deploy/BundleDeployHelper.java:95 | Sending records the request and returns the scripted reply. |
| `Deploy.DeployBundle` | src/main/java/com/ibm/cics/bundle/deploy/BundleDeployHelper.java:47-133 | A URI error or a missing bundle ends the call before anything is sent. A missing bundle gives `Bundle does not exist: '<path>'`. Otherwise exactly one request goes out, to the composed target, with the Basic credentials and the five form parts. A failed connection is an I/O failure, and a response is classified as above. |
| `Deploy.MissingBundleSendsNothing` | src/main/java/com/ibm/cics/bundle/deploy/BundleDeployHelper.java:89-95 | For an endpoint whose target URI can be built, with a fresh transport and a missing bundle, the outcome is the missing-bundle failure and the transport has recorded zero requests. |

## Left out

- HTTP transport, `HttpClientBuilder` and `execute`: network I/O. The `Transport` class stands in for it. It records requests and returns a scripted reply or a connection failure. The source builds a new client for each call; the model receives one.
- Multipart encoding (`MultipartEntityBuilder`, `FileBody`, `StringBody`): library plumbing. Only the part names, the file and the values are kept, as `Deploy.FormParts`. The file part's `application/zip` type is kept; the text parts' type is not.
- Jackson's `readTree`: a foreign parser. It is the parameter `parse`, with None where it throws. The source parses the same body at most twice (three call sites, two of them in exclusive branches), and the model parses it once. `JObject` keeps members in document order. A tree built by Jackson has distinct names within an object, and `Json.Lookup` returns the first match, which is then the only one. The text of a number node is kept as given, not computed.
- `java.net.URI` validation: only the "relative path in absolute URI" rule and the rebuilding of the authority are modelled. Re-parsing the written URI, the other RFC 2396 checks, and quoting of illegal characters are not. A port is -1 or non-negative, as in a parsed URI.
- `bundle.exists()`: the file system. It is the boolean `bundleExists`. The bundle's path string stands for `File.toString()`.
- `String.getBytes()`: the platform charset. It is the parameter `charset`, so the header is proved for any charset.
- Reading the response entity: `BufferedReader` line splitting is taken as done. The body arrives as its lines, or as None when the reply has no entity. The status line arrives as its text. Which statuses HttpClient gives an entity is decided by the transport.
- Closing of streams and connections, and any exception that Apache HttpClient raises itself: resource handling outside the decision logic.
