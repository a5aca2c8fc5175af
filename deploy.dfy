/**
 * One deployment, end to end: compose the target, attach the Basic
 * credentials, refuse a missing bundle before anything is sent, send the
 * request once, and interpret the response.
 */
module Deploy {
  import opened Wrappers
  import opened Json
  import opened Target
  import opened Responses
  import Base64
  import Credentials

  /** A part of the multipart form; its wire encoding is not modelled. */
  datatype Part =
    | FilePart(name: string, file: string, contentType: string)
    | TextPart(name: string, value: string)

  /** The POST request as the transport receives it. */
  datatype Request = Request(target: Uri, authorization: string, parts: seq<Part>)

  /**
   * The HTTP client, seen from outside: it records every request it is asked
   * to send and answers each with the same scripted reply (None when the
   * connection fails with an IOException).
   */
  class Transport {
    var sent: seq<Request>
    const reply: Option<Response>

    constructor (reply: Option<Response>)
      ensures sent == [] && this.reply == reply
    {
      sent := [];
      this.reply := reply;
    }

    method Execute(request: Request) returns (response: Option<Response>)
      modifies this
      ensures sent == old(sent) + [request]
      ensures response == reply
    {
      sent := sent + [request];
      response := reply;
    }
  }

  /** The form: the bundle file as a zip, then the four metadata fields verbatim. */
  function FormParts(bundle: string, bunddef: string, csdgroup: string, cicsplex: string, region: string): seq<Part> {
    [FilePart("bundle", bundle, "application/zip"),
     TextPart("bunddef", bunddef),
     TextPart("csdgroup", csdgroup),
     TextPart("cicsplex", cicsplex),
     TextPart("region", region)]
  }

  /** The message of the exception for a bundle file that is not there. */
  function MissingBundleMessage(bundle: string): string {
    "Bundle does not exist: '" + bundle + "'"
  }

  /**
   * `deployBundle`. `bundleExists` is the answer of the file system,
   * `charset` the platform's `String.getBytes()`, `parse` Jackson's
   * `readTree` (None when it throws).
   *
   * A target that cannot be built, or a missing bundle, ends the call before
   * the transport is used; otherwise exactly one request is sent, to the
   * composed target with the Basic credentials, and its response decides.
   */
  method DeployBundle(endpoint: Uri, bundle: string, bundleExists: bool,
                      bunddef: string, csdgroup: string, cicsplex: string, region: string,
                      username: string, password: string,
                      charset: string -> seq<Base64.Byte>, parse: string -> Option<Json>,
                      transport: Transport)
    returns (outcome: Outcome)
    modifies transport
    ensures var target := BuildUri(endpoint.scheme, endpoint.userInfo, endpoint.host, endpoint.port,
                                   TargetPath(endpoint.path), endpoint.query, endpoint.fragment);
      && (target.Err? ==> outcome == IoFailure(UriSyntax) && transport.sent == old(transport.sent))
      && (target.Ok? && !bundleExists ==>
            outcome == DeployFailure(MissingBundleMessage(bundle)) && transport.sent == old(transport.sent))
      && (target.Ok? && bundleExists ==>
            && transport.sent == old(transport.sent) +
                 [Request(target.value, Credentials.AuthorizationValue(username, password, charset),
                          FormParts(bundle, bunddef, csdgroup, cicsplex, region))]
            && outcome == match transport.reply
                          case None => IoFailure(TransportFailure)
                          case Some(response) => Classify(response, parse))
  {
    var parts := FormParts(bundle, bunddef, csdgroup, cicsplex, region);
    var target := ComposeTarget(endpoint);
    if target.Err? {
      return IoFailure(UriSyntax);
    }
    var encoding := Base64.Encode(charset(Credentials.UserPass(username, password)));
    var request := Request(target.value, "Basic " + encoding, parts);
    assert request.authorization == Credentials.AuthorizationValue(username, password, charset);
    if !bundleExists {
      return DeployFailure(MissingBundleMessage(bundle));
    }
    var response := transport.Execute(request);
    if response.None? {
      return IoFailure(TransportFailure);
    }
    outcome := ClassifyResponse(response.value, parse);
  }

  /** A missing bundle is reported by name and leaves the transport untouched. */
  method MissingBundleSendsNothing(endpoint: Uri, bundle: string, reply: Option<Response>,
                                   charset: string -> seq<Base64.Byte>, parse: string -> Option<Json>)
    returns (outcome: Outcome, requests: nat)
    requires endpoint.scheme.None? || (endpoint.path.Some? && (endpoint.path.value == "" || endpoint.path.value[0] == '/'))
    ensures outcome == DeployFailure("Bundle does not exist: '" + bundle + "'")
    ensures requests == 0
  {
    var transport := new Transport(reply);
    outcome := DeployBundle(endpoint, bundle, false, "BUNDDEF", "GROUP", "PLEX", "REGION", "user", "pass",
                            charset, parse, transport);
    requests := |transport.sent|;
  }
}
