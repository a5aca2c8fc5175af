/**
 * Interpretation of the deploy endpoint's HTTP response: success on status
 * 200, otherwise one failure whose message depends on the layer that
 * answered, as told by the response's single Content-Type header.
 */
module Responses {
  import opened Wrappers
  import opened Text
  import opened Json

  /**
   * What the transport hands back: the status code, the status line's text
   * (`StatusLine.toString()`, e.g. "HTTP/1.1 503 Service Unavailable"), the
   * values of every Content-Type header, and the entity's body as the lines
   * a `BufferedReader` yields; None when the response carries no entity
   * (as for 204, 205 and 304), where `getEntity()` is null.
   */
  datatype Response = Response(statusCode: int, statusLine: string, contentTypes: seq<string>, entity: Option<seq<string>>)

  /** Why an IOException ends the deployment. */
  datatype IoCause = UriSyntax | TransportFailure | JsonSyntax

  /**
   * How one deployment ends: normally, with a `BundleDeployException`
   * carrying its message, with an `IOException`, or with a
   * `NullPointerException` from dereferencing a JSON node that is not there.
   */
  datatype Outcome =
    | Success
    | DeployFailure(message: string)
    | IoFailure(cause: IoCause)
    | NullDereference(node: string)

  const ApplicationXml := "application/xml"
  const ApplicationJson := "application/json"
  const InvalidParameters := "Some of the supplied parameters were invalid"
  const DeploymentFailed := "Bundle deployment failure"
  const DetailSeparator := ":\n - "

  /** The layer that answered, as the status code and Content-Type header tell it. */
  datatype Layer =
    | Accepted     // status 200
    | Unlabelled   // zero or several Content-Type headers
    | Gateway      // application/xml: the web tier in front of the deploy service
    | Service      // application/json: the deploy service itself
    | Platform     // any other type: the platform, in its own text format

  /** The Content-Type value when exactly one such header came back. */
  function ContentType(response: Response): Option<string> {
    if |response.contentTypes| != 1 then None else Some(response.contentTypes[0])
  }

  function LayerOf(response: Response): Layer {
    if response.statusCode == 200 then Accepted
    else match ContentType(response)
      case None => Unlabelled
      case Some(t) =>
        if t == ApplicationXml then Gateway
        else if t == ApplicationJson then Service
        else Platform
  }

  /** The body text: its lines joined with no separator. */
  function Body(response: Response): string
    requires response.entity.Some?
  {
    Join(response.entity.value)
  }

  /** One `requestErrors` member as reported: parameter name, colon, problem. */
  function ErrorEntry(field: (string, Json)): string {
    field.0 + ": " + AsText(field.1)
  }

  /** The `requestErrors` members in iteration order, each reported on a line of its own. */
  function ErrorLines(fields: seq<(string, Json)>): string
    decreases |fields|
  {
    if fields == [] then ""
    else ErrorLines(fields[..|fields| - 1]) + ErrorEntry(fields[|fields| - 1]) + "\n"
  }

  /** The detail after the service's message; Err names the node that is missing. */
  function ServiceDetail(root: Json, message: string): Result<string, string> {
    if Contains(message, InvalidParameters) then
      match Get(root, "requestErrors")
      case None => Err("requestErrors")
      case Some(errors) => Ok(ErrorLines(FieldsOf(errors)))
    else if Contains(message, DeploymentFailed) then
      match Get(root, "deployments")
      case None => Err("deployments")
      case Some(deployments) =>
        match FindValue(deployments, "message")
        case None => Err("deployments/message")
        case Some(m) => Ok(AsText(m))
    else Ok("")
  }

  /** The outcome for a JSON body; `tree` is None when the body does not parse. */
  function ServiceFailure(tree: Option<Json>): Outcome {
    match tree
    case None => IoFailure(JsonSyntax)
    case Some(root) =>
      match Get(root, "message")
      case None => NullDereference("message")
      case Some(m) =>
        match ServiceDetail(root, AsText(m))
        case Err(node) => NullDereference(node)
        case Ok(detail) => DeployFailure(AsText(m) + DetailSeparator + detail)
  }

  /**
   * The outcome of a response, layer by layer. `parse` is the JSON parser
   * (Jackson's `readTree`), None when it throws.
   */
  function Classify(response: Response, parse: string -> Option<Json>): Outcome {
    if response.statusCode == 200 then Success
    else if response.entity.None? then NullDereference("entity")
    else match LayerOf(response)
      case Unlabelled => DeployFailure("Http response: " + response.statusLine)
      case Gateway => DeployFailure(Body(response))
      case Platform => DeployFailure(Body(response))
      case Service => ServiceFailure(parse(Body(response)))
  }

  /** The `requestErrors` loop: iterate the members, appending one line for each. */
  method CollectRequestErrors(fields: seq<(string, Json)>) returns (errors: string)
    ensures errors == ErrorLines(fields)
  {
    errors := "";
    var i := 0;
    while i < |fields|
      invariant 0 <= i <= |fields|
      invariant errors == ErrorLines(fields[..i])
    {
      var field := fields[i];
      assert fields[..i + 1][..i] == fields[..i];
      errors := errors + field.0 + ": " + AsText(field.1) + "\n";
      i := i + 1;
    }
    assert fields[..i] == fields;
  }

  /**
   * The response handling as the helper performs it, step by step: read the
   * Content-Type, and on a status other than 200 read the entity's body and decide.
   */
  method ClassifyResponse(response: Response, parse: string -> Option<Json>) returns (outcome: Outcome)
    ensures outcome == Classify(response, parse)
  {
    var contentType: Option<string>;
    if |response.contentTypes| != 1 {
      contentType := None;
    } else {
      contentType := Some(response.contentTypes[0]);
    }
    if response.statusCode != 200 {
      if response.entity.None? {
        return NullDereference("entity");
      }
      var content := Join(response.entity.value);
      if contentType.None? {
        return DeployFailure("Http response: " + response.statusLine);
      } else if contentType.value == ApplicationXml {
        return DeployFailure(content);
      } else if contentType.value == ApplicationJson {
        var tree := parse(content);
        if tree.None? {
          return IoFailure(JsonSyntax);
        }
        var messageNode := Get(tree.value, "message");
        if messageNode.None? {
          return NullDereference("message");
        }
        var message := AsText(messageNode.value);
        var errors := "";
        if Contains(message, InvalidParameters) {
          var requestErrors := Get(tree.value, "requestErrors");
          if requestErrors.None? {
            return NullDereference("requestErrors");
          }
          errors := CollectRequestErrors(FieldsOf(requestErrors.value));
        } else if Contains(message, DeploymentFailed) {
          var deployments := Get(tree.value, "deployments");
          if deployments.None? {
            return NullDereference("deployments");
          }
          var found := FindValue(deployments.value, "message");
          if found.None? {
            return NullDereference("deployments/message");
          }
          errors := AsText(found.value);
        }
        return DeployFailure(message + DetailSeparator + errors);
      } else {
        return DeployFailure(content);
      }
    }
    return Success;
  }

  // ----- what the classification promises -----

  /** Success exactly on status 200, whatever the headers and body; every other status is one failure. */
  lemma SuccessExactlyOnOk(response: Response, parse: string -> Option<Json>)
    ensures Classify(response, parse) == Success <==> response.statusCode == 200
  {
  }

  /**
   * A failure status on a response with no entity dereferences the missing
   * entity before any header is looked at.
   */
  lemma MissingEntityDereferences(response: Response, parse: string -> Option<Json>)
    requires response.statusCode != 200 && response.entity.None?
    ensures Classify(response, parse) == NullDereference("entity")
  {
  }

  /** Without exactly one Content-Type header, the message is the status line behind a fixed prefix. */
  lemma UnlabelledGivesStatusLine(response: Response, parse: string -> Option<Json>)
    requires response.statusCode != 200 && response.entity.Some? && |response.contentTypes| != 1
    ensures Classify(response, parse) == DeployFailure("Http response: " + response.statusLine)
  {
  }

  /**
   * With one Content-Type that is not exactly `application/json` (XML from the
   * gateway, or anything else, including `application/json` with parameters),
   * the message is the body text unparsed.
   */
  lemma NonJsonGivesBody(response: Response, parse: string -> Option<Json>, contentType: string)
    requires response.statusCode != 200 && response.entity.Some? && response.contentTypes == [contentType]
    requires contentType != ApplicationJson
    ensures Classify(response, parse) == DeployFailure(Join(response.entity.value))
  {
  }

  /** A JSON response whose message reports invalid parameters lists every `requestErrors` member, in order. */
  lemma InvalidParametersDetail(response: Response, parse: string -> Option<Json>, root: Json, message: Json, errors: Json)
    requires response.statusCode != 200 && response.entity.Some? && response.contentTypes == [ApplicationJson]
    requires parse(Body(response)) == Some(root)
    requires Get(root, "message") == Some(message) && Contains(AsText(message), InvalidParameters)
    requires Get(root, "requestErrors") == Some(errors)
    ensures Classify(response, parse) == DeployFailure(AsText(message) + DetailSeparator + ErrorLines(FieldsOf(errors)))
  {
    assert ServiceDetail(root, AsText(message)) == Ok(ErrorLines(FieldsOf(errors)));
    assert LayerOf(response) == Service;
  }

  /**
   * A JSON response whose message reports a failed deployment carries, as
   * detail, the first `message` member found under `deployments` in document order.
   */
  lemma DeploymentFailureDetail(response: Response, parse: string -> Option<Json>, root: Json, message: Json, deployments: Json)
    requires response.statusCode != 200 && response.entity.Some? && response.contentTypes == [ApplicationJson]
    requires parse(Body(response)) == Some(root)
    requires Get(root, "message") == Some(message)
    requires !Contains(AsText(message), InvalidParameters) && Contains(AsText(message), DeploymentFailed)
    requires Get(root, "deployments") == Some(deployments) && Matches(deployments, "message") != []
    ensures Classify(response, parse) ==
      DeployFailure(AsText(message) + DetailSeparator + AsText(Matches(deployments, "message")[0]))
  {
    FindValueIsFirstMatch(deployments, "message");
    assert ServiceDetail(root, AsText(message)) == Ok(AsText(Matches(deployments, "message")[0]));
    assert LayerOf(response) == Service;
  }

  /** Any other message from the service gets an empty detail: the message ends in "- ". */
  lemma OtherServiceMessage(response: Response, parse: string -> Option<Json>, root: Json, message: Json)
    requires response.statusCode != 200 && response.entity.Some? && response.contentTypes == [ApplicationJson]
    requires parse(Body(response)) == Some(root)
    requires Get(root, "message") == Some(message)
    requires !Contains(AsText(message), InvalidParameters) && !Contains(AsText(message), DeploymentFailed)
    ensures Classify(response, parse) == DeployFailure(AsText(message) + DetailSeparator)
  {
  }

  /**
   * A JSON body that does not parse, or lacks the node its branch reads, ends
   * in an exception rather than in an invented message.
   */
  lemma MalformedServiceResponse(response: Response, parse: string -> Option<Json>)
    requires response.statusCode != 200 && response.entity.Some? && response.contentTypes == [ApplicationJson]
    ensures parse(Body(response)).None? ==> Classify(response, parse) == IoFailure(JsonSyntax)
    ensures parse(Body(response)).Some? && Get(parse(Body(response)).value, "message").None? ==>
      Classify(response, parse) == NullDereference("message")
    ensures parse(Body(response)).Some? && Get(parse(Body(response)).value, "message").Some? ==>
      var root := parse(Body(response)).value;
      var message := AsText(Get(root, "message").value);
      && (Contains(message, InvalidParameters) && Get(root, "requestErrors").None? ==>
            Classify(response, parse) == NullDereference("requestErrors"))
      && (!Contains(message, InvalidParameters) && Contains(message, DeploymentFailed) &&
          Get(root, "deployments").None? ==>
            Classify(response, parse) == NullDereference("deployments"))
      && (!Contains(message, InvalidParameters) && Contains(message, DeploymentFailed) &&
          Get(root, "deployments").Some? && Matches(Get(root, "deployments").value, "message") == [] ==>
            Classify(response, parse) == NullDereference("deployments/message"))
  {
    if parse(Body(response)).Some? && Get(parse(Body(response)).value, "deployments").Some? {
      FindValueIsFirstMatch(Get(parse(Body(response)).value, "deployments").value, "message");
    }
  }

  // ----- the requestErrors detail keeps every member -----

  /** Appending one member in front: the fold read from the left agrees with reading from the right. */
  lemma {:induction false} ErrorLinesCons(field: (string, Json), fields: seq<(string, Json)>)
    ensures ErrorLines([field] + fields) == ErrorEntry(field) + "\n" + ErrorLines(fields)
    decreases |fields|
  {
    if fields != [] {
      var init := fields[..|fields| - 1];
      assert ([field] + fields)[..|fields|] == [field] + init;
      ErrorLinesCons(field, init);
    } else {
      assert [field] + fields == [field];
    }
  }

  /** Splits text into lines that each end in a line feed; None if the text does not end in one. */
  function SplitTerminated(s: string): Option<seq<string>>
    decreases |s|
  {
    if s == [] then Some([])
    else match IndexOf(s, '\n')
      case None => None
      case Some(i) =>
        match SplitTerminated(s[i + 1..])
        case None => None
        case Some(rest) => Some([s[..i]] + rest)
  }

  /** The members' entries, in order, without line feeds. */
  function Entries(fields: seq<(string, Json)>): seq<string>
    decreases |fields|
  {
    if fields == [] then [] else [ErrorEntry(fields[0])] + Entries(fields[1..])
  }

  /** A first line without a line feed splits off whole. */
  lemma SplitFirstLine(line: string, rest: string)
    requires '\n' !in line
    ensures SplitTerminated(line + "\n" + rest) ==
      match SplitTerminated(rest)
      case None => None
      case Some(lines) => Some([line] + lines)
  {
    var s := line + "\n" + rest;
    IndexOfAfter(line, '\n', rest);
    assert s[..|line|] == line;
    assert s[|line| + 1..] == rest;
  }

  /**
   * When no member's text holds a line feed, the detail splits back into
   * exactly the members' entries, in order: no member is lost or merged.
   */
  lemma {:induction false} ErrorLinesRecoverable(fields: seq<(string, Json)>)
    requires forall i :: 0 <= i < |fields| ==> '\n' !in ErrorEntry(fields[i])
    ensures SplitTerminated(ErrorLines(fields)) == Some(Entries(fields))
    decreases |fields|
  {
    if fields != [] {
      var rest := fields[1..];
      var first := ErrorEntry(fields[0]);
      var tail := ErrorLines(rest);
      assert [fields[0]] + rest == fields;
      ErrorLinesCons(fields[0], rest);
      assert ErrorLines(fields) == first + "\n" + tail;
      assert '\n' !in first;
      assert forall i :: 0 <= i < |rest| ==> '\n' !in ErrorEntry(rest[i]) by {
        forall i | 0 <= i < |rest| ensures '\n' !in ErrorEntry(rest[i]) {
          assert rest[i] == fields[i + 1];
        }
      }
      ErrorLinesRecoverable(rest);
      SplitFirstLine(first, tail);
    }
  }

  // ----- worked examples -----

  lemma GatewayExample(parse: string -> Option<Json>)
    ensures Classify(Response(500, "HTTP/1.1 500 Internal Server Error", [ApplicationXml], Some(["<err>boom</err>"])), parse)
         == DeployFailure("<err>boom</err>")
  {
  }

  lemma JoinTwo(first: string, second: string)
    ensures Join([first, second]) == first + second
  {
    assert [first, second][..1] == [first];
    assert Join([first]) == Join([]) + first;
  }

  /** Two body lines from the platform come out as one text, with no line break between them. */
  lemma PlatformExample(parse: string -> Option<Json>, response: Response)
    requires response.statusCode == 502 && response.contentTypes == ["text/plain"]
    requires response.entity == Some(["Internal ", "Server Error"])
    ensures Classify(response, parse) == DeployFailure("Internal Server Error")
  {
    JoinTwo("Internal ", "Server Error");
    NonJsonGivesBody(response, parse, "text/plain");
  }

  lemma UnlabelledExample(parse: string -> Option<Json>)
    ensures Classify(Response(503, "HTTP/1.1 503 Service Unavailable", [], Some(["<html/>"])), parse)
         == DeployFailure("Http response: " + "HTTP/1.1 503 Service Unavailable")
  {
  }

  /** A 204 reply carries no entity: reading its body dereferences null. */
  lemma NoContentExample(parse: string -> Option<Json>)
    ensures Classify(Response(204, "HTTP/1.1 204 No Content", [], None), parse) == NullDereference("entity")
  {
  }

  /** A JSON type with a charset parameter is not `application/json`: the body is passed on unparsed. */
  lemma JsonWithCharsetExample(parse: string -> Option<Json>)
    ensures Classify(Response(400, "HTTP/1.1 400 Bad Request", ["application/json; charset=UTF-8"], Some(["{}"])), parse)
         == DeployFailure("{}")
  {
  }

  function RequestErrorTree(message: string, key: string, text: string): Json {
    JObject([("message", JString(message)), ("requestErrors", JObject([(key, JString(text))]))])
  }

  lemma RequestErrorTreeNodes(message: string, key: string, text: string)
    ensures Get(RequestErrorTree(message, key, text), "message") == Some(JString(message))
    ensures Get(RequestErrorTree(message, key, text), "requestErrors") == Some(JObject([(key, JString(text))]))
    ensures ErrorLines(FieldsOf(JObject([(key, JString(text))]))) == key + ": " + text + "\n"
  {
    var root := RequestErrorTree(message, key, text);
    assert root.fields[0].0 != "requestErrors" && root.fields[1].0 == "requestErrors";
    assert Lookup(root.fields, "requestErrors") == Lookup(root.fields[1..], "requestErrors");
    var fs := [(key, JString(text))];
    assert fs[..0] == [] && ErrorLines(fs[..0]) == "";
  }

  // Kept apart from InvalidRegionExample: comparing the literals there, with the
  // rest of the example in scope, costs the solver several times as much.
  lemma RegionLine()
    ensures "region" + ": " + "unknown region" + "\n" == "region: unknown region\n"
  {
  }

  /** `{"message":"Some of the supplied parameters were invalid","requestErrors":{"region":"unknown region"}}`. */
  lemma InvalidRegionExample(parse: string -> Option<Json>, response: Response)
    requires response.statusCode == 400 && response.entity.Some? && response.contentTypes == [ApplicationJson]
    requires parse(Body(response)) == Some(RequestErrorTree(InvalidParameters, "region", "unknown region"))
    ensures Classify(response, parse) == DeployFailure(InvalidParameters + DetailSeparator + "region: unknown region\n")
  {
    var message := InvalidParameters;
    var key, value := "region", "unknown region";
    RequestErrorTreeNodes(message, key, value);
    var errors := JObject([(key, JString(value))]);
    var text := AsText(JString(message)) + DetailSeparator + ErrorLines(FieldsOf(errors));
    assert text == InvalidParameters + DetailSeparator + "region: unknown region\n" by {
      RegionLine();
    }
    assert Classify(response, parse) == DeployFailure(text) by {
      assert StartsWith(message, InvalidParameters);
      InvalidParametersDetail(response, parse, RequestErrorTree(message, key, value), JString(message), errors);
    }
  }

  lemma SingleDeploymentMatches(detail: string)
    ensures Matches(JArray([JObject([("message", JString(detail))])]), "message") == [JString(detail)]
  {
    var entry := JObject([("message", JString(detail))]);
    assert Matches(JString(detail), "message") == [];
    assert entry.fields[1..] == [] && MatchesInFields(entry.fields[1..], "message") == [];
    assert MatchesInFields(entry.fields, "message") == [JString(detail)] + [] + [];
    assert Matches(entry, "message") == [JString(detail)];
    assert MatchesInItems([entry], "message") == [JString(detail)];
  }

  lemma DeploymentFailedIsNotInvalidParameters(message: string)
    requires message == DeploymentFailed
    ensures !Contains(message, InvalidParameters) && Contains(message, DeploymentFailed)
  {
    ShorterLacks(message, InvalidParameters);
    assert StartsWith(message, DeploymentFailed);
  }

  function SingleDeploymentTree(message: string, detail: string): Json {
    JObject([("message", JString(message)), ("deployments", JArray([JObject([("message", JString(detail))])]))])
  }

  lemma SingleDeploymentTreeNodes(message: string, detail: string)
    ensures Get(SingleDeploymentTree(message, detail), "message") == Some(JString(message))
    ensures Get(SingleDeploymentTree(message, detail), "deployments").Some?
    ensures Matches(Get(SingleDeploymentTree(message, detail), "deployments").value, "message") == [JString(detail)]
  {
    var root := SingleDeploymentTree(message, detail);
    assert root.fields[0].0 != "deployments" && root.fields[1].0 == "deployments";
    assert Lookup(root.fields, "deployments") == Lookup(root.fields[1..], "deployments");
    SingleDeploymentMatches(detail);
  }

  /** E.g. `{"message":"Bundle deployment failure","deployments":[{"message":"CSD group full"}]}`. */
  lemma SingleDeploymentExample(parse: string -> Option<Json>, response: Response, detail: string)
    requires response.statusCode == 400 && response.entity.Some? && response.contentTypes == [ApplicationJson]
    requires parse(Body(response)) == Some(SingleDeploymentTree(DeploymentFailed, detail))
    ensures Classify(response, parse) == DeployFailure(DeploymentFailed + DetailSeparator + detail)
  {
    var message := DeploymentFailed;
    var root := SingleDeploymentTree(message, detail);
    SingleDeploymentTreeNodes(message, detail);
    var deployments := Get(root, "deployments").value;
    var text := AsText(JString(message)) + DetailSeparator + AsText(Matches(deployments, "message")[0]);
    assert text == DeploymentFailed + DetailSeparator + detail by {
      assert AsText(Matches(deployments, "message")[0]) == detail;
    }
    assert Classify(response, parse) == DeployFailure(text) by {
      DeploymentFailedIsNotInvalidParameters(message);
      DeploymentFailureDetail(response, parse, root, JString(message), deployments);
    }
  }
}
