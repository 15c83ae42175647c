/**
 * The server route that relays a Tellabot command: it checks the required
 * fields and the command allow-list, forwards the credentials and the
 * usable extra fields as query parameters, and maps the provider's reply
 * (or its failure) to an HTTP response. The provider call is a parameter:
 * a function from the URL fetched to what came back.
 */
module TellabotRelay {
  import opened Js
  import opened Wrappers
  import opened UrlParams

  /** The twenty provider commands the relay forwards. */
  const AllowedCommands: seq<string> := [
    "balance", "list_services", "request", "request_status", "reject", "read_sms", "send_sms",
    "ltr_rent", "ltr_autorenew", "ltr_status", "ltr_activate", "ltr_release", "ltr_report",
    "ltr_reported_status", "ltr_switch_service", "ltr_forward",
    "proxy_list", "proxy_rent", "proxy_swap", "proxy_redial"]

  const ProviderEndpoint := "https://www.tellabot.com/sims/api_command.php?"

  const MissingMessage := "Missing required parameters: " + "cmd, user, api_key."
  const InvalidJsonMessage := "Invalid JSON response from Tellabot."
  const InternalMessage := "Internal server error while calling Tellabot."

  /**
   * The request body: not JSON at all, the JSON value `null` (which cannot
   * be destructured), some other non-object value, or an object.
   */
  datatype RequestBody = Unparsable | NullBody | NonObject | ObjectBody(entries: Entries)

  /** What fetching the provider URL gave: a thrown error, or a body text and whether it parses as JSON. */
  datatype Fetched = FetchThrew | Fetched(text: string, json: Option<JsValue>)

  datatype Payload =
    | ErrorPayload(message: string)
    | InvalidJsonPayload(message: string, raw: string)
    | ProviderJson(json: JsValue)

  datatype Response = Response(httpStatus: int, payload: Payload)

  /** The body's fields once destructured: the command, the credentials, and the rest. */
  datatype Command = Command(cmd: string, user: JsValue, apiKey: JsValue, rest: Entries)

  predicate IsReserved(k: string) { k == "cmd" || k == "user" || k == "api_key" }

  /** `...rest`: every other entry, in order. */
  function Rest(entries: Entries): (rest: Entries)
    ensures forall i :: 0 <= i < |rest| ==> !IsReserved(rest[i].0)
    ensures forall e :: e in rest <==> e in entries && !IsReserved(e.0)
  {
    if entries == [] then []
    else (if IsReserved(entries[0].0) then [] else [entries[0]]) + Rest(entries[1..])
  }

  /** The checks made before the provider is contacted; `Err` is the response sent instead. */
  function Guard(body: RequestBody): Result<Command, Response> {
    match body
    case Unparsable => Err(Response(500, ErrorPayload(InternalMessage)))
    case NullBody => Err(Response(500, ErrorPayload(InternalMessage)))
    case NonObject => Err(Response(400, ErrorPayload(MissingMessage)))
    case ObjectBody(entries) =>
      var cmd, user, apiKey := Get(entries, "cmd"), Get(entries, "user"), Get(entries, "api_key");
      if !Truthy(cmd) || !Truthy(user) || !Truthy(apiKey) then
        Err(Response(400, ErrorPayload(MissingMessage)))
      else if !(cmd.Str? && cmd.s in AllowedCommands) then
        Err(Response(400, ErrorPayload("Unsupported Tellabot command: " + ToJsString(cmd))))
      else
        Ok(Command(cmd.s, user, apiKey, Rest(entries)))
  }

  /** An extra field is forwarded unless it is `undefined`, `null`, `""` or an object. */
  predicate Forwardable(v: JsValue) {
    !(v.Undefined? || v.Null? || v == Str("") || v.Object?)
  }

  /** The three parameters set first. */
  function BaseParams(c: Command): Pairs {
    [("cmd", c.cmd), ("user", ToJsString(c.user)), ("api_key", ToJsString(c.apiKey))]
  }

  /** One step of the `forEach` over the extra fields. */
  function ForwardStep(ps: Pairs, e: (string, JsValue)): Pairs {
    if Forwardable(e.1) then SetKey(ps, e.0, ToJsString(e.1)) else ps
  }

  /** The parameters after the `forEach` has visited `rest` in order. */
  function Forward(ps: Pairs, rest: Entries): Pairs {
    if rest == [] then ps else ForwardStep(Forward(ps, rest[..|rest| - 1]), rest[|rest| - 1])
  }

  function ForwardedParams(c: Command): Pairs {
    Forward(BaseParams(c), c.rest)
  }

  /** Builds the provider's query parameters in place, as the route does. */
  method BuildParams(c: Command) returns (params: SearchParams)
    ensures fresh(params) && params.pairs == ForwardedParams(c)
  {
    params := new SearchParams([]);
    params.Set("cmd", c.cmd);
    params.Set("user", ToJsString(c.user));
    params.Set("api_key", ToJsString(c.apiKey));
    assert params.pairs == BaseParams(c);
    var i := 0;
    while i < |c.rest|
      invariant 0 <= i <= |c.rest|
      invariant params.pairs == Forward(BaseParams(c), c.rest[..i])
    {
      assert c.rest[..i + 1][..i] == c.rest[..i];
      var (key, value) := c.rest[i];
      if Forwardable(value) {
        params.Set(key, ToJsString(value));
      }
      i := i + 1;
    }
    assert c.rest[..i] == c.rest;
  }

  /** The whole route: the guard, then one provider call and the mapping of its outcome. */
  function Post(body: RequestBody, fetch: string -> Fetched): Response {
    match Guard(body)
    case Err(rejected) => rejected
    case Ok(c) =>
      match fetch(ProviderEndpoint + Serialize(ForwardedParams(c)))
      case FetchThrew => Response(500, ErrorPayload(InternalMessage))
      case Fetched(text, None) => Response(502, InvalidJsonPayload(InvalidJsonMessage, text))
      case Fetched(_, Some(json)) => Response(200, ProviderJson(json))
  }

  /**
   * The guard rejects with 400 exactly when `cmd`, `user` or `api_key` is
   * missing or falsy (the missing-parameters message), or when they are
   * present but `cmd` is not one of the twenty allowed names (the message
   * naming it); an unreadable or `null` body is a 500. Otherwise the
   * command passes with every other field as its extras.
   */
  lemma GuardSpec(body: RequestBody)
    ensures body.Unparsable? || body.NullBody? ==>
      Guard(body) == Err(Response(500, ErrorPayload(InternalMessage)))
    ensures body.NonObject? ==> Guard(body) == Err(Response(400, ErrorPayload(MissingMessage)))
    ensures body.ObjectBody? ==>
      var cmd := Get(body.entries, "cmd");
      var present := Truthy(cmd) && Truthy(Get(body.entries, "user")) && Truthy(Get(body.entries, "api_key"));
      (!present <==> Guard(body) == Err(Response(400, ErrorPayload(MissingMessage))))
      && (present && !(cmd.Str? && cmd.s in AllowedCommands) <==>
          Guard(body) == Err(Response(400, ErrorPayload("Unsupported Tellabot command: " + ToJsString(cmd)))))
      && (Guard(body).Ok? <==> present && cmd.Str? && cmd.s in AllowedCommands)
    ensures Guard(body).Ok? ==> Guard(body).value.cmd in AllowedCommands
  {
    if body.ObjectBody? {
      // the two rejection messages differ in their first character
      var unsupported := "Unsupported Tellabot command: " + ToJsString(Get(body.entries, "cmd"));
      assert MissingMessage[0] == 'M' && unsupported[0] == 'U';
    }
  }

  /** A rejected request is answered without calling the provider: the answer does not depend on it. */
  lemma RejectedWithoutCall(body: RequestBody, fetch: string -> Fetched)
    requires Guard(body).Err?
    ensures Post(body, fetch) == Guard(body).error
    ensures Post(body, fetch).httpStatus in {400, 500}
  {
  }

  /**
   * Once the guard passes, a failed call is a 500, a body that is not JSON is
   * a 502 carrying the raw text, and parsed JSON is passed through.
   */
  lemma ProviderOutcome(body: RequestBody, fetch: string -> Fetched)
    requires Guard(body).Ok?
    ensures var got := fetch(ProviderEndpoint + Serialize(ForwardedParams(Guard(body).value)));
      (got.FetchThrew? ==> Post(body, fetch) == Response(500, ErrorPayload(InternalMessage)))
      && (got.Fetched? && got.json.None? ==>
          Post(body, fetch) == Response(502, InvalidJsonPayload(InvalidJsonMessage, got.text)))
      && (got.Fetched? && got.json.Some? ==> Post(body, fetch) == Response(200, ProviderJson(got.json.value)))
  {
  }

  /** The forwarded extras, in order: each usable field, stringified. */
  function Extras(rest: Entries): Pairs {
    if rest == [] then [] else Extras(rest[..|rest| - 1]) + ExtraOf(rest[|rest| - 1])
  }

  /** The parameter one extra field contributes, if any. */
  function ExtraOf(e: (string, JsValue)): Pairs {
    if Forwardable(e.1) then [(e.0, ToJsString(e.1))] else []
  }

  lemma {:induction false} ExtrasKeys(rest: Entries)
    ensures forall i :: 0 <= i < |Extras(rest)| ==> exists j :: 0 <= j < |rest| && rest[j].0 == Extras(rest)[i].0
  {
    if rest != [] {
      var init := rest[..|rest| - 1];
      ExtrasKeys(init);
      assert Extras(rest) == Extras(init) + ExtraOf(rest[|rest| - 1]);
      forall i | 0 <= i < |Extras(rest)|
        ensures exists j :: 0 <= j < |rest| && rest[j].0 == Extras(rest)[i].0
      {
        if i < |Extras(init)| {
          var j :| 0 <= j < |init| && init[j].0 == Extras(init)[i].0;
          assert rest[j] == init[j] && Extras(rest)[i] == Extras(init)[i];
          assert 0 <= j < |rest| && rest[j].0 == Extras(rest)[i].0;
        } else {
          var j := |rest| - 1;
          assert Extras(rest)[i] == ExtraOf(rest[j])[i - |Extras(init)|];
          assert 0 <= j < |rest| && rest[j].0 == Extras(rest)[i].0;
        }
      }
    } else {
      assert Extras(rest) == [];
    }
  }

  /**
   * With the distinct, unreserved keys of a JSON object's remaining fields,
   * every `set` appends: the parameters are the three base ones followed by
   * the usable extras in their original order.
   */
  lemma {:induction false} ForwardAppends(c: Command, rest: Entries)
    requires DistinctKeys(rest)
    requires forall i :: 0 <= i < |rest| ==> !IsReserved(rest[i].0)
    ensures Forward(BaseParams(c), rest) == BaseParams(c) + Extras(rest)
  {
    if rest != [] {
      var init, last := rest[..|rest| - 1], rest[|rest| - 1];
      ForwardAppends(c, init);
      if Forwardable(last.1) {
        var ps := BaseParams(c) + Extras(init);
        assert !HasKey(ps, last.0) by {
          ExtrasKeys(init);
          forall i | 0 <= i < |ps| ensures ps[i].0 != last.0 {
            if i >= 3 {
              var j :| 0 <= j < |init| && init[j].0 == Extras(init)[i - 3].0;
              assert rest[j] == init[j];
            }
          }
        }
        SetKeySpec(ps, last.0, ToJsString(last.1));
      }
    }
  }

  /**
   * The forwarded parameters start with the validated `cmd`, `user` and
   * `api_key`, which no extra field can replace; an extra field is
   * forwarded, stringified, exactly when it is not `undefined`, `null`, `""`
   * or an object.
   */
  lemma ForwardedParamsSpec(body: RequestBody)
    requires body.ObjectBody? && DistinctKeys(body.entries) && Guard(body).Ok?
    ensures var c := Guard(body).value;
      var ps := ForwardedParams(c);
      |ps| >= 3
      && ps[..3] == [("cmd", c.cmd), ("user", ToJsString(Get(body.entries, "user"))),
                     ("api_key", ToJsString(Get(body.entries, "api_key")))]
      && Lookup(ps, "cmd") == Some(c.cmd)
      && (forall k, v :: (k, v) in body.entries && !IsReserved(k) ==>
            Lookup(ps, k) == if Forwardable(v) then Some(ToJsString(v)) else None)
  {
    var c := Guard(body).value;
    assert DistinctKeys(c.rest) by {
      RestDistinct(body.entries);
    }
    ForwardAppends(c, c.rest);
    var ps := ForwardedParams(c);
    forall k, v | (k, v) in body.entries && !IsReserved(k)
      ensures Lookup(ps, k) == if Forwardable(v) then Some(ToJsString(v)) else None
    {
      assert (k, v) in c.rest;
      LookupAppend(BaseParams(c), Extras(c.rest), k);
      ExtrasLookup(c.rest, k, v);
    }
  }

  lemma {:induction false} RestDistinct(entries: Entries)
    requires DistinctKeys(entries)
    ensures DistinctKeys(Rest(entries))
  {
    if entries != [] {
      RestDistinct(entries[1..]);
      var head := if IsReserved(entries[0].0) then [] else [entries[0]];
      forall i, j | 0 <= i < j < |Rest(entries)| ensures Rest(entries)[i].0 != Rest(entries)[j].0 {
        if |head| == 1 && i == 0 {
          assert Rest(entries)[j] in Rest(entries[1..]);
          var m :| 0 <= m < |entries[1..]| && entries[1..][m] == Rest(entries)[j];
          assert entries[m + 1] == Rest(entries)[j];
        }
      }
    }
  }

  lemma {:induction false} ExtrasLookup(rest: Entries, k: string, v: JsValue)
    requires DistinctKeys(rest) && (k, v) in rest
    ensures Lookup(Extras(rest), k) == if Forwardable(v) then Some(ToJsString(v)) else None
  {
    var init, last := rest[..|rest| - 1], rest[|rest| - 1];
    var tail := ExtraOf(last);
    assert Extras(rest) == Extras(init) + tail;
    LookupAppend(Extras(init), tail, k);
    if last == (k, v) {
      assert !HasKey(Extras(init), k) by {
        ExtrasKeys(init);
        forall i | 0 <= i < |Extras(init)| ensures Extras(init)[i].0 != k {
          var j :| 0 <= j < |init| && init[j].0 == Extras(init)[i].0;
          assert rest[j] == init[j];
        }
      }
    } else {
      assert (k, v) in init by {
        var m :| 0 <= m < |rest| && rest[m] == (k, v);
        assert m != |rest| - 1;
        assert init[m] == rest[m];
      }
      assert last.0 != k by {
        var m :| 0 <= m < |init| && init[m] == (k, v);
        assert rest[m] == init[m];
      }
      assert DistinctKeys(init);
      ExtrasLookup(init, k, v);
      LookupFound(Extras(init), k);
    }
  }
}
