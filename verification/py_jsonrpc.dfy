/**
 * The Python client's JSON-RPC request (`aws_iatk.jsonrpc.Payload`): the
 * constructor adds Region and Profile to the caller's own parameter dict,
 * and `to_dict` wraps method, parameters and client metadata in a
 * JSON-RPC 2.0 envelope.
 *
 * Python dicts that are shared by reference are objects of class `PyDict`.
 * Fresh uuids, the package version and the interpreter version are inputs.
 */
module PyJsonRpc {
  import opened Wrappers
  import opened Json
  import PyPollEvents

  /** A Python dict that several objects may share and update. */
  class PyDict {
    var entries: map<string, Json>

    constructor (entries: map<string, Json>)
      ensures this.entries == entries
    {
      this.entries := entries;
    }
  }

  /** Python truthiness of a dict lookup that may be missing (a KeyError). */
  function Lookup(caller: map<string, Json>, key: string): Result<Json, string>
  {
    if key in caller then Ok(caller[key]) else Err("KeyError: '" + key + "'")
  }

  /**
   * `caller[key] if caller and caller[key] else fallback`: an empty caller
   * dict gives the fallback, a non-empty one must hold `key`.
   */
  function CallerField(caller: map<string, Json>, key: string, fallback: string): (r: Result<Json, string>)
    ensures caller == map[] ==> r == Ok(JStr(fallback))
    ensures caller != map[] && key !in caller ==> r == Err("KeyError: '" + key + "'")
    ensures caller != map[] && key in caller && Truthy(caller[key]) ==> r == Ok(caller[key])
    ensures caller != map[] && key in caller && !Truthy(caller[key]) ==> r == Ok(JStr(fallback))
  {
    if caller == map[] then Ok(JStr(fallback))
    else
      match Lookup(caller, key)
      case Err(e) => Err(e)
      case Ok(v) => if Truthy(v) then Ok(v) else Ok(JStr(fallback))
  }

  class Payload {
    var id: string
    var rpcMethod: string
    var params: PyDict
    var version: string
    var clientVersion: string

    /**
     * `Payload.__init__`: keeps a reference to the caller's parameter dict
     * and writes Region and Profile into it when they are truthy.
     */
    constructor (rpcMethod: string, params: PyDict, region: Option<string>, profile: Option<string>,
                 id: string, version: string, clientVersion: string)
      modifies params
      ensures this.id == id && this.rpcMethod == rpcMethod && this.params == params
      ensures this.version == version && this.clientVersion == clientVersion
      ensures params.entries == PyPollEvents.WithRegionProfile(old(params.entries), region, profile)
    {
      this.id := id;
      this.rpcMethod := rpcMethod;
      this.params := params;
      this.version := version;
      this.clientVersion := clientVersion;
      if PyPollEvents.TruthyText(region) {
        params.entries := params.entries["Region" := JStr(region.value)];
      }
      if PyPollEvents.TruthyText(profile) {
        params.entries := params.entries["Profile" := JStr(profile.value)];
      }
    }

    /** The envelope around given metadata fields. */
    function Envelope(callerName: Json, dedupKey: Json): (d: map<string, Json>)
      reads this, params
      ensures d.Keys == {"jsonrpc", "id", "method", "params", "metadata"}
      ensures d["jsonrpc"] == JStr("2.0") && d["id"] == JStr(id) && d["method"] == JStr(rpcMethod)
      ensures d["params"] == JObj(params.entries)
      ensures d["metadata"].JObj? && d["metadata"].fields.Keys == {"client", "version", "caller", "client_version", "dedup_key"}
      ensures d["metadata"].fields["client"] == JStr("python") && d["metadata"].fields["caller"] == callerName &&
              d["metadata"].fields["dedup_key"] == dedupKey
    {
      map[
        "jsonrpc" := JStr("2.0"),
        "id" := JStr(id),
        "method" := JStr(rpcMethod),
        "params" := JObj(params.entries),
        "metadata" := JObj(map[
          "client" := JStr("python"),
          "version" := JStr(version),
          "caller" := callerName,
          "client_version" := JStr(clientVersion),
          "dedup_key" := dedupKey])]
    }

    /**
     * `Payload.to_dict(caller)` as written: the caller name defaults to the
     * method and the dedup key to a fresh uuid, but a non-empty caller
     * dict must hold both "caller" and "dedup_key".
     */
    function ToDict(caller: map<string, Json>, freshUuid: string): (r: Result<map<string, Json>, string>)
      reads this, params
      ensures caller == map[] ==> r == Ok(Envelope(JStr(rpcMethod), JStr(freshUuid)))
      ensures caller != map[] && ("caller" !in caller || "dedup_key" !in caller) ==> r.Err?
      ensures caller != map[] && "caller" !in caller ==> r == Err("KeyError: 'caller'")
      ensures caller != map[] && "caller" in caller && "dedup_key" !in caller ==> r == Err("KeyError: 'dedup_key'")
      ensures caller != map[] && "caller" in caller && "dedup_key" in caller ==>
        r == Ok(Envelope(if Truthy(caller["caller"]) then caller["caller"] else JStr(rpcMethod),
                         if Truthy(caller["dedup_key"]) then caller["dedup_key"] else JStr(freshUuid)))
      ensures r.Ok? ==> exists c, k :: r.value == Envelope(c, k) && (c == JStr(rpcMethod) || c == caller["caller"])
    {
      assert "KeyError: '" + "caller" + "'" == "KeyError: 'caller'";
      assert "KeyError: '" + "dedup_key" + "'" == "KeyError: 'dedup_key'";
      match CallerField(caller, "caller", rpcMethod)
      case Err(e) => Err(e)
      case Ok(c) =>
        match CallerField(caller, "dedup_key", freshUuid)
        case Err(e) => Err(e)
        case Ok(k) => Ok(Envelope(c, k))
    }

    /**
     * The intended reading of the caller dict: the two callers in the
     * client pass their fresh request id under "request_id", so that id
     * is the dedup key, and missing keys fall back to the defaults.
     */
    function ToDictIntended(caller: map<string, Json>, freshUuid: string): (r: map<string, Json>)
      reads this, params
      ensures "metadata" in r && r["metadata"].JObj? && "caller" in r["metadata"].fields && "dedup_key" in r["metadata"].fields
      ensures "caller" in caller && Truthy(caller["caller"]) ==> r["metadata"].fields["caller"] == caller["caller"]
      ensures !("caller" in caller && Truthy(caller["caller"])) ==> r["metadata"].fields["caller"] == JStr(rpcMethod)
      ensures "dedup_key" in caller && Truthy(caller["dedup_key"]) ==> r["metadata"].fields["dedup_key"] == caller["dedup_key"]
      ensures !("dedup_key" in caller && Truthy(caller["dedup_key"])) && "request_id" in caller && Truthy(caller["request_id"]) ==>
        r["metadata"].fields["dedup_key"] == caller["request_id"]
      ensures !("dedup_key" in caller && Truthy(caller["dedup_key"])) && !("request_id" in caller && Truthy(caller["request_id"])) ==>
        r["metadata"].fields["dedup_key"] == JStr(freshUuid)
      ensures r == Envelope(r["metadata"].fields["caller"], r["metadata"].fields["dedup_key"])
    {
      var c := if "caller" in caller && Truthy(caller["caller"]) then caller["caller"] else JStr(rpcMethod);
      var k := if "dedup_key" in caller && Truthy(caller["dedup_key"]) then caller["dedup_key"]
               else if "request_id" in caller && Truthy(caller["request_id"]) then caller["request_id"]
               else JStr(freshUuid);
      Envelope(c, k)
    }
  }

  /** The caller dict `wait_until_event_matched` and `retry_get_trace_tree_until` pass. */
  function InternalCaller(name: string, requestId: string): map<string, Json>
  {
    map["caller" := JStr(name), "request_id" := JStr(requestId)]
  }

  /** As written, `to_dict` raises KeyError for the client's own caller dicts. */
  lemma InternalCallerKeyError(p: Payload, name: string, requestId: string, freshUuid: string)
    ensures p.ToDict(InternalCaller(name, requestId), freshUuid) == Err("KeyError: 'dedup_key'")
  {
    var caller := InternalCaller(name, requestId);
    assert "dedup_key"[0] != "caller"[0] && "dedup_key"[0] != "request_id"[0];
    assert "caller" in caller && "dedup_key" !in caller;
    assert "KeyError: '" + "dedup_key" + "'" == "KeyError: 'dedup_key'";
    assert CallerField(caller, "caller", p.rpcMethod).Ok?;
    assert CallerField(caller, "dedup_key", freshUuid) == Err("KeyError: 'dedup_key'");
  }

  /** As intended, the same caller dicts name the caller and carry the request id as dedup key. */
  lemma InternalCallerIntended(p: Payload, name: string, requestId: string, freshUuid: string)
    requires name != "" && requestId != ""
    ensures var d := p.ToDictIntended(InternalCaller(name, requestId), freshUuid);
      d["metadata"].fields["caller"] == JStr(name) && d["metadata"].fields["dedup_key"] == JStr(requestId)
  {
    var caller := InternalCaller(name, requestId);
    assert "caller" in caller && caller["caller"] == JStr(name) && Truthy(JStr(name));
    assert "dedup_key"[0] != "caller"[0] && "dedup_key"[0] != "request_id"[0];
    assert "dedup_key" !in caller;
    assert "request_id" in caller && caller["request_id"] == JStr(requestId) && Truthy(JStr(requestId));
  }
}
