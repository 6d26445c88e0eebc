/**
 * The generated endpoint methods of APIClient, modelled once as a template
 * over a list of parameter declarations, with three endpoints written out.
 * Each declared parameter is read from the call's parameters object,
 * placed in its bucket (header, query, body, form or path) when it is
 * defined, and a required one that is undefined ends the call with an
 * Error value; otherwise the buckets are handed to `request`.
 */
module Endpoints {
  import opened Wrappers
  import opened JsValues
  import opened Foreign
  import opened Signing
  import opened Dispatch
  import opened PathTemplate

  const MissingPrefix := "Missing required  parameter: "
  const JsonContentType := "application/json"
  const FormContentType := "application/x-www-form-urlencoded"

  /** Where a parameter goes; a header parameter names its header. */
  datatype Bucket = HeaderParam(header: string) | QueryParam | BodyParam | FormParam | PathParam

  datatype BucketKind = HeaderKind | QueryKind | BodyKind | FormKind | PathKind

  function Kind(b: Bucket): BucketKind
  {
    match b
    case HeaderParam(_) => HeaderKind
    case QueryParam => QueryKind
    case BodyParam => BodyKind
    case FormParam => FormKind
    case PathParam => PathKind
  }

  datatype ParamDecl = ParamDecl(name: string, bucket: Bucket, required: bool)

  /** One generated method: its HTTP method, path template, content type and parameters in declaration order. */
  datatype Endpoint = Endpoint(httpMethod: string, path: string, contentType: string, params: seq<ParamDecl>)

  /** The local variables a generated method fills before calling `request`. */
  datatype Buckets = Buckets(
    path: string,
    body: JsValue,
    queryParameters: map<string, JsValue>,
    headers: map<string, JsValue>,
    form: map<string, JsValue>,
    pathParameters: map<string, JsValue>)

  /** What a generated method returns: an Error for a missing parameter, or the request it makes. */
  datatype CallOutcome = MissingParameter(message: string) | Dispatched(call: FetchCall)

  /** The buckets before any parameter is read. */
  function InitialBuckets(ep: Endpoint): Buckets
  {
    Buckets(ep.path, Obj(map[]), map[],
            map["Accept" := Arr([Str("*/*")]), "Content-Type" := Arr([Str(ep.contentType)])],
            map[], map[])
  }

  function Placeholder(name: string): string
  {
    "{" + name + "}"
  }

  /**
   * Placing one parameter's value: a path parameter is substituted with
   * `path.replace` and recorded even when undefined; any other value is
   * written only when defined, and never touches the path.
   */
  function Place(b: Buckets, d: ParamDecl, v: JsValue): (r: Buckets)
    ensures d.bucket.PathParam? ==>
              && r.path == ReplaceAsWritten(b.path, Placeholder(d.name), ToStr(v))
              && r.pathParameters == b.pathParameters[d.name := v]
              && r.(path := b.path, pathParameters := b.pathParameters) == b
    ensures !d.bucket.PathParam? ==> r.path == b.path && r.pathParameters == b.pathParameters
    ensures !d.bucket.PathParam? && v == Undefined ==> r == b
  {
    match d.bucket
    case PathParam =>
      b.(path := ReplaceAsWritten(b.path, Placeholder(d.name), ToStr(v)),
         pathParameters := b.pathParameters[d.name := v])
    case HeaderParam(h) => if v != Undefined then b.(headers := b.headers[h := v]) else b
    case QueryParam => if v != Undefined then b.(queryParameters := b.queryParameters[d.name := v]) else b
    case BodyParam => if v != Undefined then b.(body := v) else b
    case FormParam => if v != Undefined then b.(form := b.form[d.name := v]) else b
  }

  /** A required parameter that is undefined. */
  predicate Missing(d: ParamDecl, parameters: map<string, JsValue>)
  {
    d.required && Lookup(parameters, d.name) == Undefined
  }

  function Step(b: Buckets, d: ParamDecl, parameters: map<string, JsValue>): Result<Buckets, string>
  {
    var v := Lookup(parameters, d.name);
    if Missing(d, parameters) then Failure(MissingPrefix + d.name) else Success(Place(b, d, v))
  }

  /** The parameters read in declaration order, stopping at the first failure. */
  function Fill(params: seq<ParamDecl>, parameters: map<string, JsValue>, init: Buckets): Result<Buckets, string>
  {
    if |params| == 0 then Success(init)
    else
      match Fill(params[..|params| - 1], parameters, init)
      case Failure(e) => Failure(e)
      case Success(b) => Step(b, params[|params| - 1], parameters)
  }

  /** The next parameter statement, run only when the previous ones succeeded. */
  function Then(r: Result<Buckets, string>, d: ParamDecl, parameters: map<string, JsValue>): Result<Buckets, string>
  {
    match r
    case Failure(e) => Failure(e)
    case Success(b) => Step(b, d, parameters)
  }

  /** A three-parameter method runs its three statements in order. */
  lemma FillThree(d1: ParamDecl, d2: ParamDecl, d3: ParamDecl, parameters: map<string, JsValue>, init: Buckets)
    ensures Fill([d1, d2, d3], parameters, init) ==
              Then(Then(Then(Success(init), d1, parameters), d2, parameters), d3, parameters)
  {
    var ds := [d1, d2, d3];
    assert ds[..2] == [d1, d2];
    assert ds[..2][..1] == [d1];
    assert ds[..2][..1][..0] == [];
    assert Fill([d1], parameters, init) == Then(Success(init), d1, parameters);
    assert Fill([d1, d2], parameters, init) == Then(Fill([d1], parameters, init), d2, parameters);
    assert Fill(ds, parameters, init) == Then(Fill([d1, d2], parameters, init), d3, parameters);
  }

  /** The position of the first missing required parameter. */
  function FirstMissing(params: seq<ParamDecl>, parameters: map<string, JsValue>): (r: Option<nat>)
    ensures r.Some? ==> r.value < |params| && Missing(params[r.value], parameters)
    ensures r.Some? ==> forall j :: 0 <= j < r.value ==> !Missing(params[j], parameters)
    ensures r.None? <==> forall j :: 0 <= j < |params| ==> !Missing(params[j], parameters)
  {
    if |params| == 0 then None
    else if Missing(params[0], parameters) then Some(0)
    else
      match FirstMissing(params[1..], parameters)
      case None => None
      case Some(i) => Some(i + 1)
  }

  lemma FirstMissingPrefix(params: seq<ParamDecl>, parameters: map<string, JsValue>)
    requires |params| > 0
    ensures var pre := params[..|params| - 1];
            FirstMissing(params, parameters) ==
              if FirstMissing(pre, parameters).Some? then FirstMissing(pre, parameters)
              else if Missing(params[|params| - 1], parameters) then Some(|params| - 1)
              else None
  {
    var pre := params[..|params| - 1];
    var last := |params| - 1;
    assert forall j :: 0 <= j < |pre| ==> pre[j] == params[j];
    var f := FirstMissing(params, parameters);
    if FirstMissing(pre, parameters).Some? {
      var i := FirstMissing(pre, parameters).value;
      assert Missing(params[i], parameters);
      assert f.Some? && f.value <= i;
      forall j | 0 <= j < i ensures !Missing(params[j], parameters) {
        assert pre[j] == params[j];
      }
    } else if Missing(params[last], parameters) {
      assert f.Some? && f.value <= last;
      forall j | 0 <= j < last ensures !Missing(params[j], parameters) {
        assert pre[j] == params[j];
      }
    } else {
      assert forall j :: 0 <= j < |params| ==> !Missing(params[j], parameters) by {
        forall j | 0 <= j < |params| ensures !Missing(params[j], parameters) {
          if j < last {
            assert pre[j] == params[j];
          }
        }
      }
    }
  }

  /** A call fails exactly when a required parameter is missing, naming the first one in declaration order. */
  lemma {:induction false} FillFailsAtFirstMissing(params: seq<ParamDecl>, parameters: map<string, JsValue>, init: Buckets)
    ensures Fill(params, parameters, init).Failure? <==> FirstMissing(params, parameters).Some?
    ensures Fill(params, parameters, init).Failure? ==>
              Fill(params, parameters, init).error == MissingPrefix + params[FirstMissing(params, parameters).value].name
  {
    if |params| > 0 {
      var pre := params[..|params| - 1];
      FillFailsAtFirstMissing(pre, parameters, init);
      FirstMissingPrefix(params, parameters);
      if FirstMissing(pre, parameters).Some? {
        assert params[FirstMissing(pre, parameters).value] == pre[FirstMissing(pre, parameters).value];
      }
    }
  }

  /** Once a prefix of the statements has failed, the remaining statements do not run. */
  lemma {:induction false} FillStopsAtFailure(params: seq<ParamDecl>, k: nat, parameters: map<string, JsValue>, init: Buckets)
    requires k <= |params|
    requires Fill(params[..k], parameters, init).Failure?
    ensures Fill(params, parameters, init) == Fill(params[..k], parameters, init)
    decreases |params| - k
  {
    if k < |params| {
      var longer := params[..k + 1];
      assert longer[..k] == params[..k];
      FillStopsAtFailure(params, k + 1, parameters, init);
    } else {
      assert params[..k] == params;
    }
  }

  // ---- what the buckets hold after a successful fill ----

  /** The names of the declared parameters of one kind. */
  function NamesOf(params: seq<ParamDecl>, kind: BucketKind): set<string>
  {
    set i | 0 <= i < |params| && Kind(params[i].bucket) == kind :: params[i].name
  }

  /** The defined values of the named parameters. */
  function Supplied(names: set<string>, parameters: map<string, JsValue>): map<string, JsValue>
  {
    map n | n in names && n in parameters && parameters[n] != Undefined :: parameters[n]
  }

  lemma NamesOfSnoc(params: seq<ParamDecl>, kind: BucketKind)
    requires |params| > 0
    ensures var last := params[|params| - 1];
            NamesOf(params, kind) ==
              NamesOf(params[..|params| - 1], kind) + (if Kind(last.bucket) == kind then {last.name} else {})
  {
    var pre := params[..|params| - 1];
    var last := params[|params| - 1];
    forall n | n in NamesOf(params, kind)
      ensures n in NamesOf(pre, kind) + (if Kind(last.bucket) == kind then {last.name} else {})
    {
      var i :| 0 <= i < |params| && Kind(params[i].bucket) == kind && params[i].name == n;
      if i < |pre| {
        assert pre[i] == params[i];
      }
    }
    forall n | n in NamesOf(pre, kind) ensures n in NamesOf(params, kind) {
      var i :| 0 <= i < |pre| && Kind(pre[i].bucket) == kind && pre[i].name == n;
      assert params[i] == pre[i];
    }
  }

  /** The map bucket a query or form parameter lands in. */
  function MapBucket(b: Buckets, kind: BucketKind): map<string, JsValue>
  {
    if kind == QueryKind then b.queryParameters else b.form
  }

  /** A successful fill is a successful fill of all but the last declaration, then the last one placed. */
  lemma FillUnfold(params: seq<ParamDecl>, parameters: map<string, JsValue>, init: Buckets, b: Buckets)
    requires |params| > 0
    requires Fill(params, parameters, init) == Success(b)
    ensures Fill(params[..|params| - 1], parameters, init).Success?
    ensures var d := params[|params| - 1];
            b == Place(Fill(params[..|params| - 1], parameters, init).value, d, Lookup(parameters, d.name))
  {
  }

  lemma SuppliedAdd(names: set<string>, x: string, parameters: map<string, JsValue>)
    ensures Supplied(names + {x}, parameters) ==
              if Lookup(parameters, x) != Undefined then Supplied(names, parameters)[x := Lookup(parameters, x)]
              else Supplied(names, parameters)
  {
  }

  lemma PlaceMapBucket(b: Buckets, d: ParamDecl, v: JsValue, kind: BucketKind)
    requires kind == QueryKind || kind == FormKind
    ensures MapBucket(Place(b, d, v), kind) ==
              if Kind(d.bucket) == kind && v != Undefined then MapBucket(b, kind)[d.name := v]
              else MapBucket(b, kind)
  {
  }

  lemma UnionThenUpdate(a: map<string, JsValue>, s: map<string, JsValue>, k: string, v: JsValue)
    ensures a + s[k := v] == (a + s)[k := v]
  {
    var l, r := a + s[k := v], (a + s)[k := v];
    assert l.Keys == r.Keys;
    assert forall n :: n in l ==> l[n] == r[n];
  }

  /** One declaration extends the query or form bucket exactly as it extends the supplied map. */
  lemma MapBucketStep(pre: seq<ParamDecl>, d: ParamDecl, parameters: map<string, JsValue>, init: Buckets,
                      b0: Buckets, kind: BucketKind)
    requires kind == QueryKind || kind == FormKind
    requires MapBucket(b0, kind) == MapBucket(init, kind) + Supplied(NamesOf(pre, kind), parameters)
    ensures MapBucket(Place(b0, d, Lookup(parameters, d.name)), kind) ==
              MapBucket(init, kind) + Supplied(NamesOf(pre + [d], kind), parameters)
  {
    var v := Lookup(parameters, d.name);
    var names := NamesOf(pre + [d], kind);
    var s0 := Supplied(NamesOf(pre, kind), parameters);
    assert names == NamesOf(pre, kind) + (if Kind(d.bucket) == kind then {d.name} else {}) by {
      NamesOfSnoc(pre + [d], kind);
      assert (pre + [d])[..|pre|] == pre;
    }
    assert MapBucket(Place(b0, d, v), kind) ==
             if Kind(d.bucket) == kind && v != Undefined then MapBucket(b0, kind)[d.name := v]
             else MapBucket(b0, kind) by {
      PlaceMapBucket(b0, d, v, kind);
    }
    if Kind(d.bucket) == kind {
      assert Supplied(names, parameters) == if v != Undefined then s0[d.name := v] else s0 by {
        assert names == NamesOf(pre, kind) + {d.name};
        SuppliedAdd(NamesOf(pre, kind), d.name, parameters);
      }
      if v != Undefined {
        UnionThenUpdate(MapBucket(init, kind), s0, d.name, v);
      }
    } else {
      assert names == NamesOf(pre, kind) by {
        assert names == NamesOf(pre, kind) + {};
      }
      assert MapBucket(Place(b0, d, v), kind) == MapBucket(b0, kind);
    }
  }

  /** Query and form buckets hold exactly the defined query and form parameters, by name. */
  lemma {:induction false} FillMapBucket(params: seq<ParamDecl>, parameters: map<string, JsValue>, init: Buckets,
                                         b: Buckets, kind: BucketKind)
    requires kind == QueryKind || kind == FormKind
    requires Fill(params, parameters, init) == Success(b)
    ensures MapBucket(b, kind) == MapBucket(init, kind) + Supplied(NamesOf(params, kind), parameters)
  {
    if |params| == 0 {
      assert NamesOf(params, kind) == {};
      assert Supplied(NamesOf(params, kind), parameters) == map[];
    } else {
      var pre := params[..|params| - 1];
      var d := params[|params| - 1];
      FillUnfold(params, parameters, init, b);
      var b0 := Fill(pre, parameters, init).value;
      FillMapBucket(pre, parameters, init, b0, kind);
      MapBucketStep(pre, d, parameters, init, b0, kind);
      assert pre + [d] == params;
    }
  }

  /** Every declared path parameter is recorded, defined or not. */
  lemma {:induction false} FillPathParameters(params: seq<ParamDecl>, parameters: map<string, JsValue>, init: Buckets, b: Buckets)
    requires Fill(params, parameters, init) == Success(b)
    ensures b.pathParameters.Keys == init.pathParameters.Keys + NamesOf(params, PathKind)
    ensures forall n :: n in NamesOf(params, PathKind) ==> b.pathParameters[n] == Lookup(parameters, n)
    ensures forall n :: n in init.pathParameters && n !in NamesOf(params, PathKind) ==>
              b.pathParameters[n] == init.pathParameters[n]
  {
    if |params| > 0 {
      var pre := params[..|params| - 1];
      var d := params[|params| - 1];
      var b0 := Fill(pre, parameters, init).value;
      FillPathParameters(pre, parameters, init, b0);
      NamesOfSnoc(params, PathKind);
      var v := Lookup(parameters, d.name);
      assert b.pathParameters == if d.bucket == PathParam then b0.pathParameters[d.name := v] else b0.pathParameters by {
        assert b == Place(b0, d, v);
      }
    }
  }

  /** A single-valued place: the body, or one header. */
  datatype Slot = BodySlot | HeaderSlot(key: string)

  /** The declaration's bucket is the slot. */
  predicate Targets(d: ParamDecl, slot: Slot)
  {
    match slot
    case BodySlot => d.bucket.BodyParam?
    case HeaderSlot(k) => d.bucket == HeaderParam(k)
  }

  predicate Writes(d: ParamDecl, parameters: map<string, JsValue>, slot: Slot)
  {
    Lookup(parameters, d.name) != Undefined && Targets(d, slot)
  }

  function SlotValue(b: Buckets, slot: Slot): Option<JsValue>
  {
    match slot
    case BodySlot => Some(b.body)
    case HeaderSlot(k) => if k in b.headers then Some(b.headers[k]) else None
  }

  lemma PlaceSlot(b: Buckets, d: ParamDecl, v: JsValue, slot: Slot)
    ensures v != Undefined && Targets(d, slot) ==> SlotValue(Place(b, d, v), slot) == Some(v)
    ensures !(v != Undefined && Targets(d, slot)) ==> SlotValue(Place(b, d, v), slot) == SlotValue(b, slot)
  {
  }

  /** Declaration `i` is the last one that writes `slot`. */
  predicate LastWriter(params: seq<ParamDecl>, parameters: map<string, JsValue>, slot: Slot, i: int)
  {
    0 <= i < |params| && Writes(params[i], parameters, slot) &&
    forall j :: i < j < |params| ==> !Writes(params[j], parameters, slot)
  }

  /** The body and each header hold the last defined value written to them, or their initial value when none was. */
  lemma {:induction false} FillSlot(params: seq<ParamDecl>, parameters: map<string, JsValue>, init: Buckets,
                                    b: Buckets, slot: Slot)
    requires Fill(params, parameters, init) == Success(b)
    ensures (forall i :: 0 <= i < |params| ==> !Writes(params[i], parameters, slot)) ==>
              SlotValue(b, slot) == SlotValue(init, slot)
    ensures forall i :: LastWriter(params, parameters, slot, i) ==>
              SlotValue(b, slot) == Some(Lookup(parameters, params[i].name))
  {
    if |params| > 0 {
      var last := |params| - 1;
      var pre := params[..last];
      var d := params[last];
      var v := Lookup(parameters, d.name);
      FillUnfold(params, parameters, init, b);
      var b0 := Fill(pre, parameters, init).value;
      FillSlot(pre, parameters, init, b0, slot);
      PlaceSlot(b0, d, v, slot);
      if Writes(d, parameters, slot) {
        assert SlotValue(b, slot) == Some(v);
        forall i | LastWriter(params, parameters, slot, i) ensures i == last {
          assert Writes(params[last], parameters, slot);
        }
      } else {
        assert SlotValue(b, slot) == SlotValue(b0, slot);
        forall i | LastWriter(params, parameters, slot, i)
          ensures LastWriter(pre, parameters, slot, i)
        {
          assert Writes(params[i], parameters, slot);
          assert i != last;
          assert pre[i] == params[i];
          forall j | i < j < |pre| ensures !Writes(pre[j], parameters, slot) {
            assert pre[j] == params[j];
          }
        }
        if forall i :: 0 <= i < |params| ==> !Writes(params[i], parameters, slot) {
          forall i | 0 <= i < |pre| ensures !Writes(pre[i], parameters, slot) {
            assert pre[i] == params[i];
          }
        }
      }
    }
  }

  // ---- the whole generated method ----

  /** `if (parameters === undefined) parameters = {}`, then the parameter statements. */
  function Prepared(ep: Endpoint, parameters: map<string, JsValue>): Result<Buckets, string>
  {
    Fill(ep.params, parameters, InitialBuckets(ep))
  }

  /** What a generated method does with a parameters object (or `undefined`). */
  function EndpointOutcome(cfg: ClientConfig, ep: Endpoint, parameters: JsValue, lib: Lib, env: Env): CallOutcome
    requires parameters == Undefined || parameters.Obj?
  {
    var ps := PlainEntries(parameters);
    match Prepared(ep, ps)
    case Failure(m) => MissingParameter(m)
    case Success(b) =>
      Dispatched(RequestCall(cfg, ep.httpMethod, b.path, b.pathParameters, b.body, b.headers,
                             MergedQuery(ps, b.queryParameters), b.form, lib, env))
  }

  /** A generated method makes a request exactly when no required parameter is missing, and otherwise names the first one. */
  lemma EndpointOutcomeCharacterised(cfg: ClientConfig, ep: Endpoint, parameters: JsValue, lib: Lib, env: Env)
    requires parameters == Undefined || parameters.Obj?
    ensures var ps := PlainEntries(parameters);
            var o := EndpointOutcome(cfg, ep, parameters, lib, env);
            && (o.Dispatched? <==> forall j :: 0 <= j < |ep.params| ==> !Missing(ep.params[j], ps))
            && (o.MissingParameter? ==> o.message == MissingPrefix + ep.params[FirstMissing(ep.params, ps).value].name)
            && (o.Dispatched? ==> o.call.httpMethod == ep.httpMethod)
  {
    FillFailsAtFirstMissing(ep.params, PlainEntries(parameters), InitialBuckets(ep));
  }

  /** What a dispatched call carries, in terms of the buckets the parameter statements filled. */
  lemma DispatchedCall(cfg: ClientConfig, ep: Endpoint, parameters: map<string, JsValue>, lib: Lib, env: Env, b: Buckets)
    requires Prepared(ep, parameters) == Success(b)
    ensures var o := EndpointOutcome(cfg, ep, Obj(parameters), lib, env);
            && o.Dispatched?
            && o.call.httpMethod == ep.httpMethod
            && o.call.uri == RequestUri(cfg.domain, b.path, MergedQuery(parameters, b.queryParameters), lib)
            && o.call.body == RequestBody(ep.httpMethod, b.body, b.form, lib)
  {
    assert PlainEntries(Obj(parameters)) == parameters;
  }

  /** A header the parameter statements set, other than authCode, reaches fetch unchanged. */
  lemma DispatchedHeader(cfg: ClientConfig, ep: Endpoint, parameters: map<string, JsValue>, lib: Lib, env: Env,
                         b: Buckets, k: string)
    requires Prepared(ep, parameters) == Success(b)
    requires k in b.headers && k != AuthCodeHeader
    ensures var o := EndpointOutcome(cfg, ep, Obj(parameters), lib, env);
            o.Dispatched? && k in o.call.headers && o.call.headers[k] == b.headers[k]
  {
    assert PlainEntries(Obj(parameters)) == parameters;
  }

  /** The authCode header of a dispatched call signs the path parameters and the merged query. */
  lemma DispatchedAuthCode(cfg: ClientConfig, ep: Endpoint, parameters: map<string, JsValue>, lib: Lib, env: Env, b: Buckets)
    requires Prepared(ep, parameters) == Success(b)
    ensures var o := EndpointOutcome(cfg, ep, Obj(parameters), lib, env);
            && o.Dispatched?
            && AuthCodeHeader in o.call.headers
            && o.call.headers[AuthCodeHeader]
               == Str(RequestAuthCode(cfg, ep.httpMethod, b.pathParameters, MergedQuery(parameters, b.queryParameters), lib, env))
  {
    assert PlainEntries(Obj(parameters)) == parameters;
  }

  /** An undefined parameters object behaves like an empty one. */
  lemma UndefinedParametersAreEmpty(cfg: ClientConfig, ep: Endpoint, lib: Lib, env: Env)
    ensures EndpointOutcome(cfg, ep, Undefined, lib, env) == EndpointOutcome(cfg, ep, Obj(map[]), lib, env)
  {
  }
}
