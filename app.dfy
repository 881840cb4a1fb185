/**
 * The application object `MyWeb` of web/main.py.
 *
 * The application holds the registered routers in order, a global
 * context and its own request and response interceptors. A request goes
 * through the global request interceptors, then to each router in turn;
 * the first router that gives back a (truthy) response has it passed
 * through the global response interceptors. When no router answers the
 * result is 404 Not Found.
 */
module App {
  import opened Wrappers
  import opened Errors
  import opened Contexts
  import opened Routing

  /** The entry under which a registered router finds itself. */
  const RouteKey: string := "route"

  /** The state of every router, in order. */
  function StatesOf(rs: seq<Router>): (states: seq<RouterState>)
    reads set r | r in rs, set r | r in rs :: r.ctx
    ensures |states| == |rs|
    ensures forall i :: 0 <= i < |rs| ==> states[i] == rs[i].State()
  {
    if rs == [] then [] else [rs[0].State()] + StatesOf(rs[1..])
  }

  /** What serving a request gives back, or raises, and what ran on the way, in order. */
  datatype Served = Served(result: Result<Reply, Error>, trace: seq<Event>)

  /**
   * The routers from `i` on are asked in order, after `ran` has run; the
   * first reply that is not None decides, and the global response
   * interceptors run on it alone.
   */
  function Dispatch(states: seq<RouterState>, i: nat, ctx: map<string, Value>, post: seq<PostInterceptor>,
                    req: Request, engine: Engine, ran: seq<Event>): (r: Served)
    requires i <= |states|
    ensures r.result.Err? ==> r.result.error == NotFound || r.result.error == KeyError || r.result.error == ValueError
    decreases |states| - i
  {
    if i == |states| then Served(Err(NotFound), ran)
    else
      var a := Match(states[i], req, engine);
      match a.reply
      case Err(e) => Served(Err(e), ran + a.trace)
      case Ok(Some(response)) => Served(Ok(ApplyPost(post, ctx, req, Some(response))), ran + a.trace + Calls(AppResponse, |post|))
      case Ok(None) => Dispatch(states, i + 1, ctx, post, req, engine, ran + a.trace)
  }

  /** `MyWeb.__call__`, as a function of the application's state: the global request interceptors run first. */
  function Serve(states: seq<RouterState>, ctx: map<string, Value>, pre: seq<PreInterceptor>, post: seq<PostInterceptor>,
                 req: Request, engine: Engine): (r: Served)
    ensures r.result.Err? ==> r.result.error == NotFound || r.result.error == KeyError || r.result.error == ValueError
  {
    Dispatch(states, 0, ctx, post, ApplyPre(pre, ctx, req), engine, Calls(AppRequest, |pre|))
  }

  /** One router asked by `Dispatch`: its attempt decides, or the next router is asked after it. */
  lemma DispatchStep(states: seq<RouterState>, i: nat, ctx: map<string, Value>, post: seq<PostInterceptor>,
                     req: Request, engine: Engine, ran: seq<Event>, a: Attempt)
    requires i < |states| && a == Match(states[i], req, engine)
    ensures a.reply == Ok(None) ==> Dispatch(states, i, ctx, post, req, engine, ran) == Dispatch(states, i + 1, ctx, post, req, engine, ran + a.trace)
    ensures a.reply.Err? ==> Dispatch(states, i, ctx, post, req, engine, ran) == Served(Err(a.reply.error), ran + a.trace)
    ensures a.reply.Ok? && a.reply.value.Some? ==>
      Dispatch(states, i, ctx, post, req, engine, ran) == Served(Ok(ApplyPost(post, ctx, req, a.reply.value)), ran + a.trace + Calls(AppResponse, |post|))
  {
  }

  /** The first router at or after `from` whose reply is not None. */
  function FirstAnswer(states: seq<RouterState>, from: nat, req: Request, engine: Engine): (r: Option<nat>)
    requires from <= |states|
    ensures r.Some? ==> from <= r.value < |states| && Match(states[r.value], req, engine).reply != Ok(None)
    ensures r.Some? ==> forall j :: from <= j < r.value ==> Match(states[j], req, engine).reply == Ok(None)
    ensures r.None? ==> forall j :: from <= j < |states| ==> Match(states[j], req, engine).reply == Ok(None)
    decreases |states| - from
  {
    if from == |states| then None
    else if Match(states[from], req, engine).reply != Ok(None) then Some(from)
    else FirstAnswer(states, from + 1, req, engine)
  }

  /**
   * Every router sees the request after all global request interceptors;
   * the first router that replies decides: its exception propagates, its
   * response goes through the global response interceptors, and with no
   * reply at all the request is not found.
   */
  lemma {:induction false} DispatchByFirstAnswer(states: seq<RouterState>, from: nat, ctx: map<string, Value>,
                                                 post: seq<PostInterceptor>, req: Request, engine: Engine, ran: seq<Event>)
    requires from <= |states|
    ensures FirstAnswer(states, from, req, engine).None? ==> Dispatch(states, from, ctx, post, req, engine, ran).result == Err(NotFound)
    ensures FirstAnswer(states, from, req, engine).Some? ==>
      var reply := Match(states[FirstAnswer(states, from, req, engine).value], req, engine).reply;
      Dispatch(states, from, ctx, post, req, engine, ran).result
        == if reply.Err? then Err(reply.error) else Ok(ApplyPost(post, ctx, req, reply.value))
    decreases |states| - from
  {
    if from < |states| && Match(states[from], req, engine).reply == Ok(None) {
      DispatchByFirstAnswer(states, from + 1, ctx, post, req, engine, ran + Match(states[from], req, engine).trace);
    }
  }

  /** 404 exactly when no router replies to the globally intercepted request. */
  lemma NotFoundIff(states: seq<RouterState>, ctx: map<string, Value>, pre: seq<PreInterceptor>, post: seq<PostInterceptor>,
                    req: Request, engine: Engine)
    ensures Serve(states, ctx, pre, post, req, engine).result == Err(NotFound)
      <==> forall j :: 0 <= j < |states| ==> Match(states[j], ApplyPre(pre, ctx, req), engine).reply == Ok(None)
  {
    DispatchByFirstAnswer(states, 0, ctx, post, ApplyPre(pre, ctx, req), engine, Calls(AppRequest, |pre|));
  }

  /**
   * The global response interceptors run only on a router's response:
   * a served reply is a router's response after them.
   */
  lemma GlobalPostOnlyOnResponse(states: seq<RouterState>, ctx: map<string, Value>, pre: seq<PreInterceptor>,
                                 post: seq<PostInterceptor>, req: Request, engine: Engine)
    requires Serve(states, ctx, pre, post, req, engine).result.Ok?
    ensures var r := ApplyPre(pre, ctx, req);
      var i := FirstAnswer(states, 0, r, engine);
      i.Some? && Match(states[i.value], r, engine).reply.Ok? && Match(states[i.value], r, engine).reply.value.Some?
      && Serve(states, ctx, pre, post, req, engine).result.value == ApplyPost(post, ctx, r, Match(states[i.value], r, engine).reply.value)
  {
    DispatchByFirstAnswer(states, 0, ctx, post, ApplyPre(pre, ctx, req), engine, Calls(AppRequest, |pre|));
  }

  /** What ran before the routers were asked stays at the head of the trace. */
  lemma {:induction false} DispatchKeepsHead(states: seq<RouterState>, from: nat, ctx: map<string, Value>,
                                             post: seq<PostInterceptor>, req: Request, engine: Engine, ran: seq<Event>)
    requires from <= |states|
    ensures var d := Dispatch(states, from, ctx, post, req, engine, ran);
      |d.trace| >= |ran| && d.trace[..|ran|] == ran
    decreases |states| - from
  {
    if from < |states| {
      var a := Match(states[from], req, engine);
      var d := Dispatch(states, from, ctx, post, req, engine, ran);
      if a.reply == Ok(None) {
        DispatchKeepsHead(states, from + 1, ctx, post, req, engine, ran + a.trace);
        assert (ran + a.trace)[..|ran|] == ran;
      } else if a.reply.Ok? {
        assert d.trace == ran + (a.trace + Calls(AppResponse, |post|));
      }
    }
  }

  /** `__call__` runs every global request interceptor, in order, before anything else. */
  lemma GlobalRequestFirst(states: seq<RouterState>, ctx: map<string, Value>, pre: seq<PreInterceptor>, post: seq<PostInterceptor>,
                           req: Request, engine: Engine)
    ensures var t := Serve(states, ctx, pre, post, req, engine).trace;
      |t| >= |pre| && t[..|pre|] == Calls(AppRequest, |pre|)
  {
    DispatchKeepsHead(states, 0, ctx, post, ApplyPre(pre, ctx, req), engine, Calls(AppRequest, |pre|));
  }

  /** A request that is not found never reaches the global response interceptors. */
  lemma {:induction false} NotFoundNoGlobalResponse(states: seq<RouterState>, from: nat, ctx: map<string, Value>,
                                                    post: seq<PostInterceptor>, req: Request, engine: Engine, ran: seq<Event>)
    requires from <= |states| && NoneRan(ran, AppResponse)
    ensures Dispatch(states, from, ctx, post, req, engine, ran).result == Err(NotFound) ==>
      NoneRan(Dispatch(states, from, ctx, post, req, engine, ran).trace, AppResponse)
    decreases |states| - from
  {
    if from < |states| {
      var a := Match(states[from], req, engine);
      if a.reply == Ok(None) {
        ResponseInterceptorsOnlyAfterHandler(states[from], req, engine);
        NoneRanConcat(ran, a.trace, AppResponse);
        NotFoundNoGlobalResponse(states, from + 1, ctx, post, req, engine, ran + a.trace);
      }
    }
  }

  /** On a response, the last thing that ran is the whole list of global response interceptors, in order. */
  lemma {:induction false} GlobalResponseLast(states: seq<RouterState>, from: nat, ctx: map<string, Value>,
                                              post: seq<PostInterceptor>, req: Request, engine: Engine, ran: seq<Event>)
    requires from <= |states|
    ensures var d := Dispatch(states, from, ctx, post, req, engine, ran);
      d.result.Ok? ==> |d.trace| >= |post| && d.trace[|d.trace| - |post|..] == Calls(AppResponse, |post|)
    decreases |states| - from
  {
    if from < |states| {
      var a := Match(states[from], req, engine);
      var d := Dispatch(states, from, ctx, post, req, engine, ran);
      if a.reply == Ok(None) {
        GlobalResponseLast(states, from + 1, ctx, post, req, engine, ran + a.trace);
      } else if a.reply.Ok? {
        assert d.trace[|d.trace| - |post|..] == Calls(AppResponse, |post|);
      }
    }
  }

  /**
   * `__call__` ends in 404 without calling a global response interceptor;
   * when it answers, the global response interceptors are the last to run.
   */
  lemma ServeTrace(states: seq<RouterState>, ctx: map<string, Value>, pre: seq<PreInterceptor>, post: seq<PostInterceptor>,
                   req: Request, engine: Engine)
    ensures var s := Serve(states, ctx, pre, post, req, engine);
      s.result == Err(NotFound) ==> NoneRan(s.trace, AppResponse)
    ensures var s := Serve(states, ctx, pre, post, req, engine);
      s.result.Ok? ==> |s.trace| >= |post| && s.trace[|s.trace| - |post|..] == Calls(AppResponse, |post|)
  {
    var r := ApplyPre(pre, ctx, req);
    CallsOnly(AppRequest, |pre|, AppResponse);
    NotFoundNoGlobalResponse(states, 0, ctx, post, r, engine, Calls(AppRequest, |pre|));
    GlobalResponseLast(states, 0, ctx, post, r, engine, Calls(AppRequest, |pre|));
  }

  /** `MyWeb`: one application object holding what the source keeps in class attributes. */
  class MyWeb {
    var routers: seq<Router>
    var ctx: Context
    var pre: seq<PreInterceptor>
    var post: seq<PostInterceptor>

    constructor()
      ensures routers == [] && pre == [] && post == []
      ensures fresh(ctx) && ctx.entries == map[]
    {
      routers := [];
      ctx := new Context();
      pre := [];
      post := [];
    }

    /** The state serving reads. */
    function States(): seq<RouterState>
      reads this, set r | r in routers, set r | r in routers :: r.ctx
    {
      StatesOf(routers)
    }

    method RegPreinterceptor(f: PreInterceptor)
      modifies this
      ensures pre == old(pre) + [f]
      ensures routers == old(routers) && ctx == old(ctx) && post == old(post)
    {
      pre := pre + [f];
    }

    method RegPostinterceptor(f: PostInterceptor)
      modifies this
      ensures post == old(post) + [f]
      ensures routers == old(routers) && ctx == old(ctx) && pre == old(pre)
    {
      post := post + [f];
    }

    /**
     * `register_router(router)`: the router is appended, finds itself
     * under `route` in its own context, and that context is linked to the
     * global one.
     */
    method RegisterRouter(r: Router)
      modifies this, r.ctx
      ensures routers == old(routers) + [r]
      ensures ctx == old(ctx) && pre == old(pre) && post == old(post)
      ensures r.ctx.entries == old(r.ctx.entries)[RouteKey := ObjectRef(r)][LinkKey := ContextRef(ctx)]
    {
      routers := routers + [r];
      r.ctx.Set(RouteKey, ObjectRef(r));
      r.ctx.Relate(Some(ctx));
    }

    /** `@reg_extend(name)` applied to `extend`: a global entry. */
    method RegExtend(name: string, extend: Value)
      modifies ctx
      ensures ctx.entries == old(ctx.entries)[name := extend]
    {
      ctx.Set(name, extend);
    }

    /**
     * `__call__(request)`: the loops of `__call__`, proved to compute `Serve`
     * on the routers as the request found them (serving changes no router).
     */
    method Call(req: Request, engine: Engine) returns (result: Result<Reply, Error>, trace: seq<Event>)
      ensures Served(result, trace) == Serve(old(States()), ctx.entries, pre, post, req, engine)
    {
      var r;
      r, trace := RunPre(pre, AppRequest, ctx.entries, req);
      var i := 0;
      while i < |routers|
        invariant 0 <= i <= |routers|
        invariant Dispatch(old(States()), i, ctx.entries, post, r, engine, trace) == Serve(old(States()), ctx.entries, pre, post, req, engine)
      {
        var attempt := routers[i].RouteMatch(r, engine);
        DispatchStep(old(States()), i, ctx.entries, post, r, engine, trace, attempt);
        trace := trace + attempt.trace;
        if attempt.reply.Err? {
          return Err(attempt.reply.error), trace;
        }
        if attempt.reply.value.Some? {
          var response, responded := RunPost(post, AppResponse, ctx.entries, r, attempt.reply.value);
          return Ok(response), trace + responded;
        }
        i := i + 1;
      }
      return Err(NotFound), trace;
    }
  }

  /**
   * After registration, the router's context reads as its own entries laid
   * over the global ones, and it finds itself under `route`.
   */
  lemma RegisteredContext(app: MyWeb, r: Router, item: string)
    requires LinkKey in r.ctx.entries && r.ctx.entries[LinkKey] == ContextRef(app.ctx)
    requires RouteKey in r.ctx.entries && r.ctx.entries[RouteKey] == ObjectRef(r)
    ensures r.ctx.GetAttr(RouteKey) == Ok(ObjectRef(r))
    ensures r.ctx.GetAttr(item).Ok? <==> item in app.ctx.entries || item in r.ctx.entries
    ensures item !in r.ctx.entries && item in app.ctx.entries ==> r.ctx.GetAttr(item) == Ok(app.ctx.entries[item])
  {
    NestedLookup(r.ctx, app.ctx, item);
  }
}
