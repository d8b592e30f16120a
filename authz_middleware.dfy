/** The per-request authorization decision. The JWT server middleware, the
    policy engine's Enforce and the wrapped handler are external: they are
    parameters (`verify`, `enforce`, `next`), and the model records which of
    them a request reached, in order. */
module AuthzMiddleware {
  import opened Errors
  import opened AuthzService

  /** What the server transport knows about the call. */
  datatype Transport = Transport(operation: string)

  /** The subject claim of a verified token: its value, or the error text
      reading it produced. */
  datatype SubjectClaim = Subject(sub: string) | SubjectError(text: string)

  /** The request context: the server transport, if any, and the token
      claims the JWT layer stored in it, if any. */
  datatype Context = Context(transport: Option<Transport>, claims: Option<SubjectClaim>)

  /** What the JWT server middleware does with a request: reject it with an
      error, or pass on a context that carries the parsed claims. */
  datatype Verification = Rejected(err: Error) | Verified(ctx: Context)

  /** A handler's return pair: a response (nil when None) and an error. */
  datatype Reply<Resp> = Reply(value: Option<Resp>, err: Option<Error>)

  /** An external capability the request reached. */
  datatype Call = VerifyJwt | EnforceCall(sub: string, obj: string, act: string) | Next(ctx: Context)

  /** How the pipeline ends before the wrapped handler would run. */
  datatype Decision =
    | CallNext(ctx: Context)
    | Reject(kind: Kind, reason: string, message: string)
    | PropagatedError(err: Error)

  /** A decision and the calls (verifier, engine) made to reach it. */
  datatype Step = Step(decision: Decision, calls: seq<Call>)

  /** A whole request: every call made, in order, and the reply returned. */
  datatype Run<Resp> = Run(calls: seq<Call>, reply: Reply<Resp>)

  /** The inner handler run after a successful JWT check: read the claims,
      read the subject, ask the engine. */
  function Authorize(perm: PermissionOption, enforce: (string, string, string) -> Result<bool>,
                     ctx: Context): Step
  {
    match ctx.claims
    case None => Step(Reject(Unauthorized, "NO_USER", "no user"), [])
    case Some(SubjectError(text)) => Step(Reject(Unauthorized, "INVALID_TOKEN", text), [])
    case Some(Subject(sub)) =>
      var call := EnforceCall(sub, perm.obj, perm.act);
      match enforce(sub, perm.obj, perm.act)
      case Err(e) => Step(PropagatedError(e), [call])
      case Ok(false) => Step(Reject(Forbidden, "ACCESS_DENIED", "permission denied"), [call])
      case Ok(true) => Step(CallNext(ctx), [call])
  }

  /** Transport, registry lookup, then (only for registered operations) the
      JWT check wrapped around Authorize. */
  function Decide(r: AuthzRegistry, verify: Context -> Verification,
                  enforce: (string, string, string) -> Result<bool>, ctx: Context): Step
    reads r
    requires r.Valid()
  {
    match ctx.transport
    case None => Step(Reject(Unauthorized, "NO_TRANSPORT", "no transport"), [])
    case Some(tr) =>
      match r.Get(tr.operation)
      case None => Step(CallNext(ctx), [])
      case Some(perm) =>
        match verify(ctx)
        case Rejected(e) => Step(PropagatedError(e), [VerifyJwt])
        case Verified(ctx') =>
          var s := Authorize(perm, enforce, ctx');
          Step(s.decision, [VerifyJwt] + s.calls)
  }

  /** The handler the middleware returns for `next`. The wrapped handler
      runs at most once, as the last call, and exactly when the decision is
      CallNext; its reply is then returned unchanged, and otherwise the reply
      is the rejection or the propagated error with no response. */
  function Handle<Req, Resp>(r: AuthzRegistry, verify: Context -> Verification,
                             enforce: (string, string, string) -> Result<bool>,
                             next: (Context, Req) -> Reply<Resp>, ctx: Context, req: Req): (run: Run<Resp>)
    reads r
    requires r.Valid()
    ensures forall i :: 0 <= i < |run.calls| - 1 ==> !run.calls[i].Next?
    ensures (|run.calls| > 0 && run.calls[|run.calls| - 1].Next?) <==> Decide(r, verify, enforce, ctx).decision.CallNext?
    ensures Decide(r, verify, enforce, ctx).decision.CallNext? ==>
              var c := Decide(r, verify, enforce, ctx).decision.ctx;
              run.calls[|run.calls| - 1] == Next(c) && run.reply == next(c, req)
    ensures !Decide(r, verify, enforce, ctx).decision.CallNext? ==>
              run.reply.value == None && run.reply.err.Some? &&
              run.calls == Decide(r, verify, enforce, ctx).calls
  {
    var s := Decide(r, verify, enforce, ctx);
    match s.decision
    case CallNext(c) => Run(s.calls + [Next(c)], next(c, req))
    case Reject(kind, reason, message) => Run(s.calls, Reply(None, Some(Status(kind, reason, message))))
    case PropagatedError(e) => Run(s.calls, Reply(None, Some(e)))
  }

  /** No server transport: Unauthorized NO_TRANSPORT, and nothing external
      is called. */
  lemma NoTransport<Req, Resp>(r: AuthzRegistry, verify: Context -> Verification,
                               enforce: (string, string, string) -> Result<bool>,
                               next: (Context, Req) -> Reply<Resp>, ctx: Context, req: Req)
    requires r.Valid() && ctx.transport.None?
    ensures Handle(r, verify, enforce, next, ctx, req) ==
            Run([], Reply(None, Some(Status(Unauthorized, "NO_TRANSPORT", "no transport"))))
  {
  }

  /** An operation that is not registered is public: the wrapped handler is
      called once with the original context, no token is verified, the engine
      is not asked, and the handler's reply is returned unchanged. */
  lemma PublicPassThrough<Req, Resp>(r: AuthzRegistry, verify: Context -> Verification,
                                     enforce: (string, string, string) -> Result<bool>,
                                     next: (Context, Req) -> Reply<Resp>, ctx: Context, req: Req)
    requires r.Valid() && ctx.transport.Some? && ctx.transport.value.operation !in r.data.value
    ensures Handle(r, verify, enforce, next, ctx, req) == Run([Next(ctx)], next(ctx, req))
  {
  }

  /** For a registered operation the JWT check comes first; when it rejects,
      its error is returned and neither the engine nor the handler is called. */
  lemma JwtRejected<Req, Resp>(r: AuthzRegistry, verify: Context -> Verification,
                               enforce: (string, string, string) -> Result<bool>,
                               next: (Context, Req) -> Reply<Resp>, ctx: Context, req: Req)
    requires r.Valid() && ctx.transport.Some? && ctx.transport.value.operation in r.data.value
    requires verify(ctx).Rejected?
    ensures Handle(r, verify, enforce, next, ctx, req) ==
            Run([VerifyJwt], Reply(None, Some(verify(ctx).err)))
  {
  }

  /** Every request to a registered operation starts with the JWT check. */
  lemma JwtFirst<Req, Resp>(r: AuthzRegistry, verify: Context -> Verification,
                            enforce: (string, string, string) -> Result<bool>,
                            next: (Context, Req) -> Reply<Resp>, ctx: Context, req: Req)
    requires r.Valid() && ctx.transport.Some? && ctx.transport.value.operation in r.data.value
    ensures var run := Handle(r, verify, enforce, next, ctx, req);
            |run.calls| > 0 && run.calls[0] == VerifyJwt
  {
  }

  /** A verified context without claims: Unauthorized NO_USER, engine and
      handler not called. */
  lemma NoUser<Req, Resp>(r: AuthzRegistry, verify: Context -> Verification,
                          enforce: (string, string, string) -> Result<bool>,
                          next: (Context, Req) -> Reply<Resp>, ctx: Context, req: Req)
    requires r.Valid() && ctx.transport.Some? && ctx.transport.value.operation in r.data.value
    requires verify(ctx).Verified? && verify(ctx).ctx.claims.None?
    ensures Handle(r, verify, enforce, next, ctx, req) ==
            Run([VerifyJwt], Reply(None, Some(Status(Unauthorized, "NO_USER", "no user"))))
  {
  }

  /** An unreadable subject claim: Unauthorized INVALID_TOKEN carrying the
      claim error's text, engine and handler not called. */
  lemma InvalidToken<Req, Resp>(r: AuthzRegistry, verify: Context -> Verification,
                                enforce: (string, string, string) -> Result<bool>,
                                next: (Context, Req) -> Reply<Resp>, ctx: Context, req: Req, text: string)
    requires r.Valid() && ctx.transport.Some? && ctx.transport.value.operation in r.data.value
    requires verify(ctx).Verified? && verify(ctx).ctx.claims == Some(SubjectError(text))
    ensures Handle(r, verify, enforce, next, ctx, req) ==
            Run([VerifyJwt], Reply(None, Some(Status(Unauthorized, "INVALID_TOKEN", text))))
  {
  }

  /** With a subject in hand the engine is asked exactly (subject, object,
      action) of the registered permission; an engine error is returned as is
      and the handler is not called. */
  lemma EnforceError<Req, Resp>(r: AuthzRegistry, verify: Context -> Verification,
                                enforce: (string, string, string) -> Result<bool>,
                                next: (Context, Req) -> Reply<Resp>, ctx: Context, req: Req, sub: string)
    requires r.Valid() && ctx.transport.Some? && ctx.transport.value.operation in r.data.value
    requires verify(ctx).Verified? && verify(ctx).ctx.claims == Some(Subject(sub))
    requires var perm := r.data.value[ctx.transport.value.operation];
             enforce(sub, perm.obj, perm.act).Err?
    ensures var perm := r.data.value[ctx.transport.value.operation];
            Handle(r, verify, enforce, next, ctx, req) ==
            Run([VerifyJwt, EnforceCall(sub, perm.obj, perm.act)],
                Reply(None, Some(enforce(sub, perm.obj, perm.act).error)))
  {
  }

  /** The engine says no: Forbidden ACCESS_DENIED, handler not called. */
  lemma AccessDenied<Req, Resp>(r: AuthzRegistry, verify: Context -> Verification,
                                enforce: (string, string, string) -> Result<bool>,
                                next: (Context, Req) -> Reply<Resp>, ctx: Context, req: Req, sub: string)
    requires r.Valid() && ctx.transport.Some? && ctx.transport.value.operation in r.data.value
    requires verify(ctx).Verified? && verify(ctx).ctx.claims == Some(Subject(sub))
    requires var perm := r.data.value[ctx.transport.value.operation];
             enforce(sub, perm.obj, perm.act) == Ok(false)
    ensures var perm := r.data.value[ctx.transport.value.operation];
            Handle(r, verify, enforce, next, ctx, req) ==
            Run([VerifyJwt, EnforceCall(sub, perm.obj, perm.act)],
                Reply(None, Some(Status(Forbidden, "ACCESS_DENIED", "permission denied"))))
  {
  }

  /** The engine says yes: the handler is called once, with the context the
      JWT layer produced, and its reply is returned unchanged. */
  lemma Allowed<Req, Resp>(r: AuthzRegistry, verify: Context -> Verification,
                           enforce: (string, string, string) -> Result<bool>,
                           next: (Context, Req) -> Reply<Resp>, ctx: Context, req: Req, sub: string)
    requires r.Valid() && ctx.transport.Some? && ctx.transport.value.operation in r.data.value
    requires verify(ctx).Verified? && verify(ctx).ctx.claims == Some(Subject(sub))
    requires var perm := r.data.value[ctx.transport.value.operation];
             enforce(sub, perm.obj, perm.act) == Ok(true)
    ensures var perm := r.data.value[ctx.transport.value.operation];
            var inner := verify(ctx).ctx;
            Handle(r, verify, enforce, next, ctx, req) ==
            Run([VerifyJwt, EnforceCall(sub, perm.obj, perm.act), Next(inner)], next(inner, req))
  {
  }

  /** The wrapped handler runs only on a clean allow: either the operation is
      public, or the token verified, a subject was read, and the engine
      answered true for exactly that subject and the registered permission. */
  lemma NextOnlyOnAllow<Req, Resp>(r: AuthzRegistry, verify: Context -> Verification,
                                   enforce: (string, string, string) -> Result<bool>,
                                   next: (Context, Req) -> Reply<Resp>, ctx: Context, req: Req, i: nat)
    requires r.Valid()
    requires var run := Handle(r, verify, enforce, next, ctx, req);
             i < |run.calls| && run.calls[i].Next?
    ensures ctx.transport.Some?
    ensures var op := ctx.transport.value.operation;
            op !in r.data.value ||
            (verify(ctx).Verified? && verify(ctx).ctx.claims.Some? && verify(ctx).ctx.claims.value.Subject? &&
             var sub := verify(ctx).ctx.claims.value.sub;
             var perm := r.data.value[op];
             enforce(sub, perm.obj, perm.act) == Ok(true))
  {
  }

  /** A request is Forbidden by the middleware only when the engine answered
      false (the reason ACCESS_DENIED identifies that branch), and every
      Unauthorized it produces names one of the three identity checks. */
  lemma RejectionsIdentifyBranch(r: AuthzRegistry, verify: Context -> Verification,
                                 enforce: (string, string, string) -> Result<bool>, ctx: Context)
    requires r.Valid()
    ensures var d := Decide(r, verify, enforce, ctx).decision;
            d.Reject? && d.kind == Forbidden ==>
              d.reason == "ACCESS_DENIED" && ctx.transport.Some? &&
              var op := ctx.transport.value.operation;
              op in r.data.value && verify(ctx).Verified? && verify(ctx).ctx.claims.Some? &&
              verify(ctx).ctx.claims.value.Subject? &&
              enforce(verify(ctx).ctx.claims.value.sub, r.data.value[op].obj, r.data.value[op].act) == Ok(false)
    ensures var d := Decide(r, verify, enforce, ctx).decision;
            d.Reject? && d.kind == Unauthorized ==>
              (d.reason == "NO_TRANSPORT" || d.reason == "NO_USER" || d.reason == "INVALID_TOKEN") &&
              (d.reason == "NO_TRANSPORT" <==> ctx.transport.None?) &&
              (d.reason == "NO_USER" <==> (ctx.transport.Some? && verify(ctx).Verified? && verify(ctx).ctx.claims.None?)) &&
              (d.reason == "INVALID_TOKEN" <==>
                 (ctx.transport.Some? && verify(ctx).Verified? &&
                  verify(ctx).ctx.claims.Some? && verify(ctx).ctx.claims.value.SubjectError?))
  {
  }

  /** The worked example: one protected operation, /user.v1.UserService/DeleteUser,
      needing (user, delete); a subject the engine allows reaches the handler,
      one it refuses is Forbidden, and the public Login needs no token at all. */
  lemma DeleteUserExample<Req, Resp>(r: AuthzRegistry, verify: Context -> Verification,
                                     enforce: (string, string, string) -> Result<bool>,
                                     next: (Context, Req) -> Reply<Resp>, req: Req)
    requires r.data == Some(map["/user.v1.UserService/DeleteUser" := PermissionOption("user", "delete", ["admin"])])
    requires verify(Context(Some(Transport("/user.v1.UserService/DeleteUser")), None)) ==
             Verified(Context(Some(Transport("/user.v1.UserService/DeleteUser")), Some(Subject("alice"))))
    requires verify(Context(Some(Transport("/user.v1.UserService/DeleteUser")), Some(Subject("bob")))) ==
             Verified(Context(Some(Transport("/user.v1.UserService/DeleteUser")), Some(Subject("bob"))))
    requires enforce("alice", "user", "delete") == Ok(true)
    requires enforce("bob", "user", "delete") == Ok(false)
    ensures var inner := Context(Some(Transport("/user.v1.UserService/DeleteUser")), Some(Subject("alice")));
            Handle(r, verify, enforce, next, Context(Some(Transport("/user.v1.UserService/DeleteUser")), None), req) ==
            Run([VerifyJwt, EnforceCall("alice", "user", "delete"), Next(inner)], next(inner, req))
    ensures Handle(r, verify, enforce, next, Context(Some(Transport("/user.v1.UserService/DeleteUser")), Some(Subject("bob"))), req).reply ==
            Reply(None, Some(Status(Forbidden, "ACCESS_DENIED", "permission denied")))
    ensures var login := Context(Some(Transport("/auth.v1.AuthService/Login")), None);
            Handle(r, verify, enforce, next, login, req) == Run([Next(login)], next(login, req))
  {
    assert "/auth.v1.AuthService/Login" != "/user.v1.UserService/DeleteUser";
  }
}
