/** The JSON-RPC dispatcher: a method table, the request pipeline (validate, look up, invoke,
    respond) and the newline-framed serve loop as a fold over input lines. */
module JsonRpcServer {
  import opened Wrappers
  import opened Json
  import opened JsonRpcErrors
  import opened JsonRpcTypes

  /** What a handler can come back with: a (possibly nil) result, a typed protocol error
      (any Go error whose chain holds a `*Error`), or any other error, described by its text. */
  datatype Outcome<R> = Ok(result: Option<R>) | RpcErr(err: Error) | OtherErr(msg: string)

  /** A handler sees only the raw params. */
  type Handler<!P, R> = P -> Outcome<R>

  /** The dispatcher's state: handlers by method name. */
  datatype Server<!P, R> = Server(handlers: map<string, Handler<P, R>>)

  function NewServer<P, R>(): (s: Server<P, R>)
    ensures s.handlers.Keys == {}
  {
    Server(map[])
  }

  /** Last registration wins for `name`; every other method keeps its handler. */
  function RegisterMethod<P, R>(s: Server<P, R>, name: string, h: Handler<P, R>): (r: Server<P, R>)
    ensures name in r.handlers && r.handlers[name] == h
    ensures r.handlers.Keys == s.handlers.Keys + {name}
    ensures forall m :: m in s.handlers && m != name ==> r.handlers[m] == s.handlers[m]
  {
    Server(s.handlers[name := h])
  }

  /** The response a handler outcome turns into: typed errors pass through unchanged, other
      errors become internal errors, results become success responses. */
  function OutcomeResponse<R>(outcome: Outcome<R>, id: Option<Id>): (r: Response<R>)
    ensures r.jsonrpc == Version && r.id == id
    ensures outcome.Ok? ==> r.error.None? && r.result == outcome.result
    ensures outcome.RpcErr? ==> r.result.None? && r.error == Some(outcome.err)
    ensures outcome.OtherErr? ==> r.result.None? && r.error.Some? && r.error.value.code == ErrorInternal
  {
    match outcome
    case Ok(result) => NewSuccessResponse(result, id)
    case RpcErr(err) => NewErrorResponse(id, err)
    case OtherErr(msg) => NewErrorResponse(id, NewInternalError(msg))
  }

  /** Validate, then look the method up, then run its handler. Whatever happens, the answer
      carries version 2.0 and the request's own identifier. */
  function HandleRequest<P, R>(s: Server<P, R>, req: Request<P>): (r: Response<R>)
    ensures r.jsonrpc == Version && r.id == req.id
    ensures Validate(req).Some? ==> r.result.None? && r.error == Validate(req)
    ensures req.jsonrpc != Version ==> r.error.Some? && r.error.value.code == ErrorInvalidRequest
    ensures req.jsonrpc == Version && req.methodName == "" ==>
              r.error.Some? && r.error.value.code == ErrorInvalidRequest
    ensures Validate(req).None? && req.methodName !in s.handlers ==>
              r.result.None? && r.error.Some? && r.error.value.code == ErrorMethodNotFound
    ensures Validate(req).None? && req.methodName in s.handlers ==>
              r == OutcomeResponse(s.handlers[req.methodName](req.params), req.id)
  {
    match Validate(req)
    case Some(err) => NewErrorResponse(req.id, err)
    case None =>
      if req.methodName !in s.handlers then
        NewErrorResponse(req.id, NewMethodNotFoundError(req.methodName))
      else
        OutcomeResponse(s.handlers[req.methodName](req.params), req.id)
  }

  /** A request that fails validation is answered without consulting the method table:
      any two servers give the same response. */
  lemma InvalidRequestNeverDispatched<P, R>(s1: Server<P, R>, s2: Server<P, R>, req: Request<P>)
    requires Validate(req).Some?
    ensures HandleRequest(s1, req) == HandleRequest(s2, req)
    ensures HandleRequest(s1, req).error == Validate(req)
  {
  }

  /** An unregistered method is answered without running any handler: the response does not
      depend on what else is registered. */
  lemma UnknownMethodNeverDispatched<P, R>(s1: Server<P, R>, s2: Server<P, R>, req: Request<P>)
    requires Validate(req).None?
    requires req.methodName !in s1.handlers && req.methodName !in s2.handlers
    ensures HandleRequest(s1, req) == HandleRequest(s2, req)
    ensures HandleRequest(s1, req).error.Some?
    ensures HandleRequest(s1, req).error.value.code == ErrorMethodNotFound
  {
  }

  /** A registered method's response depends on its handler only through the outcome for
      this request's params. */
  lemma DispatchDependsOnlyOnOutcome<P, R>(s1: Server<P, R>, s2: Server<P, R>, req: Request<P>)
    requires Validate(req).None?
    requires req.methodName in s1.handlers && req.methodName in s2.handlers
    requires s1.handlers[req.methodName](req.params) == s2.handlers[req.methodName](req.params)
    ensures HandleRequest(s1, req) == HandleRequest(s2, req)
  {
  }

  /** One line read from the input stream, after the decode step. */
  datatype Line<P> = Undecodable(cause: string) | Decoded(req: Request<P>)

  /** How reading ended: at end of stream (any unterminated trailing fragment is discarded
      with it) or with any other read failure. */
  datatype StreamEnd = Eof | ReadFailure(err: string)

  datatype Input<P> = Input(lines: seq<Line<P>>, end: StreamEnd)

  /** Whether a line is answered: malformed lines always are, decoded ones unless they are
      notifications. */
  predicate GetsReply<P>(line: Line<P>) {
    line.Undecodable? || !IsNotification(line.req)
  }

  /** The per-line step of the serve loop: what, if anything, is written for one line. */
  function ServeLine<P, R>(s: Server<P, R>, line: Line<P>): (out: Option<Response<R>>)
    ensures out.Some? <==> GetsReply(line)
    ensures line.Undecodable? ==>
              out.Some? && out.value.jsonrpc == Version && out.value.id.None? && out.value.result.None?
              && out.value.error.Some? && out.value.error.value.code == ErrorParseError
    ensures line.Decoded? && out.Some? ==> out.value == HandleRequest(s, line.req)
  {
    match line
    case Undecodable(cause) => Some(NewErrorResponse(None, NewParseError(cause)))
    case Decoded(req) =>
      var res := HandleRequest(s, req);
      if IsNotification(req) then None else Some(res)
  }

  /** A decoded request is answered exactly when it carries an identifier; a notification is
      still handled, but whatever `HandleRequest` produced for it is dropped. */
  lemma DecodedAnsweredIffIdentified<P, R>(s: Server<P, R>, req: Request<P>)
    ensures ServeLine(s, Decoded(req)).Some? <==> req.id.Some?
    ensures ServeLine(s, Decoded(req)).Some? <==> !IsNotification(req)
    ensures req.id.Some? ==> ServeLine(s, Decoded(req)) == Some(HandleRequest(s, req))
  {
  }

  /** Being a notification depends on the identifier alone, and it is exactly what silences
      a decoded request: a notification gets no output from any method table, however its
      version, method or params look, and a request with an identifier gets output from
      every method table. */
  lemma NotificationIffUnanswered<P, R>(req: Request<P>)
    ensures IsNotification(req) <==> req.id.None?
    ensures IsNotification(req) <==> forall s: Server<P, R> :: ServeLine(s, Decoded(req)).None?
  {
    if !IsNotification(req) {
      var s: Server<P, R> := NewServer();
      assert ServeLine(s, Decoded(req)).Some?;
    }
  }

  /** How many lines of `lines` are answered. */
  function CountReplies<P>(lines: seq<Line<P>>): nat {
    if |lines| == 0 then 0
    else (if GetsReply(lines[0]) then 1 else 0) + CountReplies(lines[1..])
  }

  /** Everything the loop writes for `lines`, in order. */
  function Replies<P, R>(s: Server<P, R>, lines: seq<Line<P>>): (out: seq<Response<R>>)
    ensures |out| == CountReplies(lines)
    ensures |out| <= |lines|
  {
    if |lines| == 0 then []
    else ToSeq(ServeLine(s, lines[0])) + Replies(s, lines[1..])
  }

  /** The positions, from `i` on, of the lines that are answered, in increasing order. */
  function AnsweredFrom<P>(lines: seq<Line<P>>, i: nat): seq<nat>
    requires i <= |lines|
    decreases |lines| - i
  {
    if i == |lines| then []
    else (if GetsReply(lines[i]) then [i] else []) + AnsweredFrom(lines, i + 1)
  }

  function Answered<P>(lines: seq<Line<P>>): seq<nat> {
    AnsweredFrom(lines, 0)
  }

  /** Writing is compositional: the output for two stretches of input is the output of the
      first followed by that of the second. */
  lemma {:induction false} RepliesAppend<P, R>(s: Server<P, R>, a: seq<Line<P>>, b: seq<Line<P>>)
    ensures Replies(s, a + b) == Replies(s, a) + Replies(s, b)
    decreases |a|
  {
    if |a| == 0 {
      assert a + b == b;
    } else {
      assert (a + b)[1..] == a[1..] + b;
      RepliesAppend(s, a[1..], b);
    }
  }

  /** Every answered position from `i` on names an answered line at or after `i`. */
  lemma {:induction false} AnsweredFromBounds<P>(lines: seq<Line<P>>, i: nat)
    requires i <= |lines|
    ensures forall k :: 0 <= k < |AnsweredFrom(lines, i)| ==>
              i <= AnsweredFrom(lines, i)[k] < |lines| && GetsReply(lines[AnsweredFrom(lines, i)[k]])
    decreases |lines| - i
  {
    if i < |lines| {
      AnsweredFromBounds(lines, i + 1);
    }
  }

  /** The answered positions from `i` on strictly increase. */
  lemma {:induction false} AnsweredFromIncreasing<P>(lines: seq<Line<P>>, i: nat)
    requires i <= |lines|
    ensures forall k, l :: 0 <= k < l < |AnsweredFrom(lines, i)| ==>
              AnsweredFrom(lines, i)[k] < AnsweredFrom(lines, i)[l]
    decreases |lines| - i
  {
    if i < |lines| {
      AnsweredFromIncreasing(lines, i + 1);
      AnsweredFromBounds(lines, i + 1);
    }
  }

  /** Every answered line at or after `i` is among the answered positions from `i` on. */
  lemma {:induction false} AnsweredFromCovers<P>(lines: seq<Line<P>>, i: nat)
    requires i <= |lines|
    ensures forall j :: i <= j < |lines| && GetsReply(lines[j]) ==> j in AnsweredFrom(lines, i)
    decreases |lines| - i
  {
    if i < |lines| {
      AnsweredFromCovers(lines, i + 1);
    }
  }

  /** The answered positions from `i` on are answered lines at or after `i`, strictly
      increasing, and include every answered line at or after `i`. */
  lemma AnsweredFromPositions<P>(lines: seq<Line<P>>, i: nat)
    requires i <= |lines|
    ensures var ans := AnsweredFrom(lines, i);
      && (forall k :: 0 <= k < |ans| ==> i <= ans[k] < |lines| && GetsReply(lines[ans[k]]))
      && (forall k, l :: 0 <= k < l < |ans| ==> ans[k] < ans[l])
      && (forall j :: i <= j < |lines| && GetsReply(lines[j]) ==> j in ans)
  {
    AnsweredFromBounds(lines, i);
    AnsweredFromIncreasing(lines, i);
    AnsweredFromCovers(lines, i);
  }

  /** One more line read adds exactly that line's reply, if any, to the output. */
  lemma RepliesSnoc<P, R>(s: Server<P, R>, lines: seq<Line<P>>, line: Line<P>)
    ensures Replies(s, lines + [line]) == Replies(s, lines) + ToSeq(ServeLine(s, line))
  {
    RepliesAppend(s, lines, [line]);
    assert [line][1..] == [];
  }

  /** The replies written for the lines from `i` on match, one for one, the answered
      positions from `i` on. */
  lemma {:induction false} RepliesFrom<P, R>(s: Server<P, R>, lines: seq<Line<P>>, i: nat)
    requires i <= |lines|
    ensures var out, ans := Replies(s, lines[i..]), AnsweredFrom(lines, i);
      && |out| == |ans|
      && (forall k :: 0 <= k < |ans| ==>
            ans[k] < |lines| && ServeLine(s, lines[ans[k]]) == Some(out[k]))
    decreases |lines| - i
  {
    if i < |lines| {
      RepliesFrom(s, lines, i + 1);
      AnsweredFromPositions(lines, i);
      assert lines[i..][1..] == lines[i + 1..];
    }
  }

  /** The serve loop answers each line at most once and in input order: the k-th response
      written is the reply to the k-th answered line, every line that is not a notification
      gets its reply, and notifications get none. */
  lemma RepliesInInputOrder<P, R>(s: Server<P, R>, lines: seq<Line<P>>)
    ensures var out, ans := Replies(s, lines), Answered(lines);
      && |out| == |ans|
      && (forall k :: 0 <= k < |ans| ==>
            ans[k] < |lines| && GetsReply(lines[ans[k]])
            && ServeLine(s, lines[ans[k]]) == Some(out[k]))
      && (forall k, l :: 0 <= k < l < |ans| ==> ans[k] < ans[l])
      && (forall j :: 0 <= j < |lines| && GetsReply(lines[j]) ==> j in ans)
  {
    RepliesFrom(s, lines, 0);
    AnsweredFromPositions(lines, 0);
    assert lines[0..] == lines;
  }

  /** The serve loop: read a line, answer it unless it is a decoded notification, go on until
      the stream ends. A clean end of stream returns nil, any other read failure returns it. */
  method ServeStdio<P, R>(s: Server<P, R>, input: Input<P>) returns (written: seq<Response<R>>, ret: Option<string>)
    ensures written == Replies(s, input.lines)
    ensures |written| == CountReplies(input.lines)
    ensures ret.None? <==> input.end.Eof?
    ensures input.end.ReadFailure? ==> ret == Some(input.end.err)
  {
    written := [];
    var i := 0;
    while i < |input.lines|
      invariant 0 <= i <= |input.lines|
      invariant written == Replies(s, input.lines[..i])
    {
      var out := ServeLine(s, input.lines[i]);
      RepliesSnoc(s, input.lines[..i], input.lines[i]);
      assert input.lines[..i + 1] == input.lines[..i] + [input.lines[i]];
      written := written + ToSeq(out);
      i := i + 1;
    }
    assert input.lines[..i] == input.lines;
    match input.end
    case Eof => ret := None;
    case ReadFailure(err) => ret := Some(err);
  }
}
