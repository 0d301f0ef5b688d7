/**
 * A client and its session, end to end: the client writes requests, the bytes arrive in any chunks, and
 * what the client decodes from the session's output is what the gateway did.
 */
module ClientSession {
  import opened Types
  import opened Bytes
  import opened Engine
  import opened Gateway
  import opened Wire
  import opened FieldWidths
  import opened WireReplies
  import S = Session
  import EngineClass
  import SessionClass

  /** A request and the sequence number the client puts in its header. */
  datatype Sent = Sent(seqNo: nat, request: Request)

  /** What fits the fields of a request frame. */
  predicate Sendable(r: Request) {
    match r
    case OrderRequest(c) => (c.NewLimit? || c.NewMarket?) && CommandFits(c)
    case CancelRequest(symbol, id) => symbol < TWO32 && id < TWO64
    case HeartbeatRequest(token) => token < TWO64
    case Malformed => false
  }

  function Written(x: Sent): seq<Byte>
    requires Sendable(x.request)
  {
    match x.request
    case OrderRequest(c) =>
      if c.NewLimit? then EncodeOrder(x.seqNo, c.id, c.symbol, c.price, c.quantity, c.side, false, c.tif)
      else EncodeOrder(x.seqNo, c.id, c.symbol, 0, c.quantity, c.side, true, GTC)
    case CancelRequest(symbol, id) => EncodeCancel(x.seqNo, id, symbol)
    case HeartbeatRequest(token) => EncodeHeartbeat(x.seqNo, token)
  }

  ghost predicate AllSendable(xs: seq<Sent>) {
    forall i :: 0 <= i < |xs| ==> Sendable(xs[i].request)
  }

  function AllWritten(xs: seq<Sent>): seq<Byte>
    requires AllSendable(xs)
  {
    if xs == [] then [] else Written(xs[0]) + AllWritten(xs[1..])
  }

  // ---- What should happen --------------------------------------------------------------------

  datatype Talk = Talk(engine: Engine, replies: seq<Reply>)

  /** Orders and cancels go to the gateway one by one, heartbeats are echoed. */
  function Answered(e: Engine, config: RiskConfig, r: Request): Talk
    requires Sendable(r)
  {
    match r
    case OrderRequest(c) => var s := Submit(e, config, c); Talk(s.engine, ResultReplies(c.id, s.result))
    case CancelRequest(symbol, id) =>
      var s := Submit(e, config, CancelOrder(symbol, id)); Talk(s.engine, ResultReplies(id, s.result))
    case HeartbeatRequest(token) => Talk(e, [HeartbeatReply(token)])
  }

  function Conversation(e: Engine, config: RiskConfig, xs: seq<Sent>): Talk
    requires AllSendable(xs)
    decreases |xs|
  {
    if xs == [] then Talk(e, [])
    else
      var now := Answered(e, config, xs[0].request);
      var rest := Conversation(now.engine, config, xs[1..]);
      Talk(rest.engine, now.replies + rest.replies)
  }

  // ---- One request ---------------------------------------------------------------------------

  lemma {:induction false} IsUnderstood(x: Sent, rest: seq<Byte>)
    requires Sendable(x.request)
    ensures var f := Written(x);
            && |f| >= HEADER_SIZE && FrontFrame(f + rest) == Whole(|f|) && (f + rest)[..|f|] == f
            && (f + rest)[|f|..] == rest && Decode(f) == x.request
  {
    hide Decode, FrontFrame, EncodeOrder, EncodeCancel, EncodeHeartbeat;
    var seqNo := x.seqNo;
    match x.request
    case OrderRequest(c) =>
      if c.NewLimit? {
        OrderIsUnderstood(seqNo, c.id, c.symbol, c.price, c.quantity, c.side, false, c.tif, rest);
      } else {
        OrderIsUnderstood(seqNo, c.id, c.symbol, 0, c.quantity, c.side, true, GTC, rest);
      }
    case CancelRequest(symbol, id) => CancelIsUnderstood(seqNo, id, symbol, rest);
    case HeartbeatRequest(token) => HeartbeatIsEchoed(seqNo, token, rest);
  }

  /** The handler does what should happen, and its response decodes to the replies that say so. */
  lemma {:induction false} IsAnswered(e: Engine, config: RiskConfig, r: Request, used: nat, rest: seq<Byte>)
    requires Sendable(r) && EngineFits(e) && Answered(e, config, r).engine.seqNo < TWO64
    ensures var a := S.Handle(e, config, r, used, S.Unlimited);
            var t := Answered(e, config, r);
            && a.engine == t.engine && !a.close && a.status == S.Fine && EngineFits(a.engine)
            && Replies(a.response + rest) == t.replies + Replies(rest)
  {
    hide Submit, Response, Replies, ResultReplies, HeartbeatAck, S.WireSize, EngineFits, EventFits;
    match r
    case OrderRequest(c) =>
      SubmitFits(e, config, c);
      ResponseSaysWhatHappened(c.id, Submit(e, config, c).result, rest);
    case CancelRequest(symbol, id) =>
      var c := CancelOrder(symbol, id);
      SubmitFits(e, config, c);
      ResponseSaysWhatHappened(id, Submit(e, config, c).result, rest);
    case HeartbeatRequest(token) =>
      HeartbeatIsEchoed(0, token, rest);
  }

  lemma {:induction false} AnswerFits(e: Engine, config: RiskConfig, r: Request)
    requires Sendable(r) && EngineFits(e)
    ensures EngineFits(Answered(e, config, r).engine) && e.seqNo <= Answered(e, config, r).engine.seqNo
  {
    hide Submit, EngineFits, ResultReplies, EventFits;
    if r.OrderRequest? {
      SubmitFits(e, config, r.command);
    } else if r.CancelRequest? {
      SubmitFits(e, config, CancelOrder(r.symbol, r.id));
    }
  }

  lemma {:induction false} SeqNoGrows(e: Engine, config: RiskConfig, xs: seq<Sent>)
    requires AllSendable(xs) && EngineFits(e)
    ensures e.seqNo <= Conversation(e, config, xs).engine.seqNo
    decreases |xs|
  {
    hide Answered, EngineFits, Sendable;
    if xs != [] {
      AnswerFits(e, config, xs[0].request);
      SeqNoGrows(Answered(e, config, xs[0].request).engine, config, xs[1..]);
    }
  }

  // ---- Whole conversations -------------------------------------------------------------------

  lemma {:induction false} ConversationUnrolls(e: Engine, config: RiskConfig, xs: seq<Sent>, k: nat)
    requires AllSendable(xs) && 0 < k <= |xs|
    ensures var now := Answered(e, config, xs[0].request);
            var rest := Conversation(now.engine, config, xs[1..][..k - 1]);
            Conversation(e, config, xs[..k]) == Talk(rest.engine, now.replies + rest.replies)
  {
    hide Answered, Sendable;
    assert xs[..k][0] == xs[0] && xs[..k][1..] == xs[1..][..k - 1];
  }

  /** Splitting off the first frame of what a client wrote. */
  lemma {:induction false} FirstFrame(xs: seq<Sent>)
    requires AllSendable(xs) && xs != []
    ensures var all, f := AllWritten(xs), Written(xs[0]);
            && |f| >= HEADER_SIZE && FrontFrame(all) == Whole(|f|) && all[..|f|] == f
            && all[|f|..] == AllWritten(xs[1..]) && Decode(f) == xs[0].request
  {
    hide Written, Decode, FrontFrame, Sendable;
    IsUnderstood(xs[0], AllWritten(xs[1..]));
  }

  /**
   * Under any output limit the session answers some of the requests completely and the others not at all:
   * the engine has done exactly the first `k`, and the client decodes exactly the replies to those.
   */
  lemma {:induction false} ClientLearns(e: Engine, config: RiskConfig, xs: seq<Sent>, out: seq<Byte>, limit: S.Limit)
    returns (k: nat, said: seq<Byte>)
    requires AllSendable(xs) && EngineFits(e) && S.LimitOk(limit)
    requires Conversation(e, config, xs).engine.seqNo < TWO64
    ensures k <= |xs| && (limit.Unlimited? ==> k == |xs|)
    ensures var r := S.Drain(S.State(e, AllWritten(xs), false), config, out, limit);
            var done := Conversation(e, config, xs[..k]);
            && r.status == (if k == |xs| then S.Fine else S.OutputLimitExceeded)
            && r.state == S.State(done.engine, AllWritten(xs[k..]), k < |xs|)
            && r.out == out + said && Replies(said) == done.replies
    decreases |xs|
  {
    hide S.Handle, Decode, S.Drain, FrontFrame, Written, AllWritten;
    hide Answered, Sendable, EngineFits, Replies, Conversation;
    if xs == [] {
      k, said := 0, [];
      NothingSent(e, config, xs, out, limit);
    } else {
      var r := xs[0].request;
      var now, s := Answered(e, config, r), S.State(e, AllWritten(xs), false);
      assert Sendable(r);
      FirstFrame(xs);
      AnswerFits(e, config, r);
      ConversationUnrolls(e, config, xs, |xs|);
      assert xs[..|xs|] == xs && xs[1..][..|xs| - 1] == xs[1..];
      SeqNoGrows(now.engine, config, xs[1..]);
      IsAnswered(e, config, r, |out|, []);
      S.HandleIsSafe(e, config, r, |out|, limit);
      S.DrainsFrame(s, config, out, limit);
      var a := S.Handle(e, config, r, |out|, limit);
      if a.status == S.OutputLimitExceeded {
        k, said := 0, [];
        NothingYet(e, config, xs, out);
      } else {
        var n, more := ClientLearns(now.engine, config, xs[1..], out + a.response, limit);
        k, said := n + 1, a.response + more;
        IsAnswered(e, config, r, |out|, more);
        ConversationUnrolls(e, config, xs, k);
        assert xs[1..][n..] == xs[k..];
        assert out + a.response + more == out + said;
      }
    }
  }

  lemma {:induction false} NothingYet(e: Engine, config: RiskConfig, xs: seq<Sent>, out: seq<Byte>)
    requires AllSendable(xs)
    ensures Conversation(e, config, xs[..0]) == Talk(e, []) && Replies([]) == [] && out + [] == out && xs[0..] == xs
  {
  }

  lemma {:induction false} NothingSent(e: Engine, config: RiskConfig, xs: seq<Sent>, out: seq<Byte>, limit: S.Limit)
    requires xs == []
    ensures AllWritten(xs) == []
    ensures S.Drain(S.State(e, [], false), config, out, limit) == S.Outcome(S.State(e, [], false), out, S.Fine)
    ensures Conversation(e, config, xs[..0]) == Talk(e, []) && Replies([]) == [] && out + [] == out
  {
  }

  /** A session object fed what a client wrote, in any chunks, answers every request. */
  method Converse(session: SessionClass.Session, chunks: seq<seq<Byte>>, ghost xs: seq<Sent>) returns (out: seq<Byte>)
    requires session.Valid() && !session.loggedOut && session.inbuf == []
    requires AllSendable(xs) && S.Joined(chunks) == AllWritten(xs)
    requires var e := session.gateway.engine.State();
             EngineFits(e) && Conversation(e, session.gateway.config, xs).engine.seqNo < TWO64
    modifies session, session.gateway.engine, session.gateway.engine.Repr
    ensures session.Valid() && !session.loggedOut && session.inbuf == []
    ensures Talk(session.gateway.engine.State(), Replies(out))
            == Conversation(old(session.gateway.engine.State()), session.gateway.config, xs)
  {
    hide EngineClass.MatchingEngine.Valid, EngineClass.MatchingEngine.Books;
    hide S.OnBytes, S.Feed, S.Joined, AllWritten, Conversation, EngineFits, Replies, AllSendable;
    out := [];
    ghost var start, config := session.State(), session.gateway.config;
    var i := 0;
    assert chunks[0..] == chunks;
    while i < |chunks|
      invariant 0 <= i <= |chunks| && session.Valid()
      invariant fresh(session.gateway.engine.Repr - old(session.gateway.engine.Repr))
      invariant S.Feed(start, config, chunks, []) == S.Feed(session.State(), config, chunks[i..], out)
    {
      FeedUnrolls(session.State(), config, chunks, i, out);
      var status;
      out, status := session.OnBytes(chunks[i], out, S.Unlimited);
      i := i + 1;
    }
    FeedUnrolls(session.State(), config, chunks, i, out);
    FedWhole(start, config, chunks, xs);
  }

  lemma {:induction false} FeedUnrolls(s: S.State, config: RiskConfig, chunks: seq<seq<Byte>>, i: nat, out: seq<Byte>)
    requires i <= |chunks|
    ensures i == |chunks| ==> S.Feed(s, config, chunks[i..], out) == S.Outcome(s, out, S.Fine)
    ensures i < |chunks| ==>
              var r := S.OnBytes(s, config, chunks[i], out, S.Unlimited);
              S.Feed(s, config, chunks[i..], out) == S.Feed(r.state, config, chunks[i + 1..], r.out)
  {
    hide S.OnBytes;
    if i < |chunks| {
      assert chunks[i..][0] == chunks[i] && chunks[i..][1..] == chunks[i + 1..];
    }
  }

  /** However the bytes are cut, the session ends where the conversation does. */
  lemma {:induction false} FedWhole(s: S.State, config: RiskConfig, chunks: seq<seq<Byte>>, xs: seq<Sent>)
    requires !s.loggedOut && s.inbuf == [] && AllSendable(xs) && S.Joined(chunks) == AllWritten(xs)
    requires EngineFits(s.engine) && Conversation(s.engine, config, xs).engine.seqNo < TWO64
    ensures var r := S.Feed(s, config, chunks, []);
            var talk := Conversation(s.engine, config, xs);
            r.state == S.State(talk.engine, [], false) && Replies(r.out) == talk.replies
  {
    hide S.Drain, S.Feed, S.Joined, AllWritten, Conversation, EngineFits, Replies, AllSendable;
    WaitsForInput();
    S.ChunkingDoesNotMatter(s, config, chunks, []);
    assert s.inbuf + S.Joined(chunks) == AllWritten(xs);
    var k, said := ClientLearns(s.engine, config, xs, [], S.Unlimited);
    assert xs[..k] == xs && xs[k..] == [];
    assert [] + said == said;
    NoneLeft();
  }

  lemma {:induction false} WaitsForInput()
    ensures FrontFrame([]).NeedMore?
  {
  }

  lemma {:induction false} NoneLeft()
    ensures AllWritten([]) == []
  {
  }
}
