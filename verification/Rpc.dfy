/** The stdio JSON-RPC connection between the benchmark and a system adapter: one
    request line at a time, a server that answers line by line, and calls that may
    be cancelled at any line boundary.  A cancelled call can leave its reply in the
    pipe; request IDs keep it from reaching a later call. */
module Rpc {
  import opened Prelude

  // ---------------------------------------------------------------------
  // The server: one reply per line, with the ID echoed.
  // ---------------------------------------------------------------------

  datatype Id = Null | Num(n: nat)
  datatype Params = Missing | Invalid | Valid
  datatype Line = NotJson | Json(id: Option<Id>, rpc: Option<string>, params: Params)
  datatype Body = Success(result: string) | Failure(code: int)
  datatype Response = Response(id: Id, body: Body)

  const PARSE_ERROR: int := -32700
  const INVALID_REQUEST: int := -32600
  const METHOD_NOT_FOUND: int := -32601
  const INVALID_PARAMS: int := -32602
  const INTERNAL_ERROR: int := -32603

  const WITH_PARAMS: set<string> := {"setup", "activate", "teardown", "metrics", "create_staging_table"}
  const RPC_METHODS: string := "rpc.methods"

  function IdOf(line: Line): Id {
    if line.Json? && line.id.Some? then line.id.value else Null
  }

  /** The five methods that take parameters. */
  predicate TakesParams(rpc: string) {
    rpc == "setup" || rpc == "activate" || rpc == "teardown" || rpc == "metrics" || rpc == "create_staging_table"
  }

  /** The request reaches a handler. */
  predicate Dispatched(line: Line) {
    && line.Json? && line.rpc.Some?
    && (line.rpc.value == "rpc.methods" || (TakesParams(line.rpc.value) && line.params.Valid?))
  }

  /** `handle_request`; `outcome` is what the handler returns if it gets called. */
  function Handle(line: Line, outcome: Option<string>): (r: Response)
    ensures line.Json? && line.id.Some? ==> r.id == line.id.value
    ensures line.NotJson? || line.id.None? ==> r.id == Null
    ensures forall result: string :: r.body == Success(result) <==> Dispatched(line) && outcome == Some(result)
    ensures r.body == Failure(-32603) <==> Dispatched(line) && outcome.None?
    ensures r.body == Failure(-32700) <==> line.NotJson?
    ensures r.body == Failure(-32600) <==> line.Json? && line.rpc.None?
    ensures r.body == Failure(-32601) <==>
      line.Json? && line.rpc.Some? && line.rpc.value != "rpc.methods" && !TakesParams(line.rpc.value)
    ensures r.body == Failure(-32602) <==>
      line.Json? && line.rpc.Some? && TakesParams(line.rpc.value) && !line.params.Valid?
  {
    match line
    case NotJson => Response(Null, Failure(PARSE_ERROR))
    case Json(_, rpc, params) =>
      var id := IdOf(line);
      if rpc.None? then Response(id, Failure(INVALID_REQUEST))
      else if rpc.value == RPC_METHODS then Response(id, FromHandler(outcome))
      else if rpc.value !in WITH_PARAMS then Response(id, Failure(METHOD_NOT_FOUND))
      else if !params.Valid? then Response(id, Failure(INVALID_PARAMS))
      else Response(id, FromHandler(outcome))
  }

  function FromHandler(outcome: Option<string>): Body {
    if outcome.Some? then Success(outcome.value) else Failure(INTERNAL_ERROR)
  }

  /** `run_stdio` until end of input: the replies match the requests line by line. */
  method RunStdio(lines: seq<Line>, handler: nat -> Option<string>) returns (replies: seq<Response>)
    ensures |replies| == |lines|
    ensures forall i :: 0 <= i < |lines| ==> replies[i] == Handle(lines[i], handler(i)) && replies[i].id == IdOf(lines[i])
  {
    replies := [];
    var i := 0;
    while i < |lines|
      invariant 0 <= i <= |lines| && |replies| == i
      invariant forall k :: 0 <= k < i ==> replies[k] == Handle(lines[k], handler(k))
    {
      replies := replies + [Handle(lines[i], handler(i))];
      i := i + 1;
    }
  }

  // ---------------------------------------------------------------------
  // The client's read loop.
  // ---------------------------------------------------------------------

  datatype Reply = Reply(id: nat, body: Body)

  /** Reads lines until one carries the expected ID; `None` if the input ends first.
      Exactly the lines before it are discarded. */
  method ReadReply(expected: nat, lines: seq<Reply>) returns (reply: Option<Reply>, used: nat)
    ensures used <= |lines|
    ensures reply.Some? ==> 0 < used && reply.value == lines[used - 1] && reply.value.id == expected
    ensures forall i :: 0 <= i < (if reply.Some? then used - 1 else used) ==> lines[i].id != expected
    ensures reply.None? ==> used == |lines|
  {
    used := 0;
    while used < |lines|
      invariant 0 <= used <= |lines|
      invariant forall i :: 0 <= i < used ==> lines[i].id != expected
    {
      var response := lines[used];
      used := used + 1;
      if response.id == expected {
        return Some(response), used;
      }
    }
    reply := None;
  }

  class StdioClient {
    var nextId: nat

    constructor ()
      ensures nextId == 1
    {
      nextId := 1;
    }

    /** `call_typed`: takes a fresh ID and reads until its reply; `lines` is what the
        server's standard output delivers from now on. */
    method CallTyped(lines: seq<Reply>) returns (id: nat, reply: Option<Reply>, used: nat)
      modifies this
      ensures id == old(nextId) && nextId == id + 1
      ensures used <= |lines|
      ensures reply.Some? ==> 0 < used && reply.value == lines[used - 1] && reply.value.id == id
      ensures reply.None? <==> forall i :: 0 <= i < |lines| ==> lines[i].id != id
    {
      id := nextId;
      nextId := nextId + 1;
      reply, used := ReadReply(id, lines);
    }
  }

  // ---------------------------------------------------------------------
  // The connection as a step system.
  // ---------------------------------------------------------------------

  datatype Phase = Idle | Writing(id: nat) | Waiting(id: nat)

  datatype Link = Link(
    nextId: nat,
    phase: Phase,
    toServer: seq<nat>,           // request lines in the pipe, by ID
    toClient: seq<Reply>,         // reply lines in the pipe
    answered: map<nat, Body>,     // what the server has answered
    returned: seq<Reply>,         // replies handed to their callers
    discarded: seq<nat>,          // replies dropped as stale
    cancelled: set<nat>)          // calls dropped before they returned

  datatype Action =
    | Begin                       // a call takes the next ID
    | Send                        // its request line is written
    | Serve(body: Body)           // the server answers the oldest request
    | Receive                     // the client reads one line
    | Cancel                      // the call's future is dropped

  function Init(): Link {
    Link(1, Idle, [], [], map[], [], [], {})
  }

  predicate Enabled(s: Link, a: Action) {
    match a
    case Begin => s.phase.Idle?
    case Send => s.phase.Writing?
    case Serve(_) => s.toServer != []
    case Receive => s.phase.Waiting? && s.toClient != []
    case Cancel => !s.phase.Idle?
  }

  function Next(s: Link, a: Action): Link
    requires Enabled(s, a)
  {
    match a
    case Begin => s.(phase := Writing(s.nextId), nextId := s.nextId + 1)
    case Send => s.(phase := Waiting(s.phase.id), toServer := s.toServer + [s.phase.id])
    case Serve(body) => Served(s, body)
    case Receive => Received(s)
    case Cancel => s.(phase := Idle, cancelled := s.cancelled + {s.phase.id})
  }

  function Served(s: Link, body: Body): Link
    requires s.toServer != []
  {
    var id := s.toServer[0];
    s.(toServer := s.toServer[1..], toClient := s.toClient + [Reply(id, body)], answered := s.answered[id := body])
  }

  function Received(s: Link): Link
    requires s.phase.Waiting? && s.toClient != []
  {
    var r := s.toClient[0];
    if r.id == s.phase.id then s.(phase := Idle, toClient := s.toClient[1..], returned := s.returned + [r])
    else s.(toClient := s.toClient[1..], discarded := s.discarded + [r.id])
  }

  ghost predicate Reaches(s: Link, acts: seq<Action>, s': Link)
    decreases |acts|
  {
    if acts == [] then s == s'
    else Enabled(s, acts[0]) && Reaches(Next(s, acts[0]), acts[1..], s')
  }

  // ---------------------------------------------------------------------
  // Invariant
  // ---------------------------------------------------------------------

  function ReplyIds(rs: seq<Reply>): seq<nat> {
    if rs == [] then [] else [rs[0].id] + ReplyIds(rs[1..])
  }

  /** All lines on their way, oldest first. */
  function Wire(s: Link): seq<nat> {
    ReplyIds(s.toClient) + s.toServer
  }

  ghost predicate Below(xs: seq<nat>, n: nat) {
    forall x :: x in xs ==> x < n
  }

  /** Every line on the wire belongs to a cancelled call, except that the call being
      waited for is the last one. */
  ghost predicate WireOk(wire: seq<nat>, phase: Phase, cancelled: set<nat>) {
    match phase
    case Idle => forall x :: x in wire ==> x in cancelled
    case Writing(id) => id !in cancelled && Below(wire, id) && forall x :: x in wire ==> x in cancelled
    case Waiting(id) =>
      && id !in cancelled && wire != [] && wire[|wire| - 1] == id
      && forall x :: x in wire ==> x == id || x in cancelled
  }

  /** What has been read came before what is on the wire. */
  ghost predicate DiscardsOk(discarded: seq<nat>, wire: seq<nat>, cancelled: set<nat>) {
    Ascending(discarded + wire) && forall x :: x in discarded ==> x in cancelled
  }

  ghost predicate BodiesOk(answered: map<nat, Body>, rs: seq<Reply>) {
    forall r :: r in rs ==> r.id in answered && answered[r.id] == r.body
  }

  ghost predicate Inv(s: Link) {
    && WireOk(Wire(s), s.phase, s.cancelled)
    && DiscardsOk(s.discarded, Wire(s), s.cancelled)
    && Below(Wire(s), s.nextId) && (forall x :: x in s.cancelled ==> x < s.nextId)
    && (!s.phase.Idle? ==> s.phase.id + 1 == s.nextId)
    && BodiesOk(s.answered, s.toClient) && BodiesOk(s.answered, s.returned)
    && (forall x :: x in s.answered ==> x < s.nextId)
    && (s.phase.Writing? ==> forall x :: x in s.answered ==> x < s.phase.id)
    && (forall x, y :: x in s.answered && y in s.toServer ==> x < y)
  }

  lemma {:induction false} ReplyIdsSnoc(rs: seq<Reply>, r: Reply)
    ensures ReplyIds(rs + [r]) == ReplyIds(rs) + [r.id]
  {
    if rs == [] {
      assert [] + [r] == [r] && [r][1..] == [];
    } else {
      assert (rs + [r])[1..] == rs[1..] + [r];
      ReplyIdsSnoc(rs[1..], r);
    }
  }

  lemma {:induction false} ServeKeepsWire(s: Link, body: Body)
    requires s.toServer != []
    ensures Wire(Served(s, body)) == Wire(s)
  {
    var id := s.toServer[0];
    ReplyIdsSnoc(s.toClient, Reply(id, body));
    assert s.toServer == [id] + s.toServer[1..];
  }

  lemma {:induction false} ReceiveShiftsWire(s: Link)
    requires s.toClient != []
    ensures Wire(s) == [s.toClient[0].id] + Wire(s.(toClient := s.toClient[1..]))
  {
  }

  lemma {:induction false} SendKeeps(s: Link)
    requires Inv(s) && s.phase.Writing?
    ensures Inv(Next(s, Send))
  {
    var id, w, s' := s.phase.id, Wire(s), Next(s, Send);
    assert Wire(s') == w + [id];
    assert s.discarded + Wire(s') == (s.discarded + w) + [id];
    DiscardsBelow(s, id);
    AscendingSnoc(s.discarded + w, id);
  }

  /** Everything discarded is older than a call about to write. */
  lemma {:induction false} DiscardsBelow(s: Link, id: nat)
    requires Inv(s) && s.phase == Writing(id)
    ensures Below(s.discarded + Wire(s), id)
  {
    forall x | x in s.discarded + Wire(s)
      ensures x < id
    {
      assert x in s.discarded || x in Wire(s);
    }
  }

  lemma {:induction false} AscendingSnoc(xs: seq<nat>, x: nat)
    requires Ascending(xs) && Below(xs, x)
    ensures Ascending(xs + [x])
  {
    forall i | 0 <= i < |xs|
      ensures xs[i] < x
    {
      assert xs[i] in xs;
    }
  }

  lemma {:induction false} ServeKeeps(s: Link, body: Body)
    requires Inv(s) && s.toServer != []
    ensures Inv(Served(s, body))
  {
    var id, s' := s.toServer[0], Served(s, body);
    ServeKeepsWire(s, body);
    AscendingParts(s.discarded, Wire(s));
    AscendingParts(ReplyIds(s.toClient), s.toServer);
    assert id in s.toServer && id !in s.answered;
    assert id in Wire(s);
  }

  lemma {:induction false} ReceiveKeeps(s: Link)
    requires Inv(s) && s.phase.Waiting? && s.toClient != []
    ensures Inv(Received(s))
  {
    var r, id, w := s.toClient[0], s.phase.id, Wire(s);
    var rest := Wire(Received(s));
    ReceiveShiftsWire(s);
    assert w == [r.id] + rest;
    BelowTail(r.id, rest, s.nextId);
    if r.id == id {
      OwnReplyIsLast(s);
      ReceiveOwn(s.discarded, w, rest, s.cancelled);
    } else {
      ReceiveStale(s.discarded, r.id, rest, id, s.cancelled);
    }
    hide Wire;
    hide WireOk;
    hide DiscardsOk;
    hide Below;
  }

  lemma {:induction false} BelowTail(x: nat, rest: seq<nat>, n: nat)
    requires Below([x] + rest, n)
    ensures Below(rest, n)
  {
    assert forall y :: y in rest ==> y in [x] + rest;
  }

  lemma {:induction false} ReceiveOwn(discarded: seq<nat>, wire: seq<nat>, rest: seq<nat>, cancelled: set<nat>)
    requires DiscardsOk(discarded, wire, cancelled) && rest == []
    ensures WireOk(rest, Idle, cancelled) && DiscardsOk(discarded, rest, cancelled)
  {
    assert discarded + rest == discarded;
    AscendingParts(discarded, wire);
  }

  lemma {:induction false} ReceiveStale(discarded: seq<nat>, x: nat, rest: seq<nat>, id: nat, cancelled: set<nat>)
    requires WireOk([x] + rest, Waiting(id), cancelled) && DiscardsOk(discarded, [x] + rest, cancelled) && x != id
    ensures WireOk(rest, Waiting(id), cancelled) && DiscardsOk(discarded + [x], rest, cancelled)
  {
    var w := [x] + rest;
    assert rest != [] && rest[|rest| - 1] == w[|w| - 1];
    assert forall y :: y in rest ==> y in w;
    assert (discarded + [x]) + rest == discarded + w;
    assert x in w;
  }

  /** When the own reply arrives, nothing else is on the wire. */
  lemma {:induction false} OwnReplyIsLast(s: Link)
    requires Inv(s) && s.phase.Waiting? && s.toClient != [] && s.toClient[0].id == s.phase.id
    ensures Wire(s) == [s.phase.id]
  {
    var w := Wire(s);
    ReceiveShiftsWire(s);
    AscendingParts(s.discarded, w);
    assert w[0] == w[|w| - 1];
  }

  lemma {:induction false} StepKeeps(s: Link, a: Action)
    requires Inv(s) && Enabled(s, a)
    ensures Inv(Next(s, a))
  {
    match a
    case Begin =>
    case Send => SendKeeps(s);
    case Serve(body) => ServeKeeps(s, body);
    case Receive => ReceiveKeeps(s);
    case Cancel =>
  }

  lemma {:induction false} RunKeeps(s: Link, acts: seq<Action>, s': Link)
    requires Inv(s) && Reaches(s, acts, s')
    ensures Inv(s')
    decreases |acts|
  {
    if acts != [] {
      StepKeeps(s, acts[0]);
      RunKeeps(Next(s, acts[0]), acts[1..], s');
    }
  }

  // ---------------------------------------------------------------------
  // Main results
  // ---------------------------------------------------------------------

  /** Stale replies never misroute: in every interleaving of calls, cancellations
      and server turns, the line a waiting call reads next is either its own reply,
      with the body the server gave for its request, or the reply to a strictly
      older, cancelled call that has not been discarded before. */
  lemma {:induction false} NextLine(acts: seq<Action>, s: Link)
    requires Reaches(Init(), acts, s) && s.phase.Waiting? && s.toClient != []
    ensures var r := s.toClient[0];
      if r.id == s.phase.id then r.id in s.answered && s.answered[r.id] == r.body && Wire(s) == [r.id]
      else r.id < s.phase.id && r.id in s.cancelled && r.id !in s.discarded
  {
    RunKeeps(Init(), acts, s);
    var r := s.toClient[0];
    assert r in s.toClient;
    if r.id == s.phase.id {
      OwnReplyIsLast(s);
    } else {
      ReceiveShiftsWire(s);
      var w := Wire(s);
      assert w[0] == r.id && r.id in w;
      AscendingParts(s.discarded, w);
      assert w[0] < w[|w| - 1];
    }
  }

  /** Over a whole run every returned reply is the server's answer to that very call,
      and at most one line is discarded per cancelled call. */
  lemma {:induction false} RunIsSound(acts: seq<Action>, s: Link)
    requires Reaches(Init(), acts, s)
    ensures forall r :: r in s.returned ==> r.id in s.answered && s.answered[r.id] == r.body
    ensures Ascending(s.discarded) && Elems(s.discarded) <= s.cancelled && |s.discarded| <= |s.cancelled|
  {
    RunKeeps(Init(), acts, s);
    AscendingParts(s.discarded, Wire(s));
    assert Distinct(s.discarded);
    DistinctCard(s.discarded);
    SubsetCard(Elems(s.discarded), s.cancelled);
  }

  function Distance(s: Link): nat {
    2 * |s.toServer| + |s.toClient|
  }

  /** A waiting call is never lost: its request or reply is on the wire, so the
      server or the client can move, and each such move that does not return brings
      the reply nearer. */
  lemma {:induction false} NeverLost(acts: seq<Action>, s: Link)
    requires Reaches(Init(), acts, s) && s.phase.Waiting?
    ensures s.phase.id in Wire(s) && (s.toClient != [] || s.toServer != [])
    ensures s.toClient != [] ==> Distance(Received(s)) < Distance(s)
    ensures forall body :: s.toServer != [] ==> Distance(Served(s, body)) < Distance(s)
  {
    RunKeeps(Init(), acts, s);
    var w := Wire(s);
    assert w[|w| - 1] in w;
    assert s.toClient == [] && s.toServer == [] ==> w == [];
  }

  // ---------------------------------------------------------------------
  // Request IDs
  // ---------------------------------------------------------------------

  /** Every ID in use is at least 1. */
  ghost predicate FromOne(s: Link) {
    && 1 <= s.nextId && (s.phase.Idle? || 1 <= s.phase.id)
    && (forall id :: id in s.toServer ==> 1 <= id)
    && (forall r :: r in s.toClient || r in s.returned ==> 1 <= r.id)
    && (forall id :: id in s.discarded ==> 1 <= id)
  }

  /** Requests are numbered from 1, so no reply that is returned carries 0. */
  lemma {:induction false} IdsFromOne(s: Link, acts: seq<Action>, s': Link)
    requires FromOne(s) && Reaches(s, acts, s')
    ensures FromOne(s') && FromOne(Init())
    decreases |acts|
  {
    if acts != [] {
      StepFromOne(s, acts[0]);
      hide FromOne, Enabled, Next;
      IdsFromOne(Next(s, acts[0]), acts[1..], s');
    }
    StartsFromOne();
  }

  lemma {:induction false} StartsFromOne()
    ensures FromOne(Init()) && Init().nextId == 1
  {
  }

  lemma {:induction false} StepFromOne(s: Link, a: Action)
    requires FromOne(s) && Enabled(s, a)
    ensures FromOne(Next(s, a))
  {
    if a.Serve? {
      assert s.toServer[0] in s.toServer;
      assert forall id :: id in s.toServer[1..] ==> id in s.toServer;
    } else if a.Receive? {
      assert s.toClient[0] in s.toClient;
      assert forall r :: r in s.toClient[1..] ==> r in s.toClient;
    }
  }
}
