/**
 The in-memory listener between the protocol multiplexer and the HTTP server: routers put connections,
 the server accepts them, and Close waits for sends in flight and drains the queue. Every shared-memory
 action is one step; any number of threads interleave.
 */
module MuxListener {
  import opened Options

  type Conn = nat
  type Thread = nat

  /** A router goroutine with the connection it was given. */
  datatype Sender =
    | Dispatched(conn: Conn)                  // accepted from the shared socket
    | Routing(conn: Conn)                     // sniffing the protocol
    | Entering(conn: Conn, timed: bool)       // calling Put or putWithTimeout
    | Sending(conn: Conn, timed: bool)        // counted in flight, at the select
    | Leaving(kept: Option<Conn>)             // select done, the in-flight count not yet lowered
    | Rejected(conn: Conn)                    // got an error back, must close
    | SenderDone

  datatype Acceptor = Waiting | Holding(conn: Conn) | AcceptFailed | AcceptReturned

  datatype Closer = Calling | Running | CloseReturned

  /** Progress of the one execution of Close's body. */
  datatype Once = Idle | AwaitingSends(runner: Thread) | Draining(runner: Thread) | Finished

  datatype State = State(
    capacity: nat,
    closed: bool,
    inFlight: int,
    queue: seq<Conn>,
    once: Once,
    senders: map<Thread, Sender>,
    acceptors: map<Thread, Acceptor>,
    closers: map<Thread, Closer>,
    handed: set<Conn>,
    returned: seq<Conn>,
    redis: seq<Conn>,
    shut: seq<Conn>)

  datatype Step =
    | Dispatch(t: Thread, conn: Conn)
    | LoopCheck(t: Thread)
    | RouteFail(t: Thread)
    | RouteRedis(t: Thread)
    | RoutePut(t: Thread, timed: bool)
    | Enter(t: Thread)
    | SendQueued(t: Thread)
    | SendSeesClose(t: Thread)
    | SendTimesOut(t: Thread)
    | Leave(t: Thread)
    | CloseRejected(t: Thread)
    | AcceptCall(t: Thread)
    | AcceptSeesClose(t: Thread)
    | AcceptTakes(t: Thread)
    | AcceptChecks(t: Thread)
    | CloseCall(t: Thread)
    | CloseBegins(t: Thread)
    | CloseSendsDone(t: Thread)
    | CloseDrains(t: Thread)
    | CloseEnds(t: Thread)
    | CloseLate(t: Thread)

  /** newMuxListener: a non-positive buffer becomes one. */
  function Start(buffer: int): State {
    State(if buffer <= 0 then 1 else buffer, false, 0, [], Idle, map[], map[], map[], {}, [], [], [])
  }

  predicate Enabled(s: State, step: Step) {
    match step
    case Dispatch(t, conn) => t !in s.senders && conn !in s.handed
    case LoopCheck(t) => t in s.senders && s.senders[t].Dispatched?
    case RouteFail(t) => t in s.senders && s.senders[t].Routing?
    case RouteRedis(t) => t in s.senders && s.senders[t].Routing?
    case RoutePut(t, _) => t in s.senders && s.senders[t].Routing?
    case Enter(t) => t in s.senders && s.senders[t].Entering?
    case SendQueued(t) => t in s.senders && s.senders[t].Sending? && |s.queue| < s.capacity
    case SendSeesClose(t) => t in s.senders && s.senders[t].Sending? && s.closed
    case SendTimesOut(t) => t in s.senders && s.senders[t].Sending? && s.senders[t].timed
    case Leave(t) => t in s.senders && s.senders[t].Leaving?
    case CloseRejected(t) => t in s.senders && s.senders[t].Rejected?
    case AcceptCall(t) => t !in s.acceptors
    case AcceptSeesClose(t) => t in s.acceptors && s.acceptors[t].Waiting? && s.closed
    case AcceptTakes(t) => t in s.acceptors && s.acceptors[t].Waiting? && s.queue != []
    case AcceptChecks(t) => t in s.acceptors && s.acceptors[t].Holding?
    case CloseCall(t) => t !in s.closers
    case CloseBegins(t) => t in s.closers && s.closers[t].Calling? && s.once.Idle?
    case CloseSendsDone(t) => t in s.closers && s.closers[t].Running? && s.once == AwaitingSends(t) && s.inFlight == 0
    case CloseDrains(t) => t in s.closers && s.closers[t].Running? && s.once == Draining(t) && s.queue != []
    case CloseEnds(t) => t in s.closers && s.closers[t].Running? && s.once == Draining(t) && s.queue == []
    case CloseLate(t) => t in s.closers && s.closers[t].Calling? && s.once.Finished?
  }

  function Move(s: State, t: Thread, sender: Sender): State {
    s.(senders := s.senders[t := sender])
  }

  function Shut(s: State, conn: Conn): State {
    s.(shut := s.shut + [conn])
  }

  function Apply(s: State, step: Step): State
    requires Enabled(s, step)
  {
    match step
    case Dispatch(t, conn) => Move(s, t, Dispatched(conn)).(handed := s.handed + {conn})
    case LoopCheck(t) =>
      var conn := s.senders[t].conn;
      if s.closed then Shut(Move(s, t, SenderDone), conn) else Move(s, t, Routing(conn))
    case RouteFail(t) => Shut(Move(s, t, SenderDone), s.senders[t].conn)
    case RouteRedis(t) => Move(s, t, SenderDone).(redis := s.redis + [s.senders[t].conn])
    case RoutePut(t, timed) => Move(s, t, Entering(s.senders[t].conn, timed))
    case Enter(t) =>
      if s.closed then Move(s, t, Rejected(s.senders[t].conn))
      else Move(s, t, Sending(s.senders[t].conn, s.senders[t].timed)).(inFlight := s.inFlight + 1)
    case SendQueued(t) => Move(s, t, Leaving(None)).(queue := s.queue + [s.senders[t].conn])
    case SendSeesClose(t) => Move(s, t, Leaving(Some(s.senders[t].conn)))
    case SendTimesOut(t) => Move(s, t, Leaving(Some(s.senders[t].conn)))
    case Leave(t) =>
      var next := match s.senders[t].kept case Some(conn) => Rejected(conn) case None => SenderDone;
      Move(s, t, next).(inFlight := s.inFlight - 1)
    case CloseRejected(t) => Shut(Move(s, t, SenderDone), s.senders[t].conn)
    case AcceptCall(t) => s.(acceptors := s.acceptors[t := Waiting])
    case AcceptSeesClose(t) => s.(acceptors := s.acceptors[t := AcceptFailed])
    case AcceptTakes(t) => s.(acceptors := s.acceptors[t := Holding(s.queue[0])], queue := s.queue[1..])
    case AcceptChecks(t) =>
      var conn := s.acceptors[t].conn;
      if s.closed then Shut(s.(acceptors := s.acceptors[t := AcceptFailed]), conn)
      else s.(acceptors := s.acceptors[t := AcceptReturned], returned := s.returned + [conn])
    case CloseCall(t) => s.(closers := s.closers[t := Calling])
    case CloseBegins(t) => s.(closers := s.closers[t := Running], closed := true, once := AwaitingSends(t))
    case CloseSendsDone(t) => s.(once := Draining(t))
    case CloseDrains(t) => Shut(s.(queue := s.queue[1..]), s.queue[0])
    case CloseEnds(t) => s.(closers := s.closers[t := CloseReturned], once := Finished)
    case CloseLate(t) => s.(closers := s.closers[t := CloseReturned])
  }

  // ---- Ownership ----

  datatype Place = HeldBySender(t: Thread) | InQueue | HeldByAcceptor(t: Thread) | WithServer | WithRedis | IsShut

  function HeldBy(sender: Sender): Option<Conn> {
    match sender
    case Dispatched(c) => Some(c)
    case Routing(c) => Some(c)
    case Entering(c, _) => Some(c)
    case Sending(c, _) => Some(c)
    case Leaving(kept) => kept
    case Rejected(c) => Some(c)
    case SenderDone => None
  }

  /** The connection is at this place, possibly among others. */
  ghost predicate At(s: State, c: Conn, p: Place) {
    match p
    case HeldBySender(t) => t in s.senders && HeldBy(s.senders[t]) == Some(c)
    case InQueue => c in s.queue
    case HeldByAcceptor(t) => t in s.acceptors && s.acceptors[t] == Holding(c)
    case WithServer => c in s.returned
    case WithRedis => c in s.redis
    case IsShut => c in s.shut
  }

  ghost predicate NoDuplicates(cs: seq<Conn>) {
    forall i, j :: 0 <= i < j < |cs| ==> cs[i] != cs[j]
  }

  /** `owner` names the one place of every connection handed out so far. */
  ghost predicate Owned(s: State, owner: map<Conn, Place>) {
    && owner.Keys == s.handed
    && (forall c, p :: At(s, c, p) ==> c in owner && owner[c] == p)
    && (forall c :: c in owner ==> At(s, c, owner[c]))
    && NoDuplicates(s.queue) && NoDuplicates(s.returned) && NoDuplicates(s.redis) && NoDuplicates(s.shut)
  }

  /** The place a connection moves to in this step. */
  function NextOwner(s: State, step: Step, owner: map<Conn, Place>): map<Conn, Place>
    requires Enabled(s, step)
  {
    match step
    case Dispatch(t, conn) => owner[conn := HeldBySender(t)]
    case LoopCheck(t) => if s.closed then owner[s.senders[t].conn := IsShut] else owner
    case RouteFail(t) => owner[s.senders[t].conn := IsShut]
    case RouteRedis(t) => owner[s.senders[t].conn := WithRedis]
    case SendQueued(t) => owner[s.senders[t].conn := InQueue]
    case CloseRejected(t) => owner[s.senders[t].conn := IsShut]
    case AcceptTakes(t) => owner[s.queue[0] := HeldByAcceptor(t)]
    case AcceptChecks(t) => owner[s.acceptors[t].conn := if s.closed then IsShut else WithServer]
    case CloseDrains(t) => owner[s.queue[0] := IsShut]
    case _ => owner
  }

  lemma HeadLeaves(cs: seq<Conn>)
    requires NoDuplicates(cs) && cs != []
    ensures NoDuplicates(cs[1..]) && forall c :: c in cs[1..] <==> c in cs && c != cs[0]
  {
    assert cs == [cs[0]] + cs[1..];
  }

  /** One connection leaves `home` for `target`; nothing else moves. */
  ghost predicate Moves(s: State, after: State, c: Conn, home: Place, target: Place) {
    && At(after, c, target)
    && (forall d, p :: At(after, d, p) ==> (d == c && p == target) || (At(s, d, p) && !(d == c && p == home)))
    && (forall d, p :: At(s, d, p) ==> (d == c && p == home) || At(after, d, p))
  }

  ghost predicate Distinct(s: State) {
    NoDuplicates(s.queue) && NoDuplicates(s.returned) && NoDuplicates(s.redis) && NoDuplicates(s.shut)
  }

  lemma MoveKeepsOwned(s: State, after: State, owner: map<Conn, Place>, c: Conn, home: Place, target: Place)
    requires Owned(s, owner) && Moves(s, after, c, home, target) && Distinct(after)
    requires after.handed == s.handed + {c} && (c in owner ==> owner[c] == home)
    ensures Owned(after, owner[c := target])
  {
    forall d | d in owner && d != c
      ensures At(after, d, owner[d])
    {
      assert At(s, d, owner[d]);
    }
  }

  /** A connection held by one thread or queued is in none of the final lists. */
  lemma AppendIfFree(s: State, owner: map<Conn, Place>, c: Conn)
    requires Owned(s, owner) && c in owner && (owner[c].HeldBySender? || owner[c].HeldByAcceptor? || owner[c].InQueue?)
    ensures NoDuplicates(s.shut + [c]) && NoDuplicates(s.redis + [c]) && NoDuplicates(s.returned + [c])
    ensures !owner[c].InQueue? ==> NoDuplicates(s.queue + [c])
  {
    assert !At(s, c, IsShut) && !At(s, c, WithRedis) && !At(s, c, WithServer);
    assert !owner[c].InQueue? ==> !At(s, c, InQueue);
  }

  lemma SenderShuts(s: State, owner: map<Conn, Place>, t: Thread, c: Conn)
    requires Owned(s, owner) && t in s.senders && HeldBy(s.senders[t]) == Some(c)
    ensures Owned(Shut(Move(s, t, SenderDone), c), owner[c := IsShut])
  {
    assert At(s, c, HeldBySender(t));
    AppendIfFree(s, owner, c);
    MoveKeepsOwned(s, Shut(Move(s, t, SenderDone), c), owner, c, HeldBySender(t), IsShut);
  }

  lemma SenderQueues(s: State, owner: map<Conn, Place>, t: Thread, c: Conn)
    requires Owned(s, owner) && t in s.senders && HeldBy(s.senders[t]) == Some(c)
    ensures Owned(Move(s, t, Leaving(None)).(queue := s.queue + [c]), owner[c := InQueue])
  {
    assert At(s, c, HeldBySender(t));
    AppendIfFree(s, owner, c);
    MoveKeepsOwned(s, Move(s, t, Leaving(None)).(queue := s.queue + [c]), owner, c, HeldBySender(t), InQueue);
  }

  lemma SenderHandsToRedis(s: State, owner: map<Conn, Place>, t: Thread, c: Conn)
    requires Owned(s, owner) && t in s.senders && HeldBy(s.senders[t]) == Some(c)
    ensures Owned(Move(s, t, SenderDone).(redis := s.redis + [c]), owner[c := WithRedis])
  {
    assert At(s, c, HeldBySender(t));
    AppendIfFree(s, owner, c);
    MoveKeepsOwned(s, Move(s, t, SenderDone).(redis := s.redis + [c]), owner, c, HeldBySender(t), WithRedis);
  }

  lemma AcceptorDecides(s: State, owner: map<Conn, Place>, t: Thread, c: Conn)
    requires Owned(s, owner) && Enabled(s, AcceptChecks(t)) && s.acceptors[t].conn == c
    ensures Owned(Apply(s, AcceptChecks(t)), owner[c := if s.closed then IsShut else WithServer])
  {
    assert At(s, c, HeldByAcceptor(t));
    AppendIfFree(s, owner, c);
    MoveKeepsOwned(s, Apply(s, AcceptChecks(t)), owner, c, HeldByAcceptor(t), if s.closed then IsShut else WithServer);
  }

  lemma DispatchGives(s: State, owner: map<Conn, Place>, t: Thread, c: Conn)
    requires Owned(s, owner) && Enabled(s, Dispatch(t, c))
    ensures Owned(Apply(s, Dispatch(t, c)), owner[c := HeldBySender(t)])
  {
    MoveKeepsOwned(s, Apply(s, Dispatch(t, c)), owner, c, HeldBySender(t), HeldBySender(t));
  }

  /** A step that takes a connection from the queue. */
  lemma QueueStepKeepsOwned(s: State, step: Step, owner: map<Conn, Place>)
    requires Owned(s, owner) && Enabled(s, step) && (step.AcceptTakes? || step.CloseDrains?)
    ensures Owned(Apply(s, step), NextOwner(s, step, owner))
  {
    var c := s.queue[0];
    assert At(s, c, InQueue);
    HeadLeaves(s.queue);
    AppendIfFree(s, owner, c);
    MoveKeepsOwned(s, Apply(s, step), owner, c, InQueue, NextOwner(s, step, owner)[c]);
  }

  /** A sender that goes to another stage with the same connection, or with none as before. */
  lemma SenderMovesOn(s: State, owner: map<Conn, Place>, t: Thread, next: Sender, inFlight: int)
    requires Owned(s, owner) && t in s.senders && HeldBy(next) == HeldBy(s.senders[t])
    ensures Owned(Move(s, t, next).(inFlight := inFlight), owner)
  {
    forall d, p
      ensures At(Move(s, t, next).(inFlight := inFlight), d, p) <==> At(s, d, p)
    {
    }
  }

  /** Acceptors that hold nothing and closers change no place. */
  lemma OthersMoveOn(s: State, owner: map<Conn, Place>, step: Step)
    requires Owned(s, owner) && Enabled(s, step)
    requires
      || step.AcceptCall? || step.AcceptSeesClose? || step.CloseCall? || step.CloseBegins?
      || step.CloseSendsDone? || step.CloseEnds? || step.CloseLate?
    ensures Owned(Apply(s, step), owner)
  {
    var after := Apply(s, step);
    forall d, p
      ensures At(after, d, p) <==> At(s, d, p)
    {
    }
  }

  /** Every step moves at most one connection, from its one place to one other. */
  lemma StepKeepsOwned(s: State, step: Step, owner: map<Conn, Place>)
    requires Owned(s, owner) && Enabled(s, step)
    ensures Owned(Apply(s, step), NextOwner(s, step, owner))
  {
    match step
    case Dispatch(t, conn) => DispatchGives(s, owner, t, conn);
    case LoopCheck(t) =>
      if s.closed {
        SenderShuts(s, owner, t, s.senders[t].conn);
      } else {
        SenderMovesOn(s, owner, t, Routing(s.senders[t].conn), s.inFlight);
      }
    case RouteFail(t) => SenderShuts(s, owner, t, s.senders[t].conn);
    case RouteRedis(t) => SenderHandsToRedis(s, owner, t, s.senders[t].conn);
    case RoutePut(t, timed) => SenderMovesOn(s, owner, t, Entering(s.senders[t].conn, timed), s.inFlight);
    case Enter(t) =>
      if s.closed {
        SenderMovesOn(s, owner, t, Rejected(s.senders[t].conn), s.inFlight);
      } else {
        SenderMovesOn(s, owner, t, Sending(s.senders[t].conn, s.senders[t].timed), s.inFlight + 1);
      }
    case SendQueued(t) => SenderQueues(s, owner, t, s.senders[t].conn);
    case SendSeesClose(t) => SenderMovesOn(s, owner, t, Leaving(Some(s.senders[t].conn)), s.inFlight);
    case SendTimesOut(t) => SenderMovesOn(s, owner, t, Leaving(Some(s.senders[t].conn)), s.inFlight);
    case Leave(t) =>
      SenderMovesOn(s, owner, t, if s.senders[t].kept.Some? then Rejected(s.senders[t].kept.value) else SenderDone, s.inFlight - 1);
    case CloseRejected(t) => SenderShuts(s, owner, t, s.senders[t].conn);
    case AcceptTakes(_) => QueueStepKeepsOwned(s, step, owner);
    case AcceptChecks(t) => AcceptorDecides(s, owner, t, s.acceptors[t].conn);
    case CloseDrains(_) => QueueStepKeepsOwned(s, step, owner);
    case _ => OthersMoveOn(s, owner, step);
  }
}
