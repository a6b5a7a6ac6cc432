/** Runs of the in-memory listener: ownership, shutdown safety and shutdown progress over every interleaving. */
module MuxRuns {
  import opened Options
  import opened MuxListener

  // ---- Counting senders ----

  function SendingThreads(s: State): set<Thread> {
    set t | t in s.senders && s.senders[t].Sending?
  }

  function LeavingThreads(s: State): set<Thread> {
    set t | t in s.senders && s.senders[t].Leaving?
  }

  function Bit(b: bool): nat {
    if b then 1 else 0
  }

  /** Changing one thread changes the two counts by that thread's own share. */
  lemma SetCount<T>(before: set<T>, after: set<T>, x: T, added: bool)
    requires after == if added then before + {x} else before - {x}
    ensures |after| == |before| - Bit(x in before) + Bit(added)
  {
    assert after == (before - {x}) + if added then {x} else {};
  }

  lemma SendingAfterMove(s: State, t: Thread, next: Sender)
    ensures |SendingThreads(Move(s, t, next))|
         == |SendingThreads(s)| - Bit(t in s.senders && s.senders[t].Sending?) + Bit(next.Sending?)
  {
    var before, after := SendingThreads(s), SendingThreads(Move(s, t, next));
    assert after == if next.Sending? then before + {t} else before - {t};
    SetCount(before, after, t, next.Sending?);
  }

  lemma LeavingAfterMove(s: State, t: Thread, next: Sender)
    ensures |LeavingThreads(Move(s, t, next))|
         == |LeavingThreads(s)| - Bit(t in s.senders && s.senders[t].Leaving?) + Bit(next.Leaving?)
  {
    var before, after := LeavingThreads(s), LeavingThreads(Move(s, t, next));
    assert after == if next.Leaving? then before + {t} else before - {t};
    SetCount(before, after, t, next.Leaving?);
  }

  // ---- The shutdown invariant ----

  ghost predicate CloserOk(s: State, t: Thread)
    requires t in s.closers
  {
    && (s.closers[t].Running? ==> (s.once == AwaitingSends(t) || s.once == Draining(t)))
    && (s.closers[t].CloseReturned? ==> s.once.Finished?)
  }

  ghost predicate Inv(s: State) {
    && |s.queue| <= s.capacity
    && s.inFlight == |SendingThreads(s)| + |LeavingThreads(s)|
    && (s.closed <==> !s.once.Idle?)
    && (s.once.Draining? || s.once.Finished? ==> s.inFlight == 0)
    && (s.once.Finished? ==> s.queue == [])
    && (s.once.AwaitingSends? || s.once.Draining? ==> s.once.runner in s.closers && s.closers[s.once.runner].Running?)
    && forall t :: t in s.closers ==> CloserOk(s, t)
  }

  lemma SenderStepKeepsInv(s: State, step: Step, t: Thread, next: Sender)
    requires Inv(s) && Enabled(s, step) && Apply(s, step).senders == s.senders[t := next]
    requires Apply(s, step).once == s.once && Apply(s, step).closers == s.closers && Apply(s, step).closed == s.closed
    requires Apply(s, step).capacity == s.capacity && |Apply(s, step).queue| <= s.capacity
    requires s.once.Finished? ==> Apply(s, step).queue == []
    requires Apply(s, step).inFlight == s.inFlight
                                        - Bit(t in s.senders && (s.senders[t].Sending? || s.senders[t].Leaving?))
                                        + Bit(next.Sending? || next.Leaving?)
    requires s.once.Draining? || s.once.Finished? ==> Apply(s, step).inFlight == 0
    ensures Inv(Apply(s, step))
  {
    SendingAfterMove(s, t, next);
    LeavingAfterMove(s, t, next);
    var after := Apply(s, step);
    assert SendingThreads(after) == SendingThreads(Move(s, t, next));
    assert LeavingThreads(after) == LeavingThreads(Move(s, t, next));
    forall u | u in after.closers
      ensures CloserOk(after, u)
    {
      assert CloserOk(s, u);
    }
  }

  /** Once draining has begun no thread is inside a send. */
  lemma NobodySends(s: State, t: Thread)
    requires Inv(s) && (s.once.Draining? || s.once.Finished?) && t in s.senders
    ensures !s.senders[t].Sending? && !s.senders[t].Leaving?
  {
    assert t in SendingThreads(s) <==> s.senders[t].Sending?;
    assert t in LeavingThreads(s) <==> s.senders[t].Leaving?;
    assert SendingThreads(s) == {} && LeavingThreads(s) == {};
  }

  lemma StepKeepsInv(s: State, step: Step)
    requires Inv(s) && Enabled(s, step)
    ensures Inv(Apply(s, step))
  {
    var after := Apply(s, step);
    if after.senders != s.senders || step.Leave? || step.SendQueued? {
      var t := step.t;
      assert after.senders == s.senders[t := after.senders[t]];
      if t in s.senders && (s.once.Draining? || s.once.Finished?) {
        NobodySends(s, t);
      }
      SenderStepKeepsInv(s, step, t, after.senders[t]);
    } else {
      OtherStepKeepsInv(s, step);
    }
  }

  lemma OtherStepKeepsInv(s: State, step: Step)
    requires Inv(s) && Enabled(s, step) && Apply(s, step).senders == s.senders && !step.Leave? && !step.SendQueued?
    ensures Inv(Apply(s, step))
  {
    var after := Apply(s, step);
    assert SendingThreads(after) == SendingThreads(s);
    assert LeavingThreads(after) == LeavingThreads(s);
    forall u | u in after.closers
      ensures CloserOk(after, u)
    {
      assert u in s.closers ==> CloserOk(s, u);
    }
  }

  // ---- Runs ----

  datatype Run = Run(at: seq<State>, steps: seq<Step>)

  ghost predicate IsRun(run: Run, buffer: int) {
    && |run.at| == |run.steps| + 1 && run.at[0] == Start(buffer)
    && forall n {:trigger run.steps[n]} :: 0 <= n < |run.steps| ==> Enabled(run.at[n], run.steps[n]) && run.at[n + 1] == Apply(run.at[n], run.steps[n])
  }

  lemma {:induction false} Reachable(run: Run, buffer: int, n: nat) returns (owner: map<Conn, Place>)
    requires IsRun(run, buffer) && n < |run.at|
    ensures Inv(run.at[n])
    ensures Owned(run.at[n], owner)
  {
    if n == 0 {
      owner := map[];
    } else {
      var before := Reachable(run, buffer, n - 1);
      StepKeepsInv(run.at[n - 1], run.steps[n - 1]);
      StepKeepsOwned(run.at[n - 1], run.steps[n - 1], before);
      owner := NextOwner(run.at[n - 1], run.steps[n - 1], before);
    }
  }

  /** In every interleaving each connection handed out is at exactly one place, and no list repeats one. */
  lemma ExactlyOnePlace(run: Run, buffer: int, n: nat, c: Conn)
    requires IsRun(run, buffer) && n < |run.at|
    ensures c in run.at[n].handed <==> exists p :: At(run.at[n], c, p)
    ensures forall p, q :: At(run.at[n], c, p) && At(run.at[n], c, q) ==> p == q
    ensures Distinct(run.at[n])
  {
    var owner := Reachable(run, buffer, n);
    if c in owner {
      assert At(run.at[n], c, owner[c]);
    }
  }

  /** What a step may do to the final places and to the flags of a closed listener. */
  ghost predicate Later(s: State, after: State) {
    && s.returned <= after.returned && s.redis <= after.redis && s.shut <= after.shut
    && s.handed <= after.handed
    && (s.closed ==> after.closed && after.returned == s.returned)
    && (s.once.Finished? ==> after.once.Finished?)
  }

  lemma StepIsLater(s: State, step: Step)
    requires Enabled(s, step)
    ensures Later(s, Apply(s, step))
  {
  }

  lemma LaterTransitive(a: State, b: State, c: State)
    requires Later(a, b) && Later(b, c)
    ensures Later(a, c)
  {
  }

  lemma {:induction false} RunIsLater(run: Run, buffer: int, m: nat, n: nat)
    requires IsRun(run, buffer) && m <= n < |run.at|
    ensures Later(run.at[m], run.at[n])
  {
    if m < n {
      RunIsLater(run, buffer, m, n - 1);
      StepIsLater(run.at[n - 1], run.steps[n - 1]);
      LaterTransitive(run.at[m], run.at[n - 1], run.at[n]);
    }
  }

  /** A connection returned by Accept, taken by the Redis handler or closed stays so, and is closed only once. */
  lemma FinalPlacesStay(run: Run, buffer: int, m: nat, n: nat, c: Conn, p: Place)
    requires IsRun(run, buffer) && m <= n < |run.at|
    requires At(run.at[m], c, p) && (p.WithServer? || p.WithRedis? || p.IsShut?)
    ensures forall q :: At(run.at[n], c, q) <==> q == p
    ensures multiset(run.at[n].returned + run.at[n].redis + run.at[n].shut)[c] == 1
  {
    RunIsLater(run, buffer, m, n);
    assert At(run.at[n], c, p);
    ExactlyOnePlace(run, buffer, n, c);
    var s := run.at[n];
    CountInDistinct(s.returned, c);
    CountInDistinct(s.redis, c);
    CountInDistinct(s.shut, c);
    assert At(s, c, WithServer) <==> c in s.returned;
    assert At(s, c, WithRedis) <==> c in s.redis;
    assert At(s, c, IsShut) <==> c in s.shut;
  }

  lemma {:induction false} CountInDistinct(cs: seq<Conn>, c: Conn)
    requires NoDuplicates(cs)
    ensures multiset(cs)[c] == if c in cs then 1 else 0
  {
    if cs != [] {
      CountInDistinct(cs[1..], c);
      assert cs == [cs[0]] + cs[1..];
    }
  }

  /** Once any Close call has returned, the queue is empty for good, no send is in flight and Accept hands out nothing more. */
  lemma ClosedForGood(run: Run, buffer: int, m: nat, n: nat, t: Thread)
    requires IsRun(run, buffer) && m <= n < |run.at|
    requires t in run.at[m].closers && run.at[m].closers[t].CloseReturned?
    ensures run.at[n].queue == [] && run.at[n].inFlight == 0
    ensures forall u :: u in run.at[n].senders ==> !run.at[n].senders[u].Sending? && !run.at[n].senders[u].Leaving?
    ensures run.at[n].returned == run.at[m].returned
  {
    var _ := Reachable(run, buffer, m);
    assert CloserOk(run.at[m], t);
    RunIsLater(run, buffer, m, n);
    var _ := Reachable(run, buffer, n);
    forall u | u in run.at[n].senders
      ensures !run.at[n].senders[u].Sending? && !run.at[n].senders[u].Leaving?
    {
      NobodySends(run.at[n], u);
    }
  }

  /** Every router has finished and no acceptor holds a connection. */
  ghost predicate Settled(s: State) {
    && (forall t :: t in s.senders ==> HeldBy(s.senders[t]) == None)
    && (forall t :: t in s.acceptors ==> !s.acceptors[t].Holding?)
  }

  /** When all threads have settled after a Close, no connection is lost, leaked or handled twice. */
  lemma NothingLost(run: Run, buffer: int, n: nat, t: Thread)
    requires IsRun(run, buffer) && n < |run.at| && Settled(run.at[n])
    requires t in run.at[n].closers && run.at[n].closers[t].CloseReturned?
    ensures multiset(run.at[n].returned + run.at[n].redis + run.at[n].shut) == multiset(run.at[n].handed)
  {
    var s := run.at[n];
    var owner := Reachable(run, buffer, n);
    assert CloserOk(s, t);
    forall c
      ensures multiset(s.returned + s.redis + s.shut)[c] == multiset(s.handed)[c]
    {
      if c in s.handed {
        assert At(s, c, owner[c]);
        FinalPlacesStay(run, buffer, n, n, c, owner[c]);
      } else {
        assert !At(s, c, WithServer) && !At(s, c, WithRedis) && !At(s, c, IsShut);
      }
    }
  }

  // ---- Close comes to an end ----

  /** The steps that bring a running Close nearer to its return. */
  predicate Helpful(step: Step) {
    step.SendSeesClose? || step.Leave? || step.CloseSendsDone? || step.CloseDrains? || step.CloseEnds?
  }

  function Rank(once: Once): nat {
    match once
    case Idle => 3
    case AwaitingSends(_) => 2
    case Draining(_) => 1
    case Finished => 0
  }

  function Remaining(s: State): nat {
    3 * |SendingThreads(s)| + |LeavingThreads(s)| + |s.queue| + Rank(s.once)
  }

  lemma StepsNeverRaiseRemaining(s: State, step: Step)
    requires Inv(s) && s.closed && Enabled(s, step)
    ensures Remaining(Apply(s, step)) + Bit(Helpful(step)) <= Remaining(s)
  {
    var after := Apply(s, step);
    if after.senders != s.senders || step.Leave? {
      var t := step.t;
      assert after.senders == s.senders[t := after.senders[t]];
      SendingAfterMove(s, t, after.senders[t]);
      LeavingAfterMove(s, t, after.senders[t]);
      assert SendingThreads(after) == SendingThreads(Move(s, t, after.senders[t]));
      assert LeavingThreads(after) == LeavingThreads(Move(s, t, after.senders[t]));
    } else {
      assert SendingThreads(after) == SendingThreads(s);
      assert LeavingThreads(after) == LeavingThreads(s);
    }
  }

  /** A running Close is never stuck: some step that helps it is enabled. */
  lemma CloseIsNeverStuck(s: State) returns (step: Step)
    requires Inv(s) && s.closed && !s.once.Finished?
    ensures Helpful(step) && Enabled(s, step)
  {
    if t :| t in SendingThreads(s) {
      step := SendSeesClose(t);
    } else if t :| t in LeavingThreads(s) {
      step := Leave(t);
    } else {
      assert SendingThreads(s) == {} && LeavingThreads(s) == {};
      match s.once
      case AwaitingSends(t) => step := CloseSendsDone(t);
      case Draining(t) => step := if s.queue == [] then CloseEnds(t) else CloseDrains(t);
    }
  }

  /** How many steps between the m-th and the n-th state help. */
  function HelpfulSteps(steps: seq<Step>, m: nat, n: nat): nat
    requires n <= |steps|
  {
    if n <= m then 0 else HelpfulSteps(steps, m, n - 1) + Bit(Helpful(steps[n - 1]))
  }

  lemma OneStepOfClosing(run: Run, buffer: int, m: nat, n: nat)
    requires IsRun(run, buffer) && m <= n < |run.steps| && run.at[m].closed
    ensures Remaining(run.at[n + 1]) + Bit(Helpful(run.steps[n])) <= Remaining(run.at[n])
  {
    RunIsLater(run, buffer, m, n);
    var _ := Reachable(run, buffer, n);
    StepsNeverRaiseRemaining(run.at[n], run.steps[n]);
  }

  lemma {:induction false} HelpUsesUpRemaining(run: Run, buffer: int, m: nat, n: nat)
    requires IsRun(run, buffer) && m <= n < |run.at| && run.at[m].closed
    ensures HelpfulSteps(run.steps, m, n) + Remaining(run.at[n]) <= Remaining(run.at[m])
  {
    if m < n {
      HelpUsesUpRemaining(run, buffer, m, n - 1);
      OneStepOfClosing(run, buffer, m, n - 1);
    }
  }

  /** After Close begins, however the other threads interleave, a bounded number of helpful steps ends it. */
  lemma CloseEndsInTime(run: Run, buffer: int, m: nat, n: nat)
    requires IsRun(run, buffer) && m <= n < |run.at| && run.at[m].closed
    ensures HelpfulSteps(run.steps, m, n) <= Remaining(run.at[m])
    ensures HelpfulSteps(run.steps, m, n) == Remaining(run.at[m]) ==> run.at[n].once.Finished?
  {
    HelpUsesUpRemaining(run, buffer, m, n);
    assert Remaining(run.at[n]) == 0 ==> Rank(run.at[n].once) == 0;
  }
}
