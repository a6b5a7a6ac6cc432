/** The accept loop of the shared port: what it does with every outcome of Accept, and how long it backs off. */
module AcceptLoop {
  import opened Options

  type Conn = nat

  const INITIAL_DELAY := 5 // milliseconds
  const MAX_DELAY := 1000

  /**
   One return of Accept with what the loop observes afterwards: whether the HTTP listener is closed at
   the check, and whether it is closed before or during the back-off wait.
   */
  datatype Event =
    | Failed(transient: bool, closed: bool, closedWhileWaiting: bool)
    | Accepted(conn: Option<Conn>, closed: bool)

  datatype Action = Wait(milliseconds: nat) | Ignore | Dispatch(conn: Conn) | Shut(conn: Conn) | StopClosed | StopFailed

  predicate Ends(a: Action) {
    a.StopClosed? || a.StopFailed? || a.Shut?
  }

  /** How many failures in a row end with event `i`. */
  function Streak(events: seq<Event>, i: nat): nat
    requires i < |events|
  {
    if events[i].Accepted? then 0 else 1 + (if i == 0 then 0 else Streak(events, i - 1))
  }

  function Pow2(n: nat): nat {
    if n == 0 then 1 else 2 * Pow2(n - 1)
  }

  /** The n-th wait of a streak: doubling from the initial delay, capped. */
  function Backoff(n: nat): nat
    requires n > 0
  {
    if INITIAL_DELAY * Pow2(n - 1) > MAX_DELAY then MAX_DELAY else INITIAL_DELAY * Pow2(n - 1)
  }

  /** Doubling the capped wait and capping again is the capped doubled wait. */
  lemma BackoffDoubles(n: nat)
    ensures Backoff(1) == INITIAL_DELAY
    ensures n > 0 ==> 0 < Backoff(n) && Backoff(n + 1) == if 2 * Backoff(n) > MAX_DELAY then MAX_DELAY else 2 * Backoff(n)
  {
    if n > 0 {
      assert Pow2(n) == 2 * Pow2(n - 1);
      PowPositive(n - 1);
    }
  }

  lemma {:induction false} PowPositive(n: nat)
    ensures Pow2(n) > 0
  {
    if n > 0 {
      PowPositive(n - 1);
    }
  }

  /** `action` is right for event `i`, judged from the events alone. */
  ghost predicate Answers(events: seq<Event>, i: nat, action: Action)
    requires i < |events|
  {
    match events[i]
    case Accepted(None, _) => action == Ignore
    case Accepted(Some(c), closed) => action == if closed then Shut(c) else Dispatch(c)
    case Failed(transient, closed, closedWhileWaiting) =>
      if closed || (transient && closedWhileWaiting) then action == StopClosed
      else if transient then action == Wait(Backoff(Streak(events, i)))
      else action == StopFailed
  }

  /** Runs until an event ends the loop or the events run out. */
  method AcceptConnections(events: seq<Event>) returns (actions: seq<Action>)
    ensures |actions| <= |events|
    ensures forall i :: 0 <= i < |actions| ==> Answers(events, i, actions[i])
    ensures forall i :: 0 <= i < |actions| - 1 ==> !Ends(actions[i])
    ensures |actions| < |events| ==> actions != [] && Ends(actions[|actions| - 1])
  {
    actions := [];
    var retryDelay := 0;
    var i := 0;
    while i < |events|
      invariant i == |actions| <= |events|
      invariant forall j :: 0 <= j < |actions| ==> Answers(events, j, actions[j]) && !Ends(actions[j])
      invariant retryDelay == if i == 0 || Streak(events, i - 1) == 0 then 0 else Backoff(Streak(events, i - 1))
      decreases |events| - i
    {
      match events[i] {
      case Failed(transient, closed, closedWhileWaiting) =>
        if closed {
          return actions + [StopClosed];
        }
        if !transient {
          return actions + [StopFailed];
        }
        BackoffDoubles(if i == 0 then 0 else Streak(events, i - 1));
        retryDelay := if retryDelay == 0 then INITIAL_DELAY else 2 * retryDelay;
        if retryDelay > MAX_DELAY {
          retryDelay := MAX_DELAY;
        }
        if closedWhileWaiting {
          return actions + [StopClosed];
        }
        actions := actions + [Wait(retryDelay)];
      case Accepted(conn, closed) =>
        retryDelay := 0;
        if conn.None? {
          actions := actions + [Ignore];
        } else if closed {
          return actions + [Shut(conn.value)];
        } else {
          actions := actions + [Dispatch(conn.value)];
        }
      }
      i := i + 1;
    }
  }
}
