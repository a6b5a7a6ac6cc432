/**
 Appending Codex turns to a list that many clients share: read, append, compare-and-swap, at most 32
 times. Other clients append too, and may also overwrite, delete or let the list expire at any moment.
 */
module CodexHome {
  import opened Options
  import opened CodexReplay

  const ATTEMPTS := 32

  type CallId = nat
  type Value = Option<seq<Item>>

  /** What changed the shared value, oldest first. */
  datatype Effect = Wrote(id: CallId, turn: seq<Item>) | Foreign(value: Value)

  function Items(value: Value): seq<Item> {
    if value.Some? then value.value else []
  }

  /** The value that the effects produce from an absent key. */
  function Replay(effects: seq<Effect>): Value {
    if effects == [] then None
    else
      match effects[|effects| - 1]
      case Wrote(_, turn) => Some(Append(Items(Replay(effects[..|effects| - 1])), turn))
      case Foreign(value) => value
  }

  // ---- Many clients, one step at a time ----

  datatype Call =
    | Reading(turn: seq<Item>, attempt: nat)
    | Swapping(turn: seq<Item>, attempt: nat, seen: Value, at: nat)
    | ReturnedTrue(turn: seq<Item>)
    | ReturnedFalse(turn: seq<Item>)

  /** `at` of a swapping call and `effects` are history; the code sees only `value`. */
  datatype Home = Home(value: Value, calls: map<CallId, Call>, effects: seq<Effect>)

  datatype Step =
    | Begin(id: CallId, turn: seq<Item>)
    | Read(id: CallId)
    | GiveUp(id: CallId)          // cancelled, a failed read, or undecodable data
    | SwapWins(id: CallId)
    | SwapLoses(id: CallId)
    | SwapFails(id: CallId)       // the request was lost
    | SwapUnanswered(id: CallId)  // it took effect, but the answer was lost
    | Interfere(value: Value)

  const START := Home(None, map[], [])

  predicate InCall(h: Home, id: CallId) {
    id in h.calls && (h.calls[id].Reading? || h.calls[id].Swapping?)
  }

  predicate Swappable(h: Home, id: CallId) {
    id in h.calls && h.calls[id].Swapping?
  }

  predicate Enabled(h: Home, step: Step) {
    match step
    case Begin(id, turn) => id !in h.calls && turn != [] && Fits(turn)
    case Read(id) => id in h.calls && h.calls[id].Reading?
    case GiveUp(id) => InCall(h, id)
    case SwapWins(id) => Swappable(h, id) && h.value == h.calls[id].seen
    case SwapLoses(id) => Swappable(h, id) && h.value != h.calls[id].seen
    case SwapFails(id) => Swappable(h, id)
    case SwapUnanswered(id) => Swappable(h, id) && h.value == h.calls[id].seen
    case Interfere(_) => true
  }

  function Moved(h: Home, id: CallId, call: Call): Home {
    h.(calls := h.calls[id := call])
  }

  function Swapped(h: Home, id: CallId): Home
    requires Swappable(h, id)
  {
    h.(value := Some(Append(Items(h.calls[id].seen), h.calls[id].turn)), effects := h.effects + [Wrote(id, h.calls[id].turn)])
  }

  function Apply(h: Home, step: Step): Home
    requires Enabled(h, step)
  {
    match step
    case Begin(id, turn) => Moved(h, id, Reading(turn, 0))
    case Read(id) => Moved(h, id, Swapping(h.calls[id].turn, h.calls[id].attempt, h.value, |h.effects|))
    case GiveUp(id) => Moved(h, id, ReturnedFalse(h.calls[id].turn))
    case SwapWins(id) => Moved(Swapped(h, id), id, ReturnedTrue(h.calls[id].turn))
    case SwapLoses(id) =>
      var next := h.calls[id].attempt + 1;
      Moved(h, id, if next < ATTEMPTS then Reading(h.calls[id].turn, next) else ReturnedFalse(h.calls[id].turn))
    case SwapFails(id) => Moved(h, id, ReturnedFalse(h.calls[id].turn))
    case SwapUnanswered(id) => Moved(Swapped(h, id), id, ReturnedFalse(h.calls[id].turn))
    case Interfere(value) => h.(value := value, effects := h.effects + [Foreign(value)])
  }

  /** How often a call changed the value. */
  function Writes(effects: seq<Effect>, id: CallId): nat {
    if effects == [] then 0
    else Writes(effects[..|effects| - 1], id)
         + (if effects[|effects| - 1].Wrote? && effects[|effects| - 1].id == id then 1 else 0)
  }

  ghost predicate CallOk(h: Home, id: CallId)
    requires id in h.calls
  {
    match h.calls[id]
    case Reading(turn, attempt) => Fits(turn) && Writes(h.effects, id) == 0 && attempt < ATTEMPTS
    case Swapping(turn, attempt, seen, at) =>
      Fits(turn) && Writes(h.effects, id) == 0 && attempt < ATTEMPTS && at <= |h.effects| && seen == Replay(h.effects[..at])
    case ReturnedTrue(turn) => Writes(h.effects, id) == 1 && Wrote(id, turn) in h.effects
    case ReturnedFalse(_) => Writes(h.effects, id) <= 1
  }

  ghost predicate Inv(h: Home) {
    && h.value == Replay(h.effects)
    && (forall id :: id in h.calls ==> CallOk(h, id))
    && forall id :: id !in h.calls ==> Writes(h.effects, id) == 0
  }

  /** One more effect, seen from a call it does not belong to. */
  lemma OtherEffect(h: Home, effect: Effect, id: CallId)
    requires !(effect.Wrote? && effect.id == id)
    ensures Writes(h.effects + [effect], id) == Writes(h.effects, id)
    ensures forall at :: 0 <= at <= |h.effects| ==> (h.effects + [effect])[..at] == h.effects[..at]
  {
    assert (h.effects + [effect])[..|h.effects|] == h.effects;
  }

  /** A step that changes the value: one more effect, and only its own call moves on. */
  lemma EffectKeepsInv(h: Home, effect: Effect, h': Home)
    requires Inv(h) && h'.effects == h.effects + [effect] && h'.value == Replay(h'.effects)
    requires forall id :: id in h.calls && !(effect.Wrote? && effect.id == id) ==> id in h'.calls && h'.calls[id] == h.calls[id]
    requires forall id :: id in h'.calls ==> id in h.calls
    requires effect.Wrote? ==> effect.id in h'.calls && Writes(h.effects, effect.id) == 0
    requires effect.Wrote? ==> h'.calls[effect.id] == ReturnedTrue(effect.turn) || h'.calls[effect.id].ReturnedFalse?
    ensures Inv(h')
  {
    assert h'.effects[..|h.effects|] == h.effects;
    assert h'.effects[|h.effects|] == effect;
    forall id: CallId
      ensures id in h'.calls ==> CallOk(h', id)
      ensures id !in h'.calls ==> Writes(h'.effects, id) == 0
    {
      if !(effect.Wrote? && effect.id == id) {
        OtherEffect(h, effect, id);
        assert id in h.calls ==> CallOk(h, id);
      }
    }
  }

  /** A step that leaves the value alone and moves one call on. */
  lemma QuietKeepsInv(h: Home, id: CallId, call: Call)
    requires Inv(h) && CallOk(Moved(h, id, call), id)
    ensures Inv(Moved(h, id, call))
  {
    var after := Moved(h, id, call);
    forall other | other in after.calls
      ensures CallOk(after, other)
    {
      assert other in h.calls ==> CallOk(h, other);
    }
  }

  lemma SwapKeepsInv(h: Home, id: CallId, call: Call)
    requires Inv(h) && Swappable(h, id) && h.value == h.calls[id].seen
    requires call == ReturnedTrue(h.calls[id].turn) || call.ReturnedFalse?
    ensures Inv(Moved(Swapped(h, id), id, call))
  {
    var effect := Wrote(id, h.calls[id].turn);
    assert CallOk(h, id);
    assert (h.effects + [effect])[..|h.effects|] == h.effects;
    EffectKeepsInv(h, effect, Moved(Swapped(h, id), id, call));
  }

  lemma StepKeepsInv(h: Home, step: Step)
    requires Inv(h) && Enabled(h, step)
    ensures Inv(Apply(h, step))
  {
    match step
    case Begin(id, turn) => QuietKeepsInv(h, id, Reading(turn, 0));
    case Interfere(value) => EffectKeepsInv(h, Foreign(value), Apply(h, step));
    case SwapWins(id) => SwapKeepsInv(h, id, ReturnedTrue(h.calls[id].turn));
    case SwapUnanswered(id) => SwapKeepsInv(h, id, ReturnedFalse(h.calls[id].turn));
    case _ =>
      var id := step.id;
      assert CallOk(h, id);
      assert h.effects[..|h.effects|] == h.effects;
      QuietKeepsInv(h, id, Apply(h, step).calls[id]);
  }

  datatype Run = Run(at: seq<Home>, steps: seq<Step>)

  ghost predicate IsRun(run: Run) {
    && |run.at| == |run.steps| + 1 && run.at[0] == START
    && forall n {:trigger run.steps[n]} :: 0 <= n < |run.steps| ==> Enabled(run.at[n], run.steps[n]) && run.at[n + 1] == Apply(run.at[n], run.steps[n])
  }

  lemma {:induction false} Reachable(run: Run, n: nat)
    requires IsRun(run) && n < |run.at|
    ensures Inv(run.at[n])
  {
    if n > 0 {
      Reachable(run, n - 1);
      StepKeepsInv(run.at[n - 1], run.steps[n - 1]);
    }
  }

  /**
   No update is lost: at every moment the shared list is the fold of all appends that took effect, in
   swap order, since the last foreign write; a call that returned true is among them exactly once, and
   no call ever writes twice.
   */
  lemma NoUpdateIsLost(run: Run, n: nat, id: CallId)
    requires IsRun(run) && n < |run.at|
    ensures run.at[n].value == Replay(run.at[n].effects)
    ensures Writes(run.at[n].effects, id) <= 1
    ensures id in run.at[n].calls && run.at[n].calls[id].ReturnedTrue? ==>
              Writes(run.at[n].effects, id) == 1 && Wrote(id, run.at[n].calls[id].turn) in run.at[n].effects
  {
    Reachable(run, n);
    assert id in run.at[n].calls ==> CallOk(run.at[n], id);
  }

  /** An attempt loses only because somebody else changed the value after this call read it. */
  lemma LosersLostToSomebody(run: Run, n: nat, id: CallId)
    requires IsRun(run) && n < |run.steps| && run.steps[n] == SwapLoses(id)
    ensures run.at[n].calls[id].at < |run.at[n].effects|
  {
    Reachable(run, n);
    assert CallOk(run.at[n], id);
    assert run.at[n].effects[..|run.at[n].effects|] == run.at[n].effects;
  }

  /**
   A winning swap leaves the list within its limits, and the caller's identified turn in it exactly when
   the list it replaced would not lose that turn to the trim.
   */
  lemma WinnerIsStoredIff(run: Run, n: nat, id: CallId)
    requires IsRun(run) && n < |run.steps| && run.steps[n] == SwapWins(id)
    requires TurnId(run.at[n].calls[id].turn) != ""
    ensures run.at[n + 1].value.Some? && Fits(run.at[n + 1].value.value)
    ensures HasTurn(run.at[n + 1].value.value, TurnId(run.at[n].calls[id].turn))
            <==> KeepsTurn(Items(run.at[n].value), TurnId(run.at[n].calls[id].turn))
  {
    var existing, turn := Items(run.at[n].value), run.at[n].calls[id].turn;
    Reachable(run, n);
    assert CallOk(run.at[n], id);
    AppendFits(existing, turn);
    AppendedTurnIsHeldIff(existing, turn);
  }

  /** As long as other clients write only lists within the limits, so is the shared list, and no winner loses its turn. */
  lemma {:induction false} ValueFits(run: Run, n: nat)
    requires IsRun(run) && n < |run.at|
    requires forall m :: 0 <= m < n && run.steps[m].Interfere? ==> Fits(Items(run.steps[m].value))
    ensures Fits(Items(run.at[n].value))
  {
    if n > 0 {
      ValueFits(run, n - 1);
      if run.steps[n - 1].SwapWins? || run.steps[n - 1].SwapUnanswered? {
        AppendFits(Items(run.at[n - 1].value), run.at[n - 1].calls[run.steps[n - 1].id].turn);
      }
    }
  }

  // ---- The loop ----

  /** The shared key with its history; whatever other clients do shows as a foreign effect. */
  class SharedKey {
    var value: Value
    ghost var effects: seq<Effect>

    constructor ()
      ensures Valid() && effects == []
    {
      value, effects := None, [];
    }

    ghost predicate Valid()
      reads this
    {
      value == Replay(effects)
    }

    method OthersAct()
      requires Valid()
      modifies this
      ensures Valid() && old(effects) <= effects && NoneOf(effects[|old(effects)|..])
    {
      var changed: bool := *;
      if changed {
        value := *;
        effects := effects + [Foreign(value)];
      }
    }

    method Get() returns (answer: Value, failed: bool)
      requires Valid()
      modifies this
      ensures Valid() && old(effects) <= effects && NoneOf(effects[|old(effects)|..])
    {
      OthersAct();
      answer, failed := value, *;
    }

    method CompareAndSwap(expected: Value, after: seq<Item>, ghost id: CallId, ghost turn: seq<Item>)
      returns (written: bool, failed: bool)
      requires Valid() && after == Append(Items(expected), turn)
      modifies this
      ensures Valid() && old(effects) <= effects
      ensures written ==> !failed && OneOf(effects[|old(effects)|..], id, turn)
      ensures !written && !failed ==> NoneOf(effects[|old(effects)|..])
      ensures failed ==> NoneOf(effects[|old(effects)|..]) || OneOf(effects[|old(effects)|..], id, turn)
    {
      OthersAct();
      ghost var before := effects;
      var lostRequest, lostAnswer: bool := *, *;
      if lostRequest {
        return false, true;
      }
      if value == expected {
        value, effects := Some(after), effects + [Wrote(id, turn)];
        assert effects[|old(effects)|..] == before[|old(effects)|..] + [Wrote(id, turn)];
        assert effects[..|effects| - 1] == before;
        return !lostAnswer, lostAnswer;
      }
      return false, lostAnswer;
    }
  }

  /** Only foreign effects. */
  ghost predicate NoneOf(effects: seq<Effect>) {
    forall i :: 0 <= i < |effects| ==> effects[i].Foreign?
  }

  /** One write of this turn, after foreign effects only. */
  ghost predicate OneOf(effects: seq<Effect>, id: CallId, turn: seq<Item>) {
    effects != [] && effects[|effects| - 1] == Wrote(id, turn) && NoneOf(effects[..|effects| - 1])
  }

  /**
   The append of AppendCodexReasoningReplayItemsBestEffort in Home mode: true means the turn was
   appended exactly once to the value of that moment; false means at most once, after a lost answer.
   */
  method AppendToShared(store: SharedKey, valid: seq<Item>, ghost id: CallId) returns (ok: bool)
    requires store.Valid()
    modifies store
    ensures store.Valid() && old(store.effects) <= store.effects
    ensures ok ==> OneOf(store.effects[|old(store.effects)|..], id, Trim(valid))
    ensures !ok ==> NoneOf(store.effects[|old(store.effects)|..]) || OneOf(store.effects[|old(store.effects)|..], id, Trim(valid))
    ensures Trim(valid) == [] ==> !ok && store.effects == old(store.effects)
  {
    ghost var start := store.effects;
    var normalized := TrimItems(valid);
    if normalized == [] {
      return false;
    }
    for attempt := 0 to ATTEMPTS
      invariant store.Valid() && start <= store.effects && NoneOf(store.effects[|start|..])
    {
      var cancelled: bool := *;
      if cancelled {
        return false;
      }
      ghost var before := store.effects;
      var existing, failedRead := store.Get();
      Foreigners(start, before, store.effects);
      if failedRead {
        return false;
      }
      var combined := AppendTurn(Items(existing), normalized);
      before := store.effects;
      var written, failed := store.CompareAndSwap(existing, combined, id, normalized);
      Foreigners(start, before, store.effects);
      if failed {
        return false;
      }
      if written {
        return true;
      }
    }
    return false;
  }

  /** Foreign effects before a stretch of history leave its judgement alone. */
  lemma Foreigners(start: seq<Effect>, middle: seq<Effect>, now: seq<Effect>)
    requires start <= middle <= now && NoneOf(middle[|start|..])
    ensures NoneOf(now[|middle|..]) ==> NoneOf(now[|start|..])
    ensures forall id, turn :: OneOf(now[|middle|..], id, turn) ==> OneOf(now[|start|..], id, turn)
  {
    assert now[|start|..] == middle[|start|..] + now[|middle|..];
    forall id, turn | OneOf(now[|middle|..], id, turn)
      ensures OneOf(now[|start|..], id, turn)
    {
      assert now[|start|..][..|now| - |start| - 1] == middle[|start|..] + now[|middle|..][..|now| - |middle| - 1];
    }
  }
}
