/** The packet ring of a container capture, read and closed by any number of threads.

    Each call is a thread with a program counter. `closed` is an atomic flag, `released` is guarded by the read
    lock. A poll of the ring takes two steps, so that it can overlap with anything the lock does not exclude.
    What a poll returns is not determined by the state. */
module TpacketSource {
  import opened Wrappers

  datatype Outcome = Packet(id: nat) | EndOfFile | Failure

  datatype Pc =
    | ReadWantLock
    | ReadCheck
    | ReadPoll
    | ReadUnlock(outcome: Outcome)
    | ReadDone(outcome: Outcome)
    | CloseSet
    | CloseWantLock
    | CloseRelease
    | CloseUnlock
    | CloseDone

  /** `releases` counts how often the ring was released. */
  datatype State = State(closed: bool, released: bool, releases: nat, lock: Option<nat>, threads: seq<Pc>)

  datatype Action = CallRead | CallClose | Advance(thread: nat, polled: Option<Outcome>)

  const START := State(false, false, 0, None, [])

  predicate WantsLock(pc: Pc) {
    pc.ReadWantLock? || pc.CloseWantLock?
  }

  predicate HoldsLock(pc: Pc) {
    pc.ReadCheck? || pc.ReadPoll? || pc.ReadUnlock? || pc.CloseRelease? || pc.CloseUnlock?
  }

  predicate IsDone(pc: Pc) {
    pc.ReadDone? || pc.CloseDone?
  }

  predicate Enabled(s: State, a: Action) {
    match a
    case Advance(t, _) => t < |s.threads| && !IsDone(s.threads[t]) && (WantsLock(s.threads[t]) ==> s.lock.None?)
    case _ => true
  }

  /** `polled` is what a poll returns, or nothing if it times out. */
  function NextPc(s: State, t: nat, polled: Option<Outcome>): Pc
    requires t < |s.threads|
  {
    match s.threads[t]
    case ReadWantLock => ReadCheck
    case ReadCheck => if s.closed then ReadUnlock(EndOfFile) else ReadPoll
    case ReadPoll => if polled.Some? then ReadUnlock(polled.value) else ReadCheck
    case ReadUnlock(outcome) => ReadDone(outcome)
    case CloseSet => CloseWantLock
    case CloseWantLock => CloseRelease
    case CloseRelease => CloseUnlock
    case CloseUnlock => CloseDone
    case pc => pc
  }

  function Apply(s: State, a: Action): State
    requires Enabled(s, a)
  {
    match a
    case CallRead => s.(threads := s.threads + [ReadWantLock])
    case CallClose => s.(threads := s.threads + [CloseSet])
    case Advance(t, polled) =>
      var pc := s.threads[t];
      var releases := pc.CloseRelease? && !s.released;
      State(s.closed || pc.CloseSet?,
            s.released || releases,
            if releases then s.releases + 1 else s.releases,
            if WantsLock(pc) then Some(t) else if pc.ReadUnlock? || pc.CloseUnlock? then None else s.lock,
            s.threads[t := NextPc(s, t, polled)])
  }

  /** The state after some actions, or nothing if one of them was not possible. */
  function Run(actions: seq<Action>): Option<State> {
    if actions == [] then Some(START)
    else
      match Run(actions[..|actions| - 1])
      case None => None
      case Some(s) => if Enabled(s, actions[|actions| - 1]) then Some(Apply(s, actions[|actions| - 1])) else None
  }

  // ---------------------------------------------------------------------------------------------
  // The lock and the ring
  // ---------------------------------------------------------------------------------------------

  predicate HasSet(pc: Pc) {
    pc.CloseWantLock? || pc.CloseRelease? || pc.CloseUnlock? || pc.CloseDone?
  }

  ghost predicate ThreadOk(s: State, t: nat)
    requires t < |s.threads|
  {
    var pc := s.threads[t];
    && (HoldsLock(pc) <==> s.lock == Some(t))
    && (pc.ReadPoll? ==> !s.released)
    && (HasSet(pc) ==> s.closed)
    && (pc.CloseUnlock? || pc.CloseDone? ==> s.released)
  }

  ghost predicate Inv(s: State) {
    && s.releases == (if s.released then 1 else 0)
    && (s.released ==> s.closed)
    && (s.closed ==> exists t | 0 <= t < |s.threads| :: HasSet(s.threads[t]))
    && (s.lock.Some? ==> s.lock.value < |s.threads|)
    && forall t | 0 <= t < |s.threads| :: ThreadOk(s, t)
  }

  lemma ActionKeepsThreadOk(s: State, a: Action, t: nat)
    requires Inv(s) && Enabled(s, a) && t < |Apply(s, a).threads|
    ensures ThreadOk(Apply(s, a), t)
  {
    if t < |s.threads| {
      assert ThreadOk(s, t);
    }
    if a.Advance? {
      assert ThreadOk(s, a.thread);
    }
  }

  lemma ActionKeepsSetter(s: State, a: Action)
    requires Enabled(s, a) && (s.closed ==> exists t | 0 <= t < |s.threads| :: HasSet(s.threads[t]))
    requires Apply(s, a).closed
    ensures exists t | 0 <= t < |Apply(s, a).threads| :: HasSet(Apply(s, a).threads[t])
  {
    var s' := Apply(s, a);
    if s.closed {
      var t :| 0 <= t < |s.threads| && HasSet(s.threads[t]);
      assert HasSet(s'.threads[t]);
    } else {
      assert HasSet(s'.threads[a.thread]);
    }
  }

  lemma ActionKeepsInv(s: State, a: Action)
    requires Inv(s) && Enabled(s, a)
    ensures Inv(Apply(s, a))
  {
    if a.Advance? {
      assert ThreadOk(s, a.thread);
    }
    forall t | 0 <= t < |Apply(s, a).threads| ensures ThreadOk(Apply(s, a), t) {
      ActionKeepsThreadOk(s, a, t);
    }
    if Apply(s, a).closed {
      ActionKeepsSetter(s, a);
    }
  }

  lemma {:induction false} RunKeepsInv(actions: seq<Action>)
    ensures Run(actions).Some? ==> Inv(Run(actions).value)
    decreases |actions|
  {
    if actions != [] {
      var before := Run(actions[..|actions| - 1]);
      RunKeepsInv(actions[..|actions| - 1]);
      if before.Some? && Enabled(before.value, actions[|actions| - 1]) {
        ActionKeepsInv(before.value, actions[|actions| - 1]);
      }
    }
  }

  /** In every run the ring is released at most once, exactly if it is marked as released. It is never polled
      once it is released, and once a Close call has returned it is. The flag is only set by Close calls. */
  lemma RingIsNeverPolledAfterRelease(actions: seq<Action>, t: nat)
    requires Run(actions).Some? && t < |Run(actions).value.threads|
    ensures var s := Run(actions).value;
            && s.releases <= 1 && (s.releases == 1 <==> s.released)
            && (s.threads[t].ReadPoll? ==> s.releases == 0)
            && (s.threads[t].CloseDone? ==> s.releases == 1)
            && (s.closed <==> exists u | 0 <= u < |s.threads| :: HasSet(s.threads[u]))
  {
    RunKeepsInv(actions);
    var s := Run(actions).value;
    assert ThreadOk(s, t);
    if u :| 0 <= u < |s.threads| && HasSet(s.threads[u]) {
      assert ThreadOk(s, u);
    }
  }

  // ---------------------------------------------------------------------------------------------
  // What reads return
  // ---------------------------------------------------------------------------------------------

  /** Action j is the call that thread t runs. */
  predicate Calls(actions: seq<Action>, j: nat, t: nat) {
    && j < |actions| && !actions[j].Advance?
    && Run(actions[..j]).Some? && t == |Run(actions[..j]).value.threads|
  }

  /** What the polls of thread t have yielded, without those that timed out. */
  function Yield(actions: seq<Action>, t: nat): seq<Outcome> {
    if actions == [] then []
    else
      var before, last := actions[..|actions| - 1], actions[|actions| - 1];
      var s := Run(before);
      Yield(before, t) +
      if last.Advance? && last.thread == t && last.polled.Some?
         && s.Some? && t < |s.value.threads| && s.value.threads[t].ReadPoll?
      then [last.polled.value] else []
  }

  /** A read has yet to poll, or returns what a poll yielded, or the end of the file because of the flag. */
  predicate ReadFits(pc: Pc, yielded: seq<Outcome>, closed: bool) {
    match pc
    case ReadWantLock => yielded == []
    case ReadCheck => yielded == []
    case ReadPoll => yielded == []
    case ReadUnlock(outcome) => yielded == [outcome] || (yielded == [] && outcome == EndOfFile && closed)
    case ReadDone(outcome) => yielded == [outcome] || (yielded == [] && outcome == EndOfFile && closed)
    case _ => false
  }

  predicate CallFits(call: Action, pc: Pc, yielded: seq<Outcome>, closed: bool) {
    match call
    case CallRead => ReadFits(pc, yielded, closed)
    case CallClose => yielded == [] && (HasSet(pc) || pc.CloseSet?)
    case Advance(_, _) => false
  }

  lemma {:induction false} NothingYieldedBefore(actions: seq<Action>, t: nat)
    requires Run(actions).Some? && |Run(actions).value.threads| <= t
    ensures Yield(actions, t) == []
  {
    if actions != [] {
      NothingYieldedBefore(actions[..|actions| - 1], t);
    }
  }

  lemma {:induction false} CallsFit(actions: seq<Action>, j: nat, t: nat)
    requires Run(actions).Some? && Calls(actions, j, t)
    ensures var s := Run(actions).value;
            t < |s.threads| && CallFits(actions[j], s.threads[t], Yield(actions, t), s.closed)
  {
    var before := actions[..|actions| - 1];
    if j == |actions| - 1 {
      NothingYieldedBefore(before, t);
    } else {
      assert before[..j] == actions[..j];
      CallsFit(before, j, t);
    }
  }

  /** In every run, a read that has returned has returned the one thing its polls yielded, or the end of the file, after
      a Close call had set the flag, if they yielded nothing. Before that they have yielded nothing. */
  lemma ReadsReturnWhatIsPolled(actions: seq<Action>, j: nat, t: nat)
    requires Run(actions).Some? && Calls(actions, j, t) && actions[j].CallRead?
    ensures var s := Run(actions).value;
            && t < |s.threads|
            && (s.threads[t].ReadDone? ==>
                  || Yield(actions, t) == [s.threads[t].outcome]
                  || (Yield(actions, t) == [] && s.threads[t].outcome == EndOfFile && s.closed))
            && (!s.threads[t].ReadDone? && !s.threads[t].ReadUnlock? ==> Yield(actions, t) == [])
            && !s.threads[t].CloseDone?
  {
    CallsFit(actions, j, t);
  }

  lemma {:induction false} LateReadsNeverPoll(actions: seq<Action>, j: nat, t: nat)
    requires Run(actions).Some? && Calls(actions, j, t) && actions[j].CallRead? && Run(actions[..j]).value.closed
    ensures var s := Run(actions).value;
            s.closed && t < |s.threads| && !s.threads[t].ReadPoll? && Yield(actions, t) == []
  {
    var before := actions[..|actions| - 1];
    if j == |actions| - 1 {
      NothingYieldedBefore(before, t);
    } else {
      assert before[..j] == actions[..j];
      LateReadsNeverPoll(before, j, t);
    }
  }

  /** A read that begins after a Close call set the flag returns the end of the file, without polling the ring. */
  lemma LateReadsEnd(actions: seq<Action>, j: nat, t: nat)
    requires Run(actions).Some? && Calls(actions, j, t) && actions[j].CallRead? && Run(actions[..j]).value.closed
    ensures var s := Run(actions).value;
            && t < |s.threads|
            && !s.threads[t].ReadPoll?
            && (s.threads[t].ReadDone? ==> s.threads[t].outcome == EndOfFile)
  {
    LateReadsNeverPoll(actions, j, t);
    CallsFit(actions, j, t);
  }

  // ---------------------------------------------------------------------------------------------
  // Calls get to their end
  // ---------------------------------------------------------------------------------------------

  /** How many steps are left for a thread, if no poll times out. */
  function StepsToGo(pc: Pc): nat {
    match pc
    case ReadWantLock => 4
    case ReadCheck => 3
    case ReadPoll => 2
    case ReadUnlock(_) => 1
    case CloseSet => 4
    case CloseWantLock => 3
    case CloseRelease => 2
    case CloseUnlock => 1
    case _ => 0
  }

  /** Every step of a call brings it closer to its end, but for a poll that times out, which is repeated unless the flag
      is set. A call that has not ended can take a step, or waits for the lock, whose owner can take one. New calls can
      be made at any time. */
  lemma CallsGetToTheirEnd(actions: seq<Action>, t: nat, polled: Option<Outcome>)
    requires Run(actions).Some? && t < |Run(actions).value.threads| && !IsDone(Run(actions).value.threads[t])
    ensures Enabled(Run(actions).value, CallRead) && Enabled(Run(actions).value, CallClose)
    ensures var s := Run(actions).value;
            if Enabled(s, Advance(t, polled)) then
              var s' := Apply(s, Advance(t, polled));
              && |s'.threads| == |s.threads|
              && (s.threads[t].ReadPoll? && polled.None? ==> s'.threads[t].ReadCheck?)
              && (!s.threads[t].ReadPoll? || polled.Some? ==> StepsToGo(s'.threads[t]) < StepsToGo(s.threads[t]))
              && (s'.threads[t].ReadPoll? ==> !s.closed)
            else
              WantsLock(s.threads[t]) && s.lock.Some? && Enabled(s, Advance(s.lock.value, polled))
  {
    RunKeepsInv(actions);
    var s := Run(actions).value;
    if s.lock.Some? {
      assert ThreadOk(s, s.lock.value);
    }
  }

  /** Close waits for a running read no longer than one poll: once the flag is set, whoever holds the lock is
      able to go on, and lets go of it after at most three steps. */
  lemma HolderLetsGo(actions: seq<Action>, t: nat, polled: Option<Outcome>)
    requires Run(actions).Some? && Run(actions).value.closed && Run(actions).value.lock == Some(t)
    ensures var s := Run(actions).value;
            && t < |s.threads| && Enabled(s, Advance(t, polled)) && 0 < UntilUnlocked(s.threads[t]) <= 3
            && var s' := Apply(s, Advance(t, polled));
               && UntilUnlocked(s'.threads[t]) < UntilUnlocked(s.threads[t])
               && (UntilUnlocked(s'.threads[t]) == 0 ==> s'.lock.None?)
  {
    RunKeepsInv(actions);
    assert ThreadOk(Run(actions).value, t);
  }

  /** How many steps a thread takes at most until it unlocks, once the flag is set. */
  function UntilUnlocked(pc: Pc): nat {
    match pc
    case ReadPoll => 3
    case ReadCheck => 2
    case ReadUnlock(_) => 1
    case CloseRelease => 2
    case CloseUnlock => 1
    case _ => 0
  }
}
