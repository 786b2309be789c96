/** The capture of a sidecar, which continues with a new run whenever one reaches its time bound.

    One goroutine reads and starts the runs, any number of threads close the capture. The reader and every Close
    call have a program counter, and an action is one atomic step of one of them or of the outside. Pipes are
    numbered in the order they are made. What a run writes, and when it ends, is not determined by the state.
    A pcap reader reads its pipe through a buffer, which can hold items, the header or packets, that Close does
    not reach any more. */
module SidecarCapture {
  import opened Wrappers

  datatype Reader =
    | Between
    | Read
    | RunWantLock(pipe: nat)
    | RunLocked(pipe: nat)
    | RunHeader(pipe: nat, buffered: nat)
    | Returned(failed: bool)

  /** The pcap reader of a pipe and how many whole items are in its buffer. */
  datatype Source = Source(pipe: nat, buffered: nat)

  datatype Closer = CloseCancel | CloseWantLock | CloseLocked | CloseDone

  datatype Lock = Free | HeldByReader | HeldByCloser(closer: nat)

  /** `current` reads the packets, `stdout` is the pipe that Close closes. `ended` are the pipes whose run ended
      at its time bound, `closed` those that Close closed. `installs` counts how often a pipe was installed. */
  datatype State = State(
    cancelled: bool, stdout: Option<nat>, current: Option<Source>, pipes: nat, ended: set<nat>, closed: set<nat>,
    installs: nat, lock: Lock, reader: Reader, closers: seq<Closer>)

  /** What a step of the reader meets: an item of the buffer, which may be malformed, or what comes out of the
      pipe, which are bytes that complete some items, the end of the run, or another error. */
  datatype Outcome = Item | Malformed | Bytes(items: nat) | TimeBound | Error

  datatype Action =
    | CallRead
    | CallClose
    | EndContext
    | AdvanceReader(outcome: Outcome)
    | AdvanceCloser(closer: nat)

  /** Opening the capture starts its first run. */
  const START := State(false, None, None, 1, {}, {}, 0, Free, RunWantLock(0), [])

  /** The pipe is only read once the buffer is used up. A pipe that was closed yields an error, and one whose run
      ended yields the end again. */
  predicate CanYield(s: State, pipe: nat, buffered: nat, outcome: Outcome) {
    if buffered > 0 then outcome.Item? || outcome.Malformed?
    else if pipe in s.closed then outcome.Error?
    else if pipe in s.ended then outcome.TimeBound?
    else outcome.Bytes? || outcome.TimeBound? || outcome.Error?
  }

  predicate Enabled(s: State, a: Action) {
    match a
    case CallRead => (s.reader.Between? || s.reader.Returned?) && s.current.Some?
    case CallClose => true
    case EndContext => true
    case AdvanceReader(outcome) =>
      (match s.reader
       case Between => false
       case Returned(_) => false
       case Read => s.current.Some? && CanYield(s, s.current.value.pipe, s.current.value.buffered, outcome)
       case RunWantLock(_) => s.lock.Free?
       case RunLocked(_) => true
       case RunHeader(pipe, buffered) => CanYield(s, pipe, buffered, outcome))
    case AdvanceCloser(c) =>
      c < |s.closers| && !s.closers[c].CloseDone? && (s.closers[c].CloseWantLock? ==> s.lock.Free?)
  }

  function AfterReader(s: State, outcome: Outcome): State
    requires Enabled(s, AdvanceReader(outcome))
  {
    match s.reader
    case Read =>
      var source := s.current.value;
      (match outcome
       case Item => s.(current := Some(source.(buffered := source.buffered - 1)), reader := Returned(false))
       case Malformed => s.(current := Some(source.(buffered := source.buffered - 1)), reader := Returned(true))
       case Bytes(items) => s.(current := Some(source.(buffered := items)))
       case TimeBound => s.(reader := RunWantLock(s.pipes), pipes := s.pipes + 1, ended := s.ended + {source.pipe})
       case Error => s.(reader := Returned(true)))
    case RunWantLock(pipe) => s.(lock := HeldByReader, reader := RunLocked(pipe))
    case RunLocked(pipe) =>
      if s.cancelled then s.(lock := Free, reader := Returned(true))
      else s.(lock := Free, stdout := Some(pipe), installs := s.installs + 1, reader := RunHeader(pipe, 0))
    case RunHeader(pipe, buffered) =>
      (match outcome
       case Item =>
         s.(current := Some(Source(pipe, buffered - 1)), reader := if s.current.None? then Between else Read)
       case Bytes(items) => s.(reader := RunHeader(pipe, items))
       case _ => s.(reader := Returned(true)))
  }

  function AfterCloser(s: State, c: nat): State
    requires Enabled(s, AdvanceCloser(c))
  {
    match s.closers[c]
    case CloseCancel => s.(cancelled := true, closers := s.closers[c := CloseWantLock])
    case CloseWantLock => s.(lock := HeldByCloser(c), closers := s.closers[c := CloseLocked])
    case CloseLocked =>
      s.(lock := Free, closers := s.closers[c := CloseDone],
         closed := if s.stdout.Some? then s.closed + {s.stdout.value} else s.closed)
  }

  function Apply(s: State, a: Action): State
    requires Enabled(s, a)
  {
    match a
    case CallRead => s.(reader := Read)
    case CallClose => s.(closers := s.closers + [CloseCancel])
    case EndContext => s.(cancelled := true)
    case AdvanceReader(outcome) => AfterReader(s, outcome)
    case AdvanceCloser(c) => AfterCloser(s, c)
  }

  function Run(s: State, actions: seq<Action>): Option<State> {
    if actions == [] then Some(s)
    else
      match Run(s, actions[..|actions| - 1])
      case None => None
      case Some(t) => if Enabled(t, actions[|actions| - 1]) then Some(Apply(t, actions[|actions| - 1])) else None
  }

  /** A Close call has returned. */
  ghost predicate IsClosed(s: State) {
    exists c | 0 <= c < |s.closers| :: s.closers[c].CloseDone?
  }

  ghost predicate CloserOk(s: State, c: nat)
    requires c < |s.closers|
  {
    var pc := s.closers[c];
    && (s.lock == HeldByCloser(c) <==> pc.CloseLocked?)
    && (!pc.CloseCancel? ==> s.cancelled)
    && (pc.CloseDone? ==> s.stdout.None? || s.stdout.value in s.closed)
  }

  ghost predicate ReaderOk(s: State) {
    && (s.lock.HeldByReader? <==> s.reader.RunLocked?)
    && (s.reader.RunHeader? ==> s.stdout == Some(s.reader.pipe))
    && (s.reader.Read? ==> s.current.Some?)
    && (s.current.Some? && s.stdout != Some(s.current.value.pipe) ==> IsUsedUp(s))
    && (s.reader.RunHeader? || s.reader.RunWantLock? || s.reader.RunLocked? ==> IsUsedUp(s))
    && (s.current.Some? ==> s.stdout.Some?)
    && (s.reader.RunWantLock? || s.reader.RunLocked? ==>
          s.reader.pipe == s.pipes - 1 && s.stdout != Some(s.reader.pipe))
    && (s.stdout.Some? ==> s.stdout.value < s.pipes)
  }

  /** The run of the pcap reader has ended and nothing is left of it. */
  ghost predicate IsUsedUp(s: State) {
    s.current.Some? ==> s.current.value.pipe in s.ended && s.current.value.buffered == 0
  }

  ghost predicate Inv(s: State) {
    && s.pipes > 0
    && ReaderOk(s)
    && (s.lock.HeldByCloser? ==> s.lock.closer < |s.closers|)
    && forall c | 0 <= c < |s.closers| :: CloserOk(s, c)
  }

  lemma ActionKeepsReaderOk(s: State, a: Action)
    requires Inv(s) && Enabled(s, a)
    ensures Apply(s, a).pipes > 0 && ReaderOk(Apply(s, a))
  {
    if a.AdvanceCloser? {
      assert CloserOk(s, a.closer);
    }
  }

  lemma ActionKeepsCloserOk(s: State, a: Action, c: nat)
    requires Inv(s) && Enabled(s, a) && c < |Apply(s, a).closers|
    ensures CloserOk(Apply(s, a), c)
  {
    if a.AdvanceCloser? {
      assert CloserOk(s, a.closer);
    }
    if c < |s.closers| {
      assert CloserOk(s, c);
    }
  }

  lemma ActionKeepsInv(s: State, a: Action)
    requires Inv(s) && Enabled(s, a)
    ensures Inv(Apply(s, a))
  {
    ActionKeepsReaderOk(s, a);
    forall c | 0 <= c < |Apply(s, a).closers| ensures CloserOk(Apply(s, a), c) {
      ActionKeepsCloserOk(s, a, c);
    }
  }

  lemma {:induction false} RunKeepsInv(s: State, actions: seq<Action>)
    requires Inv(s)
    ensures Run(s, actions).Some? ==> Inv(Run(s, actions).value)
    decreases |actions|
  {
    if actions != [] {
      var before := Run(s, actions[..|actions| - 1]);
      RunKeepsInv(s, actions[..|actions| - 1]);
      if before.Some? && Enabled(before.value, actions[|actions| - 1]) {
        ActionKeepsInv(before.value, actions[|actions| - 1]);
      }
    }
  }

  /** Once a Close call has returned, an action neither installs a pipe nor reopens the installed one. */
  lemma ClosedStaysClosed(s: State, a: Action)
    requires Inv(s) && Enabled(s, a) && IsClosed(s)
    ensures var s' := Apply(s, a);
            && IsClosed(s') && s'.stdout == s.stdout && s'.installs == s.installs
            && (s.stdout.Some? ==> s.stdout.value in s'.closed)
  {
    var c :| 0 <= c < |s.closers| && s.closers[c].CloseDone?;
    assert CloserOk(s, c);
    assert Apply(s, a).closers[c].CloseDone?;
  }

  /** After Close has returned, the installed pipe is closed, stays closed and is never replaced, whatever else
      happens. */
  lemma {:induction false} NothingRunsAfterClose(before: seq<Action>, after: seq<Action>)
    requires Run(START, before).Some? && IsClosed(Run(START, before).value)
    requires Run(Run(START, before).value, after).Some?
    ensures var s, s' := Run(START, before).value, Run(Run(START, before).value, after).value;
            && IsClosed(s') && s'.stdout == s.stdout && s'.installs == s.installs
            && (s'.stdout.Some? ==> s'.stdout.value in s'.closed)
    decreases |after|
  {
    var s := Run(START, before).value;
    RunKeepsInv(START, before);
    if after == [] {
      var c :| 0 <= c < |s.closers| && s.closers[c].CloseDone?;
      assert CloserOk(s, c);
    } else {
      NothingRunsAfterClose(before, after[..|after| - 1]);
      RunKeepsInv(s, after[..|after| - 1]);
      ClosedStaysClosed(Run(s, after[..|after| - 1]).value, after[|after| - 1]);
    }
  }

  // ---------------------------------------------------------------------------------------------
  // What reads return after Close
  // ---------------------------------------------------------------------------------------------

  /** How many items are in the buffers of the pcap readers. */
  function Buffered(s: State): nat {
    (if s.current.Some? then s.current.value.buffered else 0) + (if s.reader.RunHeader? then s.reader.buffered else 0)
  }

  /** The step returns a packet from a read. */
  predicate ReturnsPacket(s: State, a: Action) {
    s.reader.Read? && a == AdvanceReader(Item)
  }

  /** How many packets the reads of a run return. */
  ghost function Packets(s: State, actions: seq<Action>): nat
    requires Run(s, actions).Some?
  {
    if actions == [] then 0
    else
      var before := actions[..|actions| - 1];
      Packets(s, before) + if ReturnsPacket(Run(s, before).value, actions[|actions| - 1]) then 1 else 0
  }

  /** After Close has returned, nothing is added to the buffers, and every packet comes out of them. */
  lemma ClosedOnlyDrains(s: State, a: Action)
    requires Inv(s) && Enabled(s, a) && IsClosed(s)
    ensures Buffered(Apply(s, a)) + (if ReturnsPacket(s, a) then 1 else 0) <= Buffered(s)
  {
    var c :| 0 <= c < |s.closers| && s.closers[c].CloseDone?;
    assert CloserOk(s, c);
  }

  /** Over any run after Close has returned, reads return at most the packets that were buffered when it did. */
  lemma {:induction false} OnlyBufferedPacketsFollowClose(before: seq<Action>, after: seq<Action>)
    requires Run(START, before).Some? && IsClosed(Run(START, before).value)
    requires Run(Run(START, before).value, after).Some?
    ensures var s := Run(START, before).value;
            Packets(s, after) + Buffered(Run(s, after).value) <= Buffered(s)
    decreases |after|
  {
    if after != [] {
      var s := Run(START, before).value;
      var earlier := after[..|after| - 1];
      OnlyBufferedPacketsFollowClose(before, earlier);
      NothingRunsAfterClose(before, earlier);
      RunKeepsInv(START, before);
      RunKeepsInv(s, earlier);
      ClosedOnlyDrains(Run(s, earlier).value, after[|after| - 1]);
    }
  }

  /** How many steps a read takes at most until it returns, once Close has returned. */
  function StepsToGo(reader: Reader): nat {
    match reader
    case RunHeader(_, _) => 4
    case Read => 3
    case RunWantLock(_) => 2
    case RunLocked(_) => 1
    case _ => 0
  }

  /** After Close has returned, no read waits for packets. With something buffered it returns that. With nothing
      buffered its pipe is closed or has ended, and it fails, at once or through the attempt to start another
      run, which installs nothing. Whatever comes of a step, the read gets closer to its return. */
  lemma ReadsEndAfterClose(actions: seq<Action>, outcome: Outcome)
    requires Run(START, actions).Some? && IsClosed(Run(START, actions).value)
    requires Enabled(Run(START, actions).value, AdvanceReader(outcome))
    ensures var s := Run(START, actions).value;
            var s' := Apply(s, AdvanceReader(outcome));
            && StepsToGo(s'.reader) < StepsToGo(s.reader)
            && (s.reader.Read? && s.current.value.buffered > 0 ==> s'.reader.Returned?)
            && (s.reader.Read? && s.current.value.buffered == 0 ==>
                  && (s.current.value.pipe in s.closed || s.current.value.pipe in s.ended)
                  && (s'.reader == Returned(true) || s'.reader == RunWantLock(s.pipes)))
            && (s.reader.RunHeader? && s.reader.buffered == 0 ==>
                  s.reader.pipe in s.closed && s'.reader == Returned(true))
            && (s.reader.RunLocked? ==> s'.reader == Returned(true))
  {
    var s := Run(START, actions).value;
    RunKeepsInv(START, actions);
    var c :| 0 <= c < |s.closers| && s.closers[c].CloseDone?;
    assert CloserOk(s, c);
  }

  function PossibleOutcome(s: State, pipe: nat, buffered: nat): (outcome: Outcome)
    ensures CanYield(s, pipe, buffered, outcome)
  {
    if buffered > 0 then Item else if pipe in s.closed then Error else if pipe in s.ended then TimeBound else Error
  }

  /** And it never gets stuck: it has a step to take, unless it waits for the lock, whose holder can release it
      in its next step. */
  lemma ReadsGetToTheirEnd(actions: seq<Action>)
    requires Run(START, actions).Some? && StepsToGo(Run(START, actions).value.reader) > 0
    ensures var s := Run(START, actions).value;
            || (exists outcome :: Enabled(s, AdvanceReader(outcome)))
            || (s.reader.RunWantLock? && s.lock.HeldByCloser? && Enabled(s, AdvanceCloser(s.lock.closer))
                && Apply(s, AdvanceCloser(s.lock.closer)).lock.Free?)
  {
    var s := Run(START, actions).value;
    RunKeepsInv(START, actions);
    match s.reader
    case Read => assert Enabled(s, AdvanceReader(PossibleOutcome(s, s.current.value.pipe, s.current.value.buffered)));
    case RunHeader(pipe, buffered) => assert Enabled(s, AdvanceReader(PossibleOutcome(s, pipe, buffered)));
    case RunLocked(_) => assert Enabled(s, AdvanceReader(Error));
    case RunWantLock(_) =>
      if s.lock.Free? {
        assert Enabled(s, AdvanceReader(Error));
      } else {
        assert CloserOk(s, s.lock.closer);
      }
  }

  // ---------------------------------------------------------------------------------------------
  // Time bounds
  // ---------------------------------------------------------------------------------------------

  /** What the reader meets neither is malformed nor an error, and a run that starts gets to its header. A run that
      goes on may reach its time bound. */
  predicate GoesOn(s: State, outcome: Outcome) {
    && (s.reader.Read? ==> outcome.Item? || outcome.Bytes? || outcome.TimeBound?)
    && (s.reader.RunHeader? ==> outcome.Item? || outcome.Bytes?)
  }

  ghost predicate AllGoesOn(s: State, actions: seq<Action>)
    requires Run(s, actions).Some?
  {
    actions == [] ||
    var before, last := actions[..|actions| - 1], actions[|actions| - 1];
    && AllGoesOn(s, before)
    && !last.CallRead?
    && (last.AdvanceReader? ==> GoesOn(Run(s, before).value, last.outcome))
  }

  /** The read is on its way to the packets of a pipe that is not older than the given one, or has returned one. */
  ghost predicate IsOnTheWay(s: State, pipe: nat, installs: nat) {
    match s.reader
    case RunWantLock(p) => p >= pipe && s.installs >= installs
    case RunLocked(p) => p >= pipe && s.installs >= installs
    case RunHeader(p, _) => p >= pipe && s.installs > installs
    case Read => s.current.Some? && s.current.value.pipe >= pipe && s.installs > installs
    case Returned(failed) =>
      !failed && s.current.Some? && s.current.value.pipe >= pipe && s.installs > installs
    case Between => false
  }

  lemma StaysOnTheWay(s: State, a: Action, pipe: nat, installs: nat)
    requires Inv(s) && Enabled(s, a) && IsOnTheWay(s, pipe, installs) && !a.CallRead? && s.current.Some?
    requires a.AdvanceReader? ==> GoesOn(s, a.outcome)
    requires !Apply(s, a).cancelled && pipe < s.pipes
    ensures IsOnTheWay(Apply(s, a), pipe, installs)
    ensures pipe < Apply(s, a).pipes && Apply(s, a).current.Some?
  {
  }

  lemma CancelledStays(s: State, a: Action)
    requires Enabled(s, a) && s.cancelled
    ensures Apply(s, a).cancelled
  {
  }

  lemma {:induction false} RunsStayOnTheWay(s: State, actions: seq<Action>, pipe: nat, installs: nat)
    requires Inv(s) && IsOnTheWay(s, pipe, installs) && pipe < s.pipes && s.current.Some?
    requires Run(s, actions).Some? && !Run(s, actions).value.cancelled && AllGoesOn(s, actions)
    ensures var t := Run(s, actions).value;
            IsOnTheWay(t, pipe, installs) && pipe < t.pipes && t.current.Some?
    decreases |actions|
  {
    if actions != [] {
      var before, last := actions[..|actions| - 1], actions[|actions| - 1];
      if Run(s, before).value.cancelled {
        CancelledStays(Run(s, before).value, last);
      }
      RunsStayOnTheWay(s, before, pipe, installs);
      RunKeepsInv(s, before);
      StaysOnTheWay(Run(s, before).value, last, pipe, installs);
    }
  }

  /** A read whose run reaches its time bound does not fail for that: unless the capture is cancelled, or something
      is malformed or fails, it installs a pipe that was not there before and returns a packet of that pipe, or of
      an even newer one. */
  lemma TimeBoundsEndNoRead(before: seq<Action>, after: seq<Action>)
    requires Run(START, before).Some? && Run(START, before).value.reader.Read?
    requires Enabled(Run(START, before).value, AdvanceReader(TimeBound))
    requires Run(Apply(Run(START, before).value, AdvanceReader(TimeBound)), after).Some?
    requires var s := Apply(Run(START, before).value, AdvanceReader(TimeBound));
             !Run(s, after).value.cancelled && AllGoesOn(s, after)
    ensures var s := Run(START, before).value;
            var t := Run(Apply(s, AdvanceReader(TimeBound)), after).value;
            && t.reader != Returned(true) && !t.reader.Between?
            && s.current.Some? && s.current.value.pipe < s.pipes
            && (t.reader == Returned(false) ==>
                  && t.current.Some? && t.current.value.pipe >= s.pipes
                  && t.installs > s.installs)
  {
    var s := Run(START, before).value;
    RunKeepsInv(START, before);
    var s' := Apply(s, AdvanceReader(TimeBound));
    ActionKeepsInv(s, AdvanceReader(TimeBound));
    OldPipesAreInstalled(before);
    RunsStayOnTheWay(s', after, s.pipes, s.installs);
  }

  lemma {:induction false} OldPipesAreInstalled(actions: seq<Action>)
    requires Run(START, actions).Some?
    ensures var s := Run(START, actions).value; s.current.Some? ==> s.current.value.pipe < s.pipes
    decreases |actions|
  {
    if actions != [] {
      OldPipesAreInstalled(actions[..|actions| - 1]);
      RunKeepsInv(START, actions[..|actions| - 1]);
    }
  }

  /** A read fails for exactly these reasons: a malformed packet, an error of its pipe, a capture that is cancelled
      when it starts another run, and a run that ends or fails before its header. */
  lemma ReadsFailFor(s: State, outcome: Outcome)
    requires Enabled(s, AdvanceReader(outcome))
    ensures Apply(s, AdvanceReader(outcome)).reader == Returned(true) <==>
              || (s.reader.Read? && (outcome.Malformed? || outcome.Error?))
              || (s.reader.RunLocked? && s.cancelled)
              || (s.reader.RunHeader? && !outcome.Item? && !outcome.Bytes?)
  {
  }

  // ---------------------------------------------------------------------------------------------
  // Accounts
  // ---------------------------------------------------------------------------------------------

  /** What a run has seen: calls of reads and Close, returns, items that came out of pipes, packets returned from
      reads, headers, malformed items, and items that were buffered when their run failed at its header. */
  datatype Account = Account(
    called: nat, closes: nat, ended: nat, arrived: nat, packets: nat, headers: nat, malformed: nat, lost: nat,
    contextEnded: bool)

  const NOTHING := Account(0, 0, 0, 0, 0, 0, 0, 0, false)

  predicate IsReading(reader: Reader) {
    !reader.Between? && !reader.Returned?
  }

  function Booked(account: Account, s: State, a: Action): Account
    requires Enabled(s, a)
  {
    match a
    case CallRead => account.(called := account.called + 1)
    case CallClose => account.(closes := account.closes + 1)
    case EndContext => account.(contextEnded := true)
    case AdvanceReader(outcome) =>
      var account' := account.(ended := account.ended + if IsReading(Apply(s, a).reader) then 0 else 1);
      (match s.reader
       case Read => BookedItems(account', outcome, false, 0)
       case RunHeader(_, buffered) => BookedItems(account', outcome, true, buffered)
       case _ => account')
    case AdvanceCloser(_) => account
  }

  function BookedItems(account: Account, outcome: Outcome, header: bool, buffered: nat): Account {
    match outcome
    case Item =>
      if header then account.(headers := account.headers + 1) else account.(packets := account.packets + 1)
    case Malformed =>
      account.(malformed := account.malformed + 1, lost := account.lost + if buffered > 0 then buffered - 1 else 0)
    case Bytes(items) => account.(arrived := account.arrived + items)
    case _ => account
  }

  ghost function AccountOf(actions: seq<Action>): Account
    requires Run(START, actions).Some?
  {
    if actions == [] then NOTHING
    else
      var before := actions[..|actions| - 1];
      Booked(AccountOf(before), Run(START, before).value, actions[|actions| - 1])
  }

  ghost predicate Balances(s: State, account: Account) {
    && account.arrived ==
         account.packets + account.headers + account.malformed + account.lost + Buffered(s)
    && account.called + 1 == account.ended + (if IsReading(s.reader) then 1 else 0)
    && |s.closers| == account.closes
    && (s.current.Some? <==> account.headers > 0)
    && (s.cancelled <==> account.contextEnded || exists c | 0 <= c < |s.closers| :: !s.closers[c].CloseCancel?)
  }

  lemma ReaderKeepsBalances(s: State, outcome: Outcome, account: Account)
    requires Inv(s) && Enabled(s, AdvanceReader(outcome)) && Balances(s, account)
    ensures Balances(Apply(s, AdvanceReader(outcome)), Booked(account, s, AdvanceReader(outcome)))
  {
  }

  lemma CloserKeepsBalances(s: State, c: nat, account: Account)
    requires Inv(s) && Enabled(s, AdvanceCloser(c)) && Balances(s, account)
    ensures Balances(Apply(s, AdvanceCloser(c)), Booked(account, s, AdvanceCloser(c)))
  {
    var s' := Apply(s, AdvanceCloser(c));
    assert CloserOk(s, c) && !s'.closers[c].CloseCancel?;
    if d :| 0 <= d < |s.closers| && !s.closers[d].CloseCancel? {
      assert !s'.closers[d].CloseCancel?;
    }
  }

  lemma CallKeepsBalances(s: State, a: Action, account: Account)
    requires Enabled(s, a) && !a.AdvanceReader? && !a.AdvanceCloser? && Balances(s, account)
    ensures Balances(Apply(s, a), Booked(account, s, a))
  {
    var s' := Apply(s, a);
    if d :| 0 <= d < |s.closers| && !s.closers[d].CloseCancel? {
      assert !s'.closers[d].CloseCancel?;
    }
  }

  lemma {:induction false} RunKeepsBalances(actions: seq<Action>)
    requires Run(START, actions).Some?
    ensures Balances(Run(START, actions).value, AccountOf(actions))
    decreases |actions|
  {
    if actions != [] {
      var before, last := actions[..|actions| - 1], actions[|actions| - 1];
      RunKeepsBalances(before);
      RunKeepsInv(START, before);
      StepKeepsBalances(Run(START, before).value, last, AccountOf(before));
    }
  }

  lemma StepKeepsBalances(s: State, a: Action, account: Account)
    requires Inv(s) && Enabled(s, a) && Balances(s, account)
    ensures Balances(Apply(s, a), Booked(account, s, a))
  {
    hide Balances, Booked, Apply, Inv;
    match a
    case AdvanceReader(outcome) => ReaderKeepsBalances(s, outcome, account);
    case AdvanceCloser(c) => CloserKeepsBalances(s, c, account);
    case _ => CallKeepsBalances(s, a, account);
  }

  /** Over any run: every item that came out of a pipe was returned once, as a packet, taken as a header or found
      malformed, or is still buffered, or was buffered when its run failed at its header. Every read returned once or
      is running, every Close call has its thread, and the capture is cancelled exactly if its context ended or a
      Close call got to cancel it. A read can be called whenever none is running and the first run got to its
      header. */
  lemma AccountsBalance(actions: seq<Action>)
    requires Run(START, actions).Some?
    ensures var s, account := Run(START, actions).value, AccountOf(actions);
            && account.arrived ==
                 account.packets + account.headers + account.malformed + account.lost + Buffered(s)
            && account.called + 1 == account.ended + (if IsReading(s.reader) then 1 else 0)
            && |s.closers| == account.closes
            && (s.cancelled <==> account.contextEnded || exists c | 0 <= c < |s.closers| :: !s.closers[c].CloseCancel?)
            && (s.current.Some? <==> account.headers > 0)
            && Enabled(s, CallClose) && Enabled(s, EndContext)
            && (Enabled(s, CallRead) <==> !IsReading(s.reader) && account.headers > 0)
  {
    RunKeepsBalances(actions);
    hide Run, AccountOf;
  }

  function CloserSteps(closer: Closer): nat {
    match closer
    case CloseCancel => 3
    case CloseWantLock => 2
    case CloseLocked => 1
    case CloseDone => 0
  }

  /** Every step of a Close call brings it closer to its return, and one that cannot take a step waits for the lock,
      whose holder releases it in its next step. */
  lemma ClosesGetToTheirEnd(actions: seq<Action>, c: nat, outcome: Outcome)
    requires Run(START, actions).Some? && c < |Run(START, actions).value.closers|
    requires !Run(START, actions).value.closers[c].CloseDone?
    ensures var s := Run(START, actions).value;
            if Enabled(s, AdvanceCloser(c)) then
              var s' := Apply(s, AdvanceCloser(c));
              && |s'.closers| == |s.closers|
              && CloserSteps(s'.closers[c]) < CloserSteps(s.closers[c])
              && (s'.closers[c].CloseDone? && s.stdout.Some? ==> s.stdout.value in s'.closed)
            else if s.lock.HeldByReader? then
              && Enabled(s, AdvanceReader(outcome)) && Apply(s, AdvanceReader(outcome)).lock.Free?
            else
              && s.lock.HeldByCloser? && Enabled(s, AdvanceCloser(s.lock.closer))
              && Apply(s, AdvanceCloser(s.lock.closer)).lock.Free?
  {
    RunKeepsInv(START, actions);
    var s := Run(START, actions).value;
    if s.lock.HeldByCloser? {
      assert CloserOk(s, s.lock.closer);
    }
  }
}
