/** What the sessions of the shared captures get: who watches what, and who reads it for them.

    What became of an opening is read off the run, from the provider's answer and from whether the stream had been
    shut down when its opener looked. In every interleaving this alone says what the sessions of the stream get. */
module CaptureOutcomes {
  import opened Wrappers
  import opened CaptureProtocol

  datatype Opening = Unanswered | Refused | Granted | TooLate

  /** What thread t learns about the opening it performs when it takes its next step, which ends with ok. */
  function Learn(h: Opening, s: State, t: nat, ok: bool, pick: nat): Opening
    requires CanAdvance(s, t, ok, pick)
  {
    match s.threads[t].pc
    case OpenCalling => if ok then Granted else Refused
    case OpenCheck => if s.streams[s.threads[t].stream].done then TooLate else h
    case _ => h
  }

  /** What thread t knows about its opening in states[k]. */
  function Learned(states: seq<State>, actions: seq<Action>, t: nat, k: nat): Opening
    requires |states| == |actions| + 1 && k < |states|
  {
    if k == 0 then Unanswered
    else
      var h := Learned(states, actions, t, k - 1);
      match actions[k - 1]
      case Advance(u, ok, pick) =>
        if u == t && CanAdvance(states[k - 1], t, ok, pick) then Learn(h, states[k - 1], t, ok, pick) else h
      case _ => h
  }

  // ---------------------------------------------------------------------------------------------
  // Openings
  // ---------------------------------------------------------------------------------------------

  /** How far the opening of a stream has got, at each program counter of its opener. */
  predicate OpeningFits(pc: Pc, st: Stream, h: Opening) {
    if pc.OpenCalling? then h.Unanswered? && !st.openErr && st.source.None?
    else if pc.OpenWantStream? || pc.OpenCheck? || pc.OpenSet? then h.Granted? && !st.openErr && st.source.None?
    else if pc.OpenDiscard? then h.TooLate? && !st.openErr && st.source.None?
    else if pc.OpenStart? then h.Granted? && !st.openErr && st.source.Some?
    else !h.Unanswered? && (st.openErr <==> !h.Granted?) && (st.source.Some? <==> h.Granted?)
  }

  ghost predicate StreamFits(states: seq<State>, actions: seq<Action>, k: nat, n: nat)
    requires |states| == |actions| + 1 && k < |states| && n < |states[k].streams|
  {
    var s := states[k];
    var o := s.streams[n].opener;
    o < |s.threads| && OpeningFits(s.threads[o].pc, s.streams[n], Learned(states, actions, o, k))
  }

  lemma ErrorChanges(s: State, t: nat, ok: bool, pick: nat, n: nat)
    requires CanAdvance(s, t, ok, pick) && n < |s.streams|
    ensures var s' := AdvanceThread(s, t, ok, pick); var me := s.threads[t];
            && n < |s'.streams|
            && s'.streams[n].openErr ==
                 (s.streams[n].openErr
                  || (me.stream == n && ((me.pc.OpenCalling? && !ok) || me.pc.OpenDiscard?)))
  {
    hide NextPc;
  }

  /** The opener's own steps. */
  lemma OpenerKeepsFits(s: State, t: nat, ok: bool, pick: nat, h: Opening)
    requires CanAdvance(s, t, ok, pick) && ThreadOk(s, t) && s.threads[t].kind.Opener?
    requires OpenerOk(s, s.threads[t].stream)
    requires OpeningFits(s.threads[t].pc, s.streams[s.threads[t].stream], h)
    ensures var s' := AdvanceThread(s, t, ok, pick); var n := s.threads[t].stream;
            n < |s'.streams| && OpeningFits(s'.threads[t].pc, s'.streams[n], Learn(h, s, t, ok, pick))
  {
    OpeningPcs(s, t, ok, pick);
    StreamChanges(s, t, ok, pick, s.threads[t].stream);
    ErrorChanges(s, t, ok, pick, s.threads[t].stream);
    hide NextPc, NextStreams, NextRegistry, NextSources, Spawned;
  }

  /** The steps of all other threads. */
  lemma OthersKeepOpening(s: State, t: nat, ok: bool, pick: nat, n: nat)
    requires CanAdvance(s, t, ok, pick) && ThreadOk(s, t)
    requires n < |s.streams| && s.streams[n].opener != t
    ensures var s' := AdvanceThread(s, t, ok, pick);
            && n < |s'.streams| && s'.streams[n].opener == s.streams[n].opener
            && s'.streams[n].openErr == s.streams[n].openErr && s'.streams[n].source == s.streams[n].source
  {
    StreamChanges(s, t, ok, pick, n);
    ErrorChanges(s, t, ok, pick, n);
    hide NextPc, NextStreams, NextRegistry, NextSources, Spawned;
  }

  lemma ThreadsGrow(s: State, a: Action)
    requires Enabled(s, a)
    ensures |s.threads| <= |Apply(s, a).threads| && |s.streams| <= |Apply(s, a).streams|
  {
    hide NextPc, NextStream, NextRegistry, NextSources, NextThread;
  }

  lemma {:induction false} UnansweredBefore(states: seq<State>, actions: seq<Action>, t: nat, k: nat)
    requires Trace(states, actions) && k < |states| && |states[k].threads| <= t
    ensures Learned(states, actions, t, k) == Unanswered
  {
    hide Apply, Learn;
    if k > 0 {
      ThreadsGrow(states[k - 1], actions[k - 1]);
      UnansweredBefore(states, actions, t, k - 1);
    }
  }

  /** A new stream is opened by a new thread. */
  lemma NewStreamFits(s: State, t: nat, ok: bool, pick: nat, n: nat)
    requires CanAdvance(s, t, ok, pick) && |s.streams| <= n < |AdvanceThread(s, t, ok, pick).streams|
    ensures var s' := AdvanceThread(s, t, ok, pick);
            && s'.streams[n].opener == |s.threads| < |s'.threads|
            && OpeningFits(s'.threads[|s.threads|].pc, s'.streams[n], Unanswered)
  {
    hide NextPc, NextStream, NextRegistry, NextSources, NextThread;
  }

  lemma InvOf(states: seq<State>, actions: seq<Action>, k: nat, t: nat, n: nat)
    requires Trace(states, actions) && k < |states|
    ensures RegistryOk(states[k])
    ensures t < |states[k].threads| ==> ThreadInv(states[k], t)
    ensures n < |states[k].streams| ==> StreamInv(states[k], n)
  {
    hide ThreadInv, StreamInv, RegistryOk, SourceOk;
    TraceKeepsInv(states, actions, k);
  }

  lemma AdvanceKeepsStreamFits(states: seq<State>, actions: seq<Action>, k: nat, n: nat)
    requires Trace(states, actions) && k < |actions| && actions[k].Advance? && n < |states[k + 1].streams|
    requires n < |states[k].streams| ==> StreamFits(states, actions, k, n)
    ensures StreamFits(states, actions, k + 1, n)
  {
    hide NextPc, NextStreams, NextRegistry, NextSources, NextThread, Spawned, Learn;
    var s, t, ok, pick := states[k], actions[k].thread, actions[k].ok, actions[k].pick;
    ThreadsGrow(s, actions[k]);
    InvOf(states, actions, k, t, n);
    if n >= |s.streams| {
      NewStreamFits(s, t, ok, pick, n);
      UnansweredBefore(states, actions, |s.threads|, k);
    } else if s.streams[n].opener == t {
      OpenerKeepsFits(s, t, ok, pick, Learned(states, actions, t, k));
      StreamChanges(s, t, ok, pick, n);
    } else {
      OthersKeepOpening(s, t, ok, pick, n);
    }
  }

  lemma {:induction false} TraceStreamFits(states: seq<State>, actions: seq<Action>, k: nat, n: nat)
    requires Trace(states, actions) && k < |states| && n < |states[k].streams|
    ensures StreamFits(states, actions, k, n)
  {
    hide AdvanceThread, CanAdvance;
    if k > 0 {
      if n < |states[k - 1].streams| {
        TraceStreamFits(states, actions, k - 1, n);
      }
      if actions[k - 1].Advance? {
        AdvanceKeepsStreamFits(states, actions, k - 1, n);
      }
    }
  }

  // ---------------------------------------------------------------------------------------------
  // Sessions
  // ---------------------------------------------------------------------------------------------

  /** A session stands in a stream of its own key, and what it watches is open and has a source. */
  ghost predicate SessionFits(s: State, t: nat)
    requires t < |s.threads|
  {
    var me := s.threads[t];
    me.kind.Session? && UsesStream(me.pc) ==>
      && me.stream < |s.streams| && s.streams[me.stream].key == me.key
      && (me.pc.Watching? ==> s.streams[me.stream].isOpened && s.streams[me.stream].source.Some?)
  }

  /** The steps from which a session enters a stream, or goes on to watch it. */
  lemma SessionPcs(s: State, t: nat, ok: bool, pick: nat)
    requires CanAdvance(s, t, ok, pick) && s.threads[t].kind.Session? && KindOk(Session, s.threads[t].pc)
    ensures UsesStream(NextPc(s, t, ok)) ==>
              UsesStream(s.threads[t].pc) || (s.threads[t].pc.SubInRegistry? && !s.closed)
    ensures NextPc(s, t, ok).Watching? ==>
              s.threads[t].pc.SubWaitOpen? && ok && !s.streams[s.threads[t].stream].openErr
    ensures s.threads[t].pc.SubWaitOpen? && ok && !s.streams[s.threads[t].stream].openErr ==> NextPc(s, t, ok).Watching?
    ensures s.threads[t].pc.SubWaitOpen? && !NextPc(s, t, ok).Watching? ==> NextPc(s, t, ok).UnsubWantRegistry?
  {
  }

  /** An opened stream keeps its source, and an error of its opening means that there is none. */
  ghost predicate OpenedFits(st: Stream) {
    st.isOpened ==> (st.openErr <==> st.source.None?)
  }

  lemma OwnStepKeepsSessionFits(s: State, t: nat, ok: bool, pick: nat)
    requires CanAdvance(s, t, ok, pick) && ThreadOk(s, t) && RegistryOk(s) && SessionFits(s, t)
    requires UsesStream(s.threads[t].pc) ==> OpenedFits(s.streams[s.threads[t].stream])
    ensures SessionFits(AdvanceThread(s, t, ok, pick), t)
  {
    if s.threads[t].kind.Session? {
      SessionPcs(s, t, ok, pick);
      if UsesStream(s.threads[t].pc) {
        StreamChanges(s, t, ok, pick, s.threads[t].stream);
      } else if s.threads[t].pc.SubInRegistry? && s.threads[t].key in s.registry {
        StreamChanges(s, t, ok, pick, s.registry[s.threads[t].key]);
      }
      hide NextPc, NextStream, NextRegistry, NextSources;
    }
  }

  lemma OtherStepKeepsSessionFits(s: State, t: nat, ok: bool, pick: nat, u: nat)
    requires CanAdvance(s, t, ok, pick) && ThreadOk(s, t)
    requires u < |s.threads| && u != t && SessionFits(s, u)
    requires s.threads[u].stream < |s.streams| ==> OpenedOk(s, s.threads[u].stream)
    ensures SessionFits(AdvanceThread(s, t, ok, pick), u)
  {
    hide NextPc, NextStreams, NextRegistry, NextSources, NextThread, Spawned;
    if s.threads[u].stream < |s.streams| {
      StreamChanges(s, t, ok, pick, s.threads[u].stream);
    }
  }

  lemma NewThreadFits(s: State, a: Action, u: nat)
    requires Enabled(s, a) && |s.threads| <= u < |Apply(s, a).threads|
    ensures SessionFits(Apply(s, a), u)
  {
    hide NextPc, NextStreams, NextRegistry, NextSources, NextThread;
  }

  lemma OpeningIsOver(states: seq<State>, actions: seq<Action>, k: nat, n: nat)
    requires Trace(states, actions) && k < |states| && n < |states[k].streams|
    ensures OpenedFits(states[k].streams[n])
  {
    hide Learned;
    TraceStreamFits(states, actions, k, n);
    InvOf(states, actions, k, 0, n);
  }

  lemma {:induction false} TraceSessionFits(states: seq<State>, actions: seq<Action>, k: nat, t: nat)
    requires Trace(states, actions) && k < |states| && t < |states[k].threads|
    ensures SessionFits(states[k], t)
  {
    hide NextPc, NextStreams, NextRegistry, NextSources, NextThread, Spawned, SessionFits, OpenedFits, RegistryOk;
    hide MembershipOk, PendingOk, ShutdownOk;
    if k > 0 {
      var s, a := states[k - 1], actions[k - 1];
      if t >= |s.threads| {
        NewThreadFits(s, a, t);
      } else {
        TraceSessionFits(states, actions, k - 1, t);
        StepKeepsSessionFits(states, actions, k - 1, t);
      }
    }
  }

  lemma CallKeepsSessionFits(s: State, a: Action, t: nat)
    requires !a.Advance? && t < |s.threads| && SessionFits(s, t)
    ensures t < |Apply(s, a).threads| && SessionFits(Apply(s, a), t)
  {
  }

  lemma StepKeepsSessionFits(states: seq<State>, actions: seq<Action>, k: nat, t: nat)
    requires Trace(states, actions) && k < |actions| && t < |states[k].threads| && SessionFits(states[k], t)
    ensures t < |states[k + 1].threads| && SessionFits(states[k + 1], t)
  {
    hide NextPc, NextStreams, NextRegistry, NextSources, NextThread, Spawned, SessionFits, OpenedFits, RegistryOk;
    hide MembershipOk, PendingOk, ShutdownOk;
    var s, a := states[k], actions[k];
    if !a.Advance? {
      CallKeepsSessionFits(s, a, t);
    } else {
      InvOf(states, actions, k, a.thread, s.threads[t].stream);
      if a.thread != t {
        OtherStepKeepsSessionFits(s, a.thread, a.ok, a.pick, t);
      } else {
        if UsesStream(s.threads[t].pc) {
          OpeningIsOver(states, actions, k, s.threads[t].stream);
        }
        OwnStepKeepsSessionFits(s, t, a.ok, a.pick);
      }
    }
  }

  // ---------------------------------------------------------------------------------------------
  // Readers
  // ---------------------------------------------------------------------------------------------

  predicate Reads(s: State, p: nat, n: nat) {
    p < |s.threads| && s.threads[p].kind.Processor? && s.threads[p].stream == n
  }

  /** A reader was started by the opener of its stream, and is done with it only once the stream is unregistered. */
  ghost predicate ReaderFits(s: State, p: nat)
    requires p < |s.threads|
  {
    var me := s.threads[p];
    me.kind.Processor? ==>
      && me.stream < |s.streams| && s.streams[me.stream].source.Some?
      && s.streams[me.stream].opener < |s.threads|
      && (s.threads[s.streams[me.stream].opener].pc.OpenSignal? || s.threads[s.streams[me.stream].opener].pc.Gone?)
      && (me.pc.Gone? ==> !Registered(s, me.stream))
  }

  ghost predicate HasReader(s: State, n: nat) {
    exists p :: Reads(s, p, n)
  }

  /** A stream with a source has a reader from the moment its opener started it, and never two. */
  ghost predicate ReadFits(s: State, n: nat)
    requires n < |s.streams| && s.streams[n].opener < |s.threads|
  {
    && (s.streams[n].source.Some? && !s.threads[s.streams[n].opener].pc.OpenStart? ==> HasReader(s, n))
    && (forall p: nat, q: nat | Reads(s, p, n) && Reads(s, q, n) :: p == q)
  }

  ghost predicate ReadersFit(s: State) {
    && (forall p | 0 <= p < |s.threads| :: ReaderFits(s, p))
    && (forall n | 0 <= n < |s.streams| :: s.streams[n].opener < |s.threads| && ReadFits(s, n))
  }

  lemma ReaderPcs(s: State, p: nat, ok: bool, pick: nat)
    requires CanAdvance(s, p, ok, pick) && s.threads[p].kind.Processor? && KindOk(Processor, s.threads[p].pc)
    ensures NextPc(s, p, ok).Gone? ==> s.threads[p].pc.ShutOnce? || s.threads[p].pc.ShutFinish?
    ensures s.threads[p].pc.Reading? ==> NextPc(s, p, ok).Reading? || NextPc(s, p, ok).EndWantRegistry?
    ensures NextThread(s, p, ok, pick).stream == s.threads[p].stream
    ensures Spawned(s, p) == [] && !StartsStream(s, s.threads[p])
  {
  }

  lemma OwnStepKeepsReaderFits(s: State, p: nat, ok: bool, pick: nat)
    requires CanAdvance(s, p, ok, pick) && ThreadOk(s, p) && MembershipOk(s, p) && ReaderFits(s, p)
    requires s.threads[p].stream < |s.streams| ==> OpenedOk(s, s.threads[p].stream)
    ensures ReaderFits(AdvanceThread(s, p, ok, pick), p)
  {
    if s.threads[p].kind.Processor? {
      ReaderPcs(s, p, ok, pick);
      StreamChanges(s, p, ok, pick, s.threads[p].stream);
      RegisteredShrinks(s, p, ok, pick, s.threads[p].stream);
      hide NextPc, NextStreams, NextRegistry, NextSources, NextThread, Spawned, Registered;
    }
  }

  lemma OtherStepKeepsReaderFits(s: State, t: nat, ok: bool, pick: nat, p: nat)
    requires CanAdvance(s, t, ok, pick) && ThreadOk(s, t) && p < |s.threads| && p != t && ReaderFits(s, p)
    requires s.threads[p].stream < |s.streams| ==> OpenedOk(s, s.threads[p].stream)
    ensures ReaderFits(AdvanceThread(s, t, ok, pick), p)
  {
    if s.threads[p].kind.Processor? {
      var n := s.threads[p].stream;
      StreamChanges(s, t, ok, pick, n);
      RegisteredShrinks(s, t, ok, pick, n);
      if s.streams[n].opener == t {
        OpeningPcs(s, t, ok, pick);
      }
      hide NextPc, NextStreams, NextRegistry, NextSources, NextThread, Spawned, Registered;
    }
  }

  lemma NewReaderFits(s: State, t: nat, ok: bool, pick: nat, p: nat)
    requires CanAdvance(s, t, ok, pick) && ThreadOk(s, t) && |s.threads| <= p < |AdvanceThread(s, t, ok, pick).threads|
    requires UsesStream(s.threads[t].pc) ==> OpenedOk(s, s.threads[t].stream) && OpenerOk(s, s.threads[t].stream)
    ensures ReaderFits(AdvanceThread(s, t, ok, pick), p)
  {
    if s.threads[t].pc.OpenStart? {
      StreamChanges(s, t, ok, pick, s.threads[t].stream);
    }
    hide NextStreams, NextRegistry, NextSources;
  }

  /** Threads keep their kind, and readers their stream. The new reader is that of the stream it was started for. */
  lemma ReadsChanges(s: State, t: nat, ok: bool, pick: nat, p: nat, n: nat)
    requires CanAdvance(s, t, ok, pick) && ThreadOk(s, t)
    ensures var me := s.threads[t];
            Reads(AdvanceThread(s, t, ok, pick), p, n) <==>
              Reads(s, p, n) || (me.pc.OpenStart? && me.stream == n && p == |s.threads|)
  {
    hide NextPc, NextStreams, NextRegistry, NextSources;
  }

  lemma StepKeepsReadFits(s: State, t: nat, ok: bool, pick: nat, n: nat)
    requires CanAdvance(s, t, ok, pick) && ThreadOk(s, t)
    requires forall p | 0 <= p < |s.threads| :: ReaderFits(s, p)
    requires n < |s.streams| && OpenedOk(s, n) && OpenerOk(s, n) && ReadFits(s, n)
    ensures s.streams[n].opener < |AdvanceThread(s, t, ok, pick).threads|
    ensures n < |AdvanceThread(s, t, ok, pick).streams|
    ensures AdvanceThread(s, t, ok, pick).streams[n].opener == s.streams[n].opener
    ensures ReadFits(AdvanceThread(s, t, ok, pick), n)
  {
    StreamChanges(s, t, ok, pick, n);
    if s.streams[n].opener == t && s.threads[t].pc != Gone {
      OpeningPcs(s, t, ok, pick);
    }
    hide NextPc, NextStreams, NextRegistry, NextSources, NextThread, Spawned;
    var s' := AdvanceThread(s, t, ok, pick);
    forall p: nat, q: nat | Reads(s', p, n) && Reads(s', q, n) ensures p == q {
      ReadsChanges(s, t, ok, pick, p, n);
      ReadsChanges(s, t, ok, pick, q, n);
      assert Reads(s, p, n) ==> ReaderFits(s, p);
      assert Reads(s, q, n) ==> ReaderFits(s, q);
    }
    if s'.streams[n].source.Some? && !s'.threads[s'.streams[n].opener].pc.OpenStart? {
      if s.streams[n].opener == t && s.threads[t].pc.OpenStart? {
        ReadsChanges(s, t, ok, pick, |s.threads|, n);
      } else {
        var p: nat :| Reads(s, p, n);
        ReadsChanges(s, t, ok, pick, p, n);
      }
    }
  }

  lemma NewStreamReadFits(s: State, t: nat, ok: bool, pick: nat, n: nat)
    requires CanAdvance(s, t, ok, pick) && ThreadOk(s, t) && ReadersFit(s)
    requires |s.streams| <= n < |AdvanceThread(s, t, ok, pick).streams|
    ensures AdvanceThread(s, t, ok, pick).streams[n].opener < |AdvanceThread(s, t, ok, pick).threads|
    ensures ReadFits(AdvanceThread(s, t, ok, pick), n)
  {
    NewStreamFits(s, t, ok, pick, n);
    var s' := AdvanceThread(s, t, ok, pick);
    forall p: nat ensures !Reads(s', p, n) {
      ReadsChanges(s, t, ok, pick, p, n);
      assert p < |s.threads| ==> ReaderFits(s, p);
    }
  }

  lemma AdvanceKeepsReadersFit(s: State, t: nat, ok: bool, pick: nat)
    requires Inv(s) && CanAdvance(s, t, ok, pick) && ReadersFit(s)
    ensures ReadersFit(AdvanceThread(s, t, ok, pick))
  {
    hide NextPc, NextStreams, NextRegistry, NextSources, NextThread, Spawned, ReaderFits, ReadFits;
    hide MembershipOk, PendingOk, ShutdownOk, ClaimOk, HandoverOk, ReceiversOk, LiveOk, SourceOk, RegistryOk;
    var s' := AdvanceThread(s, t, ok, pick);
    assert ThreadInv(s, t);
    forall p | 0 <= p < |s'.threads| ensures ReaderFits(s', p) {
      if p < |s.threads| {
        assert ReaderFits(s, p) && (s.threads[p].stream < |s.streams| ==> StreamInv(s, s.threads[p].stream));
        if p == t {
          OwnStepKeepsReaderFits(s, t, ok, pick);
        } else {
          OtherStepKeepsReaderFits(s, t, ok, pick, p);
        }
      } else {
        assert UsesStream(s.threads[t].pc) ==> StreamInv(s, s.threads[t].stream);
        NewReaderFits(s, t, ok, pick, p);
      }
    }
    forall n | 0 <= n < |s'.streams| ensures s'.streams[n].opener < |s'.threads| && ReadFits(s', n) {
      if n < |s.streams| {
        assert StreamInv(s, n) && ReadFits(s, n);
        StepKeepsReadFits(s, t, ok, pick, n);
      } else {
        NewStreamReadFits(s, t, ok, pick, n);
      }
    }
  }

  lemma CallKeepsReadersFit(s: State, a: Action)
    requires !a.Advance? && ReadersFit(s)
    ensures ReadersFit(Apply(s, a))
  {
    var s' := Apply(s, a);
    forall p | 0 <= p < |s'.threads| ensures ReaderFits(s', p) {
      assert p < |s.threads| ==> ReaderFits(s, p);
    }
    forall n | 0 <= n < |s'.streams| ensures s'.streams[n].opener < |s'.threads| && ReadFits(s', n) {
      assert ReadFits(s, n);
      if HasReader(s, n) {
        var p: nat :| Reads(s, p, n);
        assert Reads(s', p, n);
      }
      forall p: nat, q: nat | Reads(s', p, n) && Reads(s', q, n) ensures p == q {
        assert Reads(s, p, n) && Reads(s, q, n);
      }
    }
  }

  lemma {:induction false} TraceReadersFit(states: seq<State>, actions: seq<Action>, k: nat)
    requires Trace(states, actions) && k < |states|
    ensures ReadersFit(states[k])
  {
    hide AdvanceThread, CanAdvance, Inv, ReaderFits, ReadFits;
    if k > 0 {
      TraceReadersFit(states, actions, k - 1);
      TraceKeepsInv(states, actions, k - 1);
      match actions[k - 1]
      case Advance(t, ok, pick) => AdvanceKeepsReadersFit(states[k - 1], t, ok, pick);
      case _ => CallKeepsReadersFit(states[k - 1], actions[k - 1]);
    }
  }

  // ---------------------------------------------------------------------------------------------
  // Calls
  // ---------------------------------------------------------------------------------------------

  /** A call runs as what it was called as. */
  lemma {:induction false} CallsRunAsCalled(states: seq<State>, actions: seq<Action>, j: nat, k: nat)
    requires Trace(states, actions) && j < k < |states| && !actions[j].Advance?
    ensures var t := |states[j].threads|;
            && t < |states[k].threads|
            && states[k].threads[t].kind == (if actions[j].CallClose? then Closer else Session)
            && (actions[j].CallCapture? ==> states[k].threads[t].key == actions[j].key)
  {
    if j + 1 < k {
      CallsRunAsCalled(states, actions, j, k - 1);
      StepKeepsCall(states[k - 1], actions[k - 1], |states[j].threads|);
    }
  }

  lemma StepKeepsCall(s: State, a: Action, t: nat)
    requires Enabled(s, a) && t < |s.threads|
    ensures var s' := Apply(s, a);
            t < |s'.threads| && s'.threads[t].kind == s.threads[t].kind && s'.threads[t].key == s.threads[t].key
  {
    hide NextPc, NextStreams, NextRegistry, NextSources, Spawned;
  }

  /** A session is turned away exactly if the service is closed, and otherwise goes to the registered stream of its
      interface. If there is none, it registers a new one, which a new thread opens. */
  lemma SessionsShareTheRegisteredStream(states: seq<State>, actions: seq<Action>, k: nat)
    requires Trace(states, actions) && k < |actions| && actions[k].Advance?
    requires states[k].threads[actions[k].thread].pc.SubInRegistry?
    ensures var s, s', t := states[k], states[k + 1], actions[k].thread;
            && t < |s'.threads|
            && var me, n := s.threads[t], s'.threads[t].stream;
               if s.closed then s'.threads[t].pc.Gone? && s'.streams == s.streams && s'.registry == s.registry
               else
                 && s'.threads[t].pc.SubWantStream? && n < |s'.streams|
                 && s'.streams[n].key == me.key && Registered(s', n) && !s'.streams[n].done
                 && (me.key in s.registry ==> n == s.registry[me.key] && s'.streams == s.streams)
                 && (me.key !in s.registry ==>
                       && n == |s.streams| && s'.streams[..n] == s.streams && |s'.streams| == n + 1
                       && s'.streams[n].receivers == {} && !s'.streams[n].isOpened && s'.streams[n].source.None?
                       && s'.streams[n].opener == |s.threads| < |s'.threads|
                       && s'.threads[|s.threads|].pc.OpenCalling? && s'.threads[|s.threads|].stream == n)
  {
    var s, t := states[k], actions[k].thread;
    InvOf(states, actions, k, t, 0);
    if s.threads[t].key in s.registry {
      InvOf(states, actions, k, t, s.registry[s.threads[t].key]);
    }
    hide NextSources, ThreadInv;
  }

  // ---------------------------------------------------------------------------------------------
  // What the sessions get
  // ---------------------------------------------------------------------------------------------

  /** In every reachable state, a stream has a source exactly if the provider opened the capture and the stream was
      not shut down when its opener looked, and once it is opened, it has an error exactly if it has no source. */
  lemma OpeningsEndAsAnswered(states: seq<State>, actions: seq<Action>, k: nat, n: nat)
    requires Trace(states, actions) && k < |states| && n < |states[k].streams| && states[k].streams[n].isOpened
    ensures var st := states[k].streams[n]; var h := Learned(states, actions, st.opener, k);
            && !h.Unanswered?
            && (st.source.Some? <==> h.Granted?)
            && (st.openErr <==> st.source.None?)
  {
    hide Learned;
    TraceStreamFits(states, actions, k, n);
    InvOf(states, actions, k, 0, n);
  }

  /** Whoever waits for the opening only stops waiting once it is over or because the session ends, and goes on to
      watch exactly if it is over and the stream has a source. Otherwise it leaves the stream. */
  lemma WaitersGetWhatWasOpened(states: seq<State>, actions: seq<Action>, k: nat)
    requires Trace(states, actions) && k < |actions| && actions[k].Advance?
    requires states[k].threads[actions[k].thread].pc.SubWaitOpen?
    ensures var t := actions[k].thread;
            && t < |states[k + 1].threads|
            && var me, next := states[k].threads[t], states[k + 1].threads[t];
               && me.stream < |states[k].streams| && next.stream == me.stream
               && (actions[k].ok ==> states[k].streams[me.stream].isOpened)
               && (next.pc.Watching? <==> actions[k].ok && states[k].streams[me.stream].source.Some?)
               && (!next.pc.Watching? ==> next.pc.UnsubWantRegistry?)
  {
    hide NextStreams, NextRegistry, NextSources, Spawned, MembershipOk, PendingOk, ShutdownOk, RegistryOk;
    var t := actions[k].thread;
    InvOf(states, actions, k, t, 0);
    assert states[k].threads[t].kind.Session?;
    SessionPcs(states[k], t, actions[k].ok, actions[k].pick);
    OpeningIsOver(states, actions, k, states[k].threads[t].stream);
    hide NextPc;
  }

  /** Who watches, watches an opened stream of the interface it asked for that has a source, and is one of its
      receivers. The stream has exactly one reader, which reads as long as the stream is registered, or is about to
      unregister it because the capture ended. */
  lemma WatchedStreamsAreRead(states: seq<State>, actions: seq<Action>, k: nat, t: nat)
    requires Trace(states, actions) && k < |states| && t < |states[k].threads| && states[k].threads[t].pc.Watching?
    ensures var s := states[k]; var me := s.threads[t];
            && me.stream < |s.streams|
            && s.streams[me.stream].key == me.key
            && s.streams[me.stream].isOpened && s.streams[me.stream].source.Some? && !s.streams[me.stream].openErr
            && t in s.streams[me.stream].receivers
            && (exists p: nat ::
                  && Reads(s, p, me.stream)
                  && (Registered(s, me.stream) ==> s.threads[p].pc.Reading? || InCaptureEnded(s.threads[p].pc)))
            && (forall p: nat, q: nat | Reads(s, p, me.stream) && Reads(s, q, me.stream) :: p == q)
  {
    var s, n := states[k], states[k].threads[t].stream;
    WatcherFits(states, actions, k, t);
    TraceReadersFit(states, actions, k);
    InvOf(states, actions, k, t, n);
    assert ReadFits(s, n);
    var p: nat :| Reads(s, p, n);
    assert ReaderFits(s, p);
    InvOf(states, actions, k, p, n);
  }

  lemma WatcherFits(states: seq<State>, actions: seq<Action>, k: nat, t: nat)
    requires Trace(states, actions) && k < |states| && t < |states[k].threads| && states[k].threads[t].pc.Watching?
    ensures var s := states[k]; var me := s.threads[t];
            && me.kind.Session? && me.stream < |s.streams|
            && s.streams[me.stream].key == me.key
            && s.streams[me.stream].isOpened && s.streams[me.stream].source.Some? && !s.streams[me.stream].openErr
  {
    InvOf(states, actions, k, t, 0);
    TraceSessionFits(states, actions, k, t);
    OpeningIsOver(states, actions, k, states[k].threads[t].stream);
  }

  /** When nothing is left to do, every live stream has a source, one reader that reads it, and only receivers that
      watch it, all of which asked for its interface. */
  lemma LiveStreamsAreRead(states: seq<State>, actions: seq<Action>, k: nat, n: nat)
    requires Trace(states, actions) && k < |states| && n < |states[k].streams| && !states[k].streams[n].done
    requires forall t | 0 <= t < |states[k].threads| :: IsIdle(states[k], t)
    ensures var s := states[k];
            && s.streams[n].isOpened && s.streams[n].source.Some? && s.streams[n].receivers != {}
            && (exists p: nat :: Reads(s, p, n) && s.threads[p].pc.Reading?)
            && (forall t | t in s.streams[n].receivers ::
                  t < |s.threads| && s.threads[t].pc.Watching? && s.threads[t].key == s.streams[n].key)
  {
    hide Inv, Trace, SessionFits, ReadersFit;
    var s := states[k];
    QuiescentCapturesAreWatched(states, actions, k, n);
    var w :| 0 <= w < |s.threads| && s.threads[w].pc.Watching? && s.threads[w].stream == n;
    WatchedStreamsAreRead(states, actions, k, w);
    var p: nat :| Reads(s, p, n) && (Registered(s, n) ==> s.threads[p].pc.Reading? || InCaptureEnded(s.threads[p].pc));
    assert IsIdle(s, p);
    assert Reads(s, p, n) && s.threads[p].pc.Reading?;
    forall t | t in s.streams[n].receivers
      ensures t < |s.threads| && s.threads[t].pc.Watching? && s.threads[t].key == s.streams[n].key
    {
      ReceiverWatches(states, actions, k, n, t);
    }
  }

  lemma ReceiverWatches(states: seq<State>, actions: seq<Action>, k: nat, n: nat, t: nat)
    requires Trace(states, actions) && k < |states| && n < |states[k].streams| && t in states[k].streams[n].receivers
    requires forall u | 0 <= u < |states[k].threads| :: IsIdle(states[k], u)
    ensures t < |states[k].threads| && states[k].threads[t].pc.Watching?
    ensures states[k].threads[t].key == states[k].streams[n].key
  {
    InvOf(states, actions, k, t, n);
    assert IsIdle(states[k], t);
    WatcherFits(states, actions, k, t);
  }

  // ---------------------------------------------------------------------------------------------
  // Close
  // ---------------------------------------------------------------------------------------------

  /** The streams that thread t, a call of Close, has taken out of the registry up to states[k]. */
  function Taken(states: seq<State>, actions: seq<Action>, t: nat, k: nat): set<nat>
    requires |states| == |actions| + 1 && k < |states|
  {
    if k == 0 then {}
    else
      var taken := Taken(states, actions, t, k - 1);
      var s, a := states[k - 1], actions[k - 1];
      if a.Advance? && a.thread == t < |s.threads| && s.threads[t].pc.CloseTake?
      then taken + s.registry.Values
      else taken
  }

  /** Thread t has shut stream n down, or is on its way. */
  predicate IsEnding(s: State, t: nat, n: nat)
    requires t < |s.threads|
  {
    && n < |s.streams|
    && (|| n in s.threads[t].pending
        || (InShutdown(s.threads[t].pc) && s.threads[t].stream == n)
        || s.streams[n].once.Finished?)
  }

  /** A shutdown is only left once it is finished, be it by oneself or by another thread. */
  lemma OwnStepKeepsEnding(s: State, t: nat, ok: bool, pick: nat, n: nat)
    requires CanAdvance(s, t, ok, pick) && ThreadOk(s, t) && IsEnding(s, t, n)
    ensures IsEnding(AdvanceThread(s, t, ok, pick), t, n)
  {
    StreamChanges(s, t, ok, pick, n);
    if s.threads[t].pc.CloseTake? {
      assert s.threads[t].pending == {};
    }
  }

  lemma OtherStepKeepsEnding(s: State, t: nat, ok: bool, pick: nat, u: nat, n: nat)
    requires CanAdvance(s, t, ok, pick) && u < |s.threads| && u != t && IsEnding(s, u, n)
    ensures IsEnding(AdvanceThread(s, t, ok, pick), u, n)
  {
    StreamChanges(s, t, ok, pick, n);
    hide NextPc, NextStreams, NextRegistry, NextSources, NextThread, Spawned;
  }

  lemma TakingEnds(s: State, t: nat, ok: bool, pick: nat, n: nat)
    requires CanAdvance(s, t, ok, pick) && RegistryOk(s) && s.threads[t].pc.CloseTake? && n in s.registry.Values
    ensures IsEnding(AdvanceThread(s, t, ok, pick), t, n)
  {
    var key :| key in s.registry && s.registry[key] == n;
    StreamChanges(s, t, ok, pick, n);
    hide NextPc, NextStreams, NextRegistry, NextSources, Spawned;
  }

  lemma {:induction false} NothingTakenBefore(states: seq<State>, actions: seq<Action>, t: nat, k: nat)
    requires Trace(states, actions) && k < |states| && |states[k].threads| <= t
    ensures Taken(states, actions, t, k) == {}
  {
    hide Apply, CanAdvance;
    if k > 0 {
      ThreadsGrow(states[k - 1], actions[k - 1]);
      NothingTakenBefore(states, actions, t, k - 1);
    }
  }

  lemma {:induction false} TakenStreamsEnd(states: seq<State>, actions: seq<Action>, k: nat, t: nat, n: nat)
    requires Trace(states, actions) && k < |states| && t < |states[k].threads| && n in Taken(states, actions, t, k)
    ensures IsEnding(states[k], t, n)
  {
    hide AdvanceThread, IsEnding, ThreadInv, StreamInv, RegistryOk;
    var s, a := states[k - 1], actions[k - 1];
    InvOf(states, actions, k - 1, if a.Advance? then a.thread else 0, 0);
    if |s.threads| <= t {
      NothingTakenBefore(states, actions, t, k - 1);
    } else if n in Taken(states, actions, t, k - 1) {
      TakenStreamsEnd(states, actions, k - 1, t, n);
      StepKeepsEnding(s, a, t, n);
    } else {
      TakingEnds(s, t, a.ok, a.pick, n);
    }
  }

  lemma StepKeepsEnding(s: State, a: Action, t: nat, n: nat)
    requires Enabled(s, a) && t < |s.threads| && IsEnding(s, t, n)
    requires a.Advance? ==> ThreadInv(s, a.thread)
    ensures t < |Apply(s, a).threads| && IsEnding(Apply(s, a), t, n)
  {
    if a.Advance? {
      hide NextPc, NextStreams, NextRegistry, NextSources, NextThread, Spawned;
      if a.thread == t {
        OwnStepKeepsEnding(s, t, a.ok, a.pick, n);
      } else {
        OtherStepKeepsEnding(s, a.thread, a.ok, a.pick, t, n);
      }
    }
  }

  /** A call of Close that got past the registry has closed the service. */
  ghost predicate HasClosedService(s: State) {
    forall t | 0 <= t < |s.threads| && s.threads[t].kind.Closer? ::
      s.threads[t].pc.CloseWantRegistry? || s.threads[t].pc.CloseTake? || s.closed
  }

  lemma CloserPcs(s: State, t: nat, ok: bool, pick: nat)
    requires CanAdvance(s, t, ok, pick) && s.threads[t].kind.Closer? && KindOk(Closer, s.threads[t].pc)
    ensures s.threads[t].pc.CloseWantRegistry? ==> NextPc(s, t, ok).CloseTake?
    ensures Spawned(s, t) == []
  {
  }

  lemma StepKeepsClosedService(s: State, t: nat, ok: bool, pick: nat)
    requires CanAdvance(s, t, ok, pick) && ThreadOk(s, t) && HasClosedService(s)
    ensures HasClosedService(AdvanceThread(s, t, ok, pick))
  {
    if s.threads[t].kind.Closer? {
      CloserPcs(s, t, ok, pick);
    }
    hide NextPc, NextStreams, NextRegistry, NextSources;
  }

  lemma {:induction false} TraceHasClosedService(states: seq<State>, actions: seq<Action>, k: nat)
    requires Trace(states, actions) && k < |states|
    ensures HasClosedService(states[k])
  {
    if k > 0 {
      hide AdvanceThread, CanAdvance, ThreadInv, RegistryOk;
      TraceHasClosedService(states, actions, k - 1);
      if actions[k - 1].Advance? {
        InvOf(states, actions, k - 1, actions[k - 1].thread, 0);
        AdvancesKeepClosedService(states[k - 1], actions[k - 1]);
      }
    }
  }

  lemma AdvancesKeepClosedService(s: State, a: Action)
    requires a.Advance? && Enabled(s, a) && a.thread < |s.threads| && ThreadInv(s, a.thread) && HasClosedService(s)
    ensures HasClosedService(Apply(s, a))
  {
    hide AdvanceThread, MembershipOk, PendingOk, ShutdownOk;
    StepKeepsClosedService(s, a.thread, a.ok, a.pick);
  }

  /** The service is only closed by a call of Close. */
  ghost predicate HasCloser(s: State) {
    exists t | 0 <= t < |s.threads| :: s.threads[t].kind.Closer? && IsPastClosing(s.threads[t].pc)
  }

  predicate IsPastClosing(pc: Pc) {
    !pc.CloseWantRegistry? && !pc.CloseTake?
  }

  lemma StepKeepsCloser(s: State, t: nat, ok: bool, pick: nat)
    requires CanAdvance(s, t, ok, pick) && ThreadOk(s, t) && (s.closed ==> HasCloser(s))
    requires AdvanceThread(s, t, ok, pick).closed
    ensures HasCloser(AdvanceThread(s, t, ok, pick))
  {
    var s' := AdvanceThread(s, t, ok, pick);
    if s.closed {
      var c :| 0 <= c < |s.threads| && s.threads[c].kind.Closer? && IsPastClosing(s.threads[c].pc);
      assert s'.threads[c].kind.Closer? && IsPastClosing(s'.threads[c].pc);
    } else {
      assert s'.threads[t].kind.Closer? && IsPastClosing(s'.threads[t].pc);
    }
  }

  lemma {:induction false} TraceHasCloser(states: seq<State>, actions: seq<Action>, k: nat)
    requires Trace(states, actions) && k < |states| && states[k].closed
    ensures HasCloser(states[k])
  {
    if k > 0 {
      var s, a := states[k - 1], actions[k - 1];
      if s.closed {
        TraceHasCloser(states, actions, k - 1);
      }
      if a.Advance? {
        hide AdvanceThread, MembershipOk, PendingOk, ShutdownOk, RegistryOk;
        InvOf(states, actions, k - 1, a.thread, 0);
        StepKeepsCloser(s, a.thread, a.ok, a.pick);
      } else {
        var t :| 0 <= t < |s.threads| && s.threads[t].kind.Closer? && IsPastClosing(s.threads[t].pc);
        assert states[k].threads[t] == s.threads[t];
      }
    }
  }

  /** The service is closed exactly if some call of Close has got past the registry. */
  lemma ServicesAreClosedByClose(states: seq<State>, actions: seq<Action>, k: nat)
    requires Trace(states, actions) && k < |states|
    ensures states[k].closed <==>
              exists t | 0 <= t < |states[k].threads| ::
                && states[k].threads[t].kind.Closer?
                && !states[k].threads[t].pc.CloseWantRegistry? && !states[k].threads[t].pc.CloseTake?
  {
    hide Trace;
    TraceHasClosedService(states, actions, k);
    if states[k].closed {
      TraceHasCloser(states, actions, k);
      var t :| 0 <= t < |states[k].threads| && states[k].threads[t].kind.Closer?
               && IsPastClosing(states[k].threads[t].pc);
      assert states[k].threads[t].kind.Closer?;
    }
  }

  /** Once the service is closed it has no registered streams, no session joins one, and no stream is added. */
  lemma ClosedServicesTakeNobody(states: seq<State>, actions: seq<Action>, k: nat)
    requires Trace(states, actions) && k < |actions| && states[k].closed
    ensures states[k + 1].closed && states[k].registry == map[]
    ensures |states[k + 1].streams| == |states[k].streams|
    ensures forall t | 0 <= t < |states[k].threads| :: !IsJoining(states[k].threads[t].pc)
  {
    InvOf(states, actions, k, 0, 0);
    forall t | 0 <= t < |states[k].threads| ensures !IsJoining(states[k].threads[t].pc) {
      InvOf(states, actions, k, t, 0);
    }
    hide NextPc, NextStream, NextRegistry, NextSources, NextThread, Spawned, ThreadInv, StreamInv;
    if actions[k].Advance? {
      NobodyStartsAStream(states[k], actions[k].thread);
    }
  }

  lemma NobodyStartsAStream(s: State, t: nat)
    requires t < |s.threads| && s.closed
    ensures !StartsStream(s, s.threads[t])
  {
  }

  /** When Close returns, the service is closed, and every stream that was registered when it was closed is shut down,
      whoever ran the shutdown, and its source, if it has one, is closed. */
  lemma CloseWaitsForShutdowns(states: seq<State>, actions: seq<Action>, k: nat, t: nat, n: nat)
    requires Trace(states, actions) && k < |states| && t < |states[k].threads|
    requires states[k].threads[t].kind.Closer? && states[k].threads[t].pc.Gone?
    ensures states[k].closed
    ensures n in Taken(states, actions, t, k) ==>
              && n < |states[k].streams| && states[k].streams[n].once.Finished? && states[k].streams[n].done
              && forall x | 0 <= x < |states[k].sources| && states[k].sources[x].stream == n ::
                   states[k].streams[n].source.Some? ==> states[k].sources[x].closes == 1
  {
    TraceHasClosedService(states, actions, k);
    if n in Taken(states, actions, t, k) {
      TakenStreamsAreShutDown(states, actions, k, t, n);
    }
  }

  lemma TakenStreamsAreShutDown(states: seq<State>, actions: seq<Action>, k: nat, t: nat, n: nat)
    requires Trace(states, actions) && k < |states| && t < |states[k].threads|
    requires states[k].threads[t].pc.Gone? && n in Taken(states, actions, t, k)
    ensures n < |states[k].streams| && states[k].streams[n].once.Finished? && states[k].streams[n].done
    ensures forall x | 0 <= x < |states[k].sources| && states[k].sources[x].stream == n ::
              states[k].streams[n].source.Some? ==> states[k].sources[x].closes == 1
  {
    hide Taken;
    var s := states[k];
    TakenStreamsEnd(states, actions, k, t, n);
    TraceKeepsInv(states, actions, k);
    assert ThreadInv(s, t) && StreamInv(s, n);
    assert s.threads[t].kind.Closer? ==> s.threads[t].pending == {};
    forall x | 0 <= x < |s.sources| && s.sources[x].stream == n
      ensures s.streams[n].source.Some? ==> s.sources[x].closes == 1
    {
      assert SourceOk(s, x);
    }
  }
}
