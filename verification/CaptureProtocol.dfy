/** The shared packet captures of the SSH server, as a step system.

    A stream is captured once for all sessions that watch it. The registry lock is always taken
    before a stream's lock. Sessions, openers, processors and closers are threads with a program
    counter, and one action moves one thread across one atomic step. Opening a capture is a call
    whose result is not determined by the state. Threads, streams and sources are only ever added. */
module CaptureProtocol {
  import opened Wrappers

  /** How far the once-only body of a stream's shutdown has got. */
  datatype Once = NotRun | Running(thread: nat) | Finished

  /** `receivers` are the sessions, named by their thread. `opener` is the thread that opens the stream. */
  datatype Stream = Stream(
    key: string,
    opener: nat,
    lock: Option<nat>,
    receivers: set<nat>,
    done: bool,
    once: Once,
    source: Option<nat>,
    isOpened: bool,
    openErr: bool)

  /** A capture the provider opened for a stream, and how often it was closed. */
  datatype Source = Source(stream: nat, closes: nat)

  datatype Kind = Session | Opener | Processor | Closer

  datatype Pc =
    // subscribe
    | SubWantRegistry | SubInRegistry | SubWantStream | SubAddReceiver | SubLeaveRegistry | SubWaitOpen
    | Watching
    // unsubscribe
    | UnsubWantRegistry | UnsubWantStream | UnsubRemove | UnsubLeave
    // openStream
    | OpenCalling | OpenWantStream | OpenCheck | OpenSet | OpenDiscard | OpenStart | OpenSignal
    // processStream
    | Reading
    // captureEnded
    | EndWantRegistry | EndRemove
    // Close
    | CloseWantRegistry | CloseTake | CloseNext
    // stream.shutdown, the last thing every caller but Close does with a stream
    | ShutOnce | ShutCancel | ShutWantStream | ShutRead | ShutClose | ShutFinish
    | Gone

  /** `ownSource` is the source an opener got, `seen` the one a shutdown read, `pending` what Close still has to shut
      down. */
  datatype Thread = Thread(
    kind: Kind,
    key: string,
    stream: nat,
    ownSource: Option<nat>,
    seen: Option<nat>,
    isEmpty: bool,
    pending: set<nat>,
    pc: Pc)

  datatype State = State(
    registry: map<string, nat>,
    registryLock: Option<nat>,
    closed: bool,
    streams: seq<Stream>,
    sources: seq<Source>,
    threads: seq<Thread>)

  datatype Action =
    | CallCapture(key: string)
    | CallClose
    | Advance(thread: nat, ok: bool, pick: nat)

  // ---------------------------------------------------------------------------------------------
  // Steps
  // ---------------------------------------------------------------------------------------------

  predicate UsesStream(pc: Pc) {
    !(pc.SubWantRegistry? || pc.SubInRegistry? || pc.CloseWantRegistry? || pc.CloseTake? || pc.CloseNext? || pc.Gone?)
  }

  predicate WantsRegistry(pc: Pc) {
    pc.SubWantRegistry? || pc.UnsubWantRegistry? || pc.EndWantRegistry? || pc.CloseWantRegistry?
  }

  /** The sections that run under the registry lock. */
  predicate HoldsRegistry(pc: Pc) {
    || pc.SubInRegistry? || pc.SubWantStream? || pc.SubAddReceiver? || pc.SubLeaveRegistry?
    || pc.UnsubWantStream? || pc.UnsubRemove? || pc.UnsubLeave? || pc.EndRemove? || pc.CloseTake?
  }

  predicate WantsStream(pc: Pc) {
    pc.SubWantStream? || pc.UnsubWantStream? || pc.OpenWantStream? || pc.ShutWantStream?
  }

  /** The sections that run under the lock of the thread's stream. */
  predicate HoldsStream(pc: Pc) {
    pc.SubAddReceiver? || pc.UnsubRemove? || pc.OpenCheck? || pc.OpenSet? || pc.ShutRead?
  }

  /** `ok` answers what the state does not determine: whether opening and reading succeed, and
      whether a waiting session still waits. A second shutdown waits for the first to finish. */
  predicate CanAdvance(s: State, t: nat, ok: bool, pick: nat) {
    && t < |s.threads|
    && var me := s.threads[t];
       && me.pc != Gone
       && (UsesStream(me.pc) ==> me.stream < |s.streams|)
       && (WantsRegistry(me.pc) ==> s.registryLock.None?)
       && (WantsStream(me.pc) || (me.pc.Reading? && ok) ==> s.streams[me.stream].lock.None?)
       && (me.pc.ShutOnce? ==> !s.streams[me.stream].once.Running?)
       && (me.pc.SubWaitOpen? && ok ==> s.streams[me.stream].isOpened)
       && (me.pc.CloseNext? && me.pending != {} ==> pick in me.pending)
  }

  predicate Enabled(s: State, a: Action) {
    a.Advance? ==> CanAdvance(s, a.thread, a.ok, a.pick)
  }

  function NextPc(s: State, t: nat, ok: bool): Pc
    requires t < |s.threads| && (UsesStream(s.threads[t].pc) ==> s.threads[t].stream < |s.streams|)
  {
    var me := s.threads[t];
    match me.pc
    case SubWantRegistry => SubInRegistry
    case SubInRegistry => if s.closed then Gone else SubWantStream
    case SubWantStream => SubAddReceiver
    case SubAddReceiver => SubLeaveRegistry
    case SubLeaveRegistry => SubWaitOpen
    case SubWaitOpen => if ok && !s.streams[me.stream].openErr then Watching else UnsubWantRegistry
    case Watching => UnsubWantRegistry
    case UnsubWantRegistry => UnsubWantStream
    case UnsubWantStream => UnsubRemove
    case UnsubRemove => UnsubLeave
    case UnsubLeave => if me.isEmpty then ShutOnce else Gone
    case OpenCalling => if ok then OpenWantStream else EndWantRegistry
    case OpenWantStream => OpenCheck
    case OpenCheck => if s.streams[me.stream].done then OpenDiscard else OpenSet
    case OpenSet => OpenStart
    case OpenDiscard => OpenSignal
    case OpenStart => OpenSignal
    case OpenSignal => Gone
    case Reading => if ok then Reading else EndWantRegistry
    case EndWantRegistry => EndRemove
    case EndRemove => ShutOnce
    case CloseWantRegistry => CloseTake
    case CloseTake => CloseNext
    case CloseNext => if me.pending == {} then Gone else ShutOnce
    case ShutOnce => if s.streams[me.stream].once.NotRun? then ShutCancel else AfterShutdown(me.kind)
    case ShutCancel => ShutWantStream
    case ShutWantStream => ShutRead
    case ShutRead => ShutClose
    case ShutClose => ShutFinish
    case ShutFinish => AfterShutdown(me.kind)
    case Gone => Gone
  }

  function AfterShutdown(kind: Kind): Pc {
    match kind
    case Opener => OpenSignal
    case Closer => CloseNext
    case _ => Gone
  }

  function NextLock(t: nat, lock: Option<nat>, holds: bool, willHold: bool): Option<nat> {
    if willHold then Some(t) else if holds then None else lock
  }

  /** A session found no stream for its key and starts one. */
  predicate StartsStream(s: State, me: Thread) {
    me.pc.SubInRegistry? && !s.closed && me.key !in s.registry
  }

  function NextThread(s: State, t: nat, ok: bool, pick: nat): Thread
    requires t < |s.threads| && (UsesStream(s.threads[t].pc) ==> s.threads[t].stream < |s.streams|)
  {
    var me := s.threads[t];
    me.(pc := NextPc(s, t, ok),
        stream := if me.pc.SubInRegistry? then if me.key in s.registry then s.registry[me.key] else |s.streams|
                  else if me.pc.CloseNext? && me.pending != {} then pick
                  else me.stream,
        ownSource := if me.pc.OpenCalling? && ok then Some(|s.sources|) else me.ownSource,
        seen := if me.pc.ShutRead? then s.streams[me.stream].source else me.seen,
        isEmpty := if me.pc.UnsubRemove? then s.streams[me.stream].receivers - {t} == {} else me.isEmpty,
        pending := if me.pc.CloseTake? then s.registry.Values
                   else if me.pc.CloseNext? then me.pending - {pick}
                   else me.pending)
  }

  function NextStream(s: State, t: nat, ok: bool): Stream
    requires t < |s.threads| && UsesStream(s.threads[t].pc) && s.threads[t].stream < |s.streams|
  {
    var me, n := s.threads[t], s.streams[s.threads[t].stream];
    n.(lock := NextLock(t, n.lock, HoldsStream(me.pc), HoldsStream(NextPc(s, t, ok))),
       receivers := if me.pc.SubAddReceiver? then n.receivers + {t}
                    else if me.pc.UnsubRemove? then n.receivers - {t}
                    else n.receivers,
       done := n.done || me.pc.ShutCancel?,
       once := if me.pc.ShutOnce? && n.once.NotRun? then Running(t) else if me.pc.ShutFinish? then Finished else n.once,
       source := if me.pc.OpenSet? then me.ownSource else n.source,
       openErr := n.openErr || (me.pc.OpenCalling? && !ok) || me.pc.OpenDiscard?,
       isOpened := n.isOpened || me.pc.OpenSignal?)
  }

  function NextStreams(s: State, t: nat, ok: bool): seq<Stream>
    requires t < |s.threads| && (UsesStream(s.threads[t].pc) ==> s.threads[t].stream < |s.streams|)
  {
    var me := s.threads[t];
    if UsesStream(me.pc) then s.streams[me.stream := NextStream(s, t, ok)]
    else if StartsStream(s, me) then
      s.streams + [Stream(me.key, |s.threads|, None, {}, false, NotRun, None, false, false)]
    else s.streams
  }

  predicate Registered(s: State, n: nat) {
    n < |s.streams| && s.streams[n].key in s.registry && s.registry[s.streams[n].key] == n
  }

  /** A stream only removes its own entry, not that of a newer stream with the same key. */
  function NextRegistry(s: State, t: nat): map<string, nat>
    requires t < |s.threads|
  {
    var me := s.threads[t];
    if StartsStream(s, me) then s.registry[me.key := |s.streams|]
    else if (me.pc.UnsubLeave? && me.isEmpty) || me.pc.EndRemove? then
      if Registered(s, me.stream) then s.registry - {s.streams[me.stream].key} else s.registry
    else if me.pc.CloseTake? then map[]
    else s.registry
  }

  function CloseSource(sources: seq<Source>, source: Option<nat>): seq<Source> {
    match source
    case Some(x) => if x < |sources| then sources[x := sources[x].(closes := sources[x].closes + 1)] else sources
    case None => sources
  }

  function NextSources(s: State, t: nat, ok: bool): seq<Source>
    requires t < |s.threads|
  {
    var me := s.threads[t];
    if me.pc.OpenCalling? && ok then s.sources + [Source(me.stream, 0)]
    else if me.pc.OpenDiscard? then CloseSource(s.sources, me.ownSource)
    else if me.pc.ShutClose? then CloseSource(s.sources, me.seen)
    else s.sources
  }

  function NewThread(kind: Kind, key: string, stream: nat, pc: Pc): Thread {
    Thread(kind, key, stream, None, None, false, {}, pc)
  }

  function Spawned(s: State, t: nat): seq<Thread>
    requires t < |s.threads|
  {
    var me := s.threads[t];
    if StartsStream(s, me) then [NewThread(Opener, me.key, |s.streams|, OpenCalling)]
    else if me.pc.OpenStart? then [NewThread(Processor, me.key, me.stream, Reading)]
    else []
  }

  function AdvanceThread(s: State, t: nat, ok: bool, pick: nat): State
    requires CanAdvance(s, t, ok, pick)
  {
    State(NextRegistry(s, t),
          NextLock(t, s.registryLock, HoldsRegistry(s.threads[t].pc), HoldsRegistry(NextPc(s, t, ok))),
          s.closed || s.threads[t].pc.CloseTake?,
          NextStreams(s, t, ok),
          NextSources(s, t, ok),
          s.threads[t := NextThread(s, t, ok, pick)] + Spawned(s, t))
  }

  function Apply(s: State, a: Action): State
    requires Enabled(s, a)
  {
    match a
    case CallCapture(key) => s.(threads := s.threads + [NewThread(Session, key, 0, SubWantRegistry)])
    case CallClose => s.(threads := s.threads + [NewThread(Closer, "", 0, CloseWantRegistry)])
    case Advance(t, ok, pick) => AdvanceThread(s, t, ok, pick)
  }

  const INITIAL := State(map[], None, false, [], [], [])

  ghost predicate Trace(states: seq<State>, actions: seq<Action>) {
    && |states| == |actions| + 1
    && states[0] == INITIAL
    && forall k | 0 <= k < |actions| ::
         Enabled(states[k], actions[k]) && states[k + 1] == Apply(states[k], actions[k])
  }

  // ---------------------------------------------------------------------------------------------
  // Invariant
  // ---------------------------------------------------------------------------------------------

  predicate InSubscribe(pc: Pc) {
    || pc.SubWantRegistry? || pc.SubInRegistry? || pc.SubWantStream? || pc.SubAddReceiver?
    || pc.SubLeaveRegistry? || pc.SubWaitOpen? || pc.Watching?
  }

  predicate InOpen(pc: Pc) {
    || pc.OpenCalling? || pc.OpenWantStream? || pc.OpenCheck? || pc.OpenSet?
    || pc.OpenDiscard? || pc.OpenStart? || pc.OpenSignal?
  }

  predicate InShutdown(pc: Pc) {
    pc.ShutOnce? || IsShutting(pc)
  }

  predicate IsShutting(pc: Pc) {
    pc.ShutCancel? || pc.ShutWantStream? || pc.ShutRead? || pc.ShutClose? || pc.ShutFinish?
  }

  /** The session is among the receivers of its stream. */
  predicate IsSubscribed(pc: Pc) {
    || pc.SubLeaveRegistry? || pc.SubWaitOpen? || pc.Watching?
    || pc.UnsubWantRegistry? || pc.UnsubWantStream? || pc.UnsubRemove?
  }

  /** The registry lock is held to add the session to the stream, which is registered but may be new. */
  predicate IsJoining(pc: Pc) {
    pc.SubWantStream? || pc.SubAddReceiver?
  }

  /** The opener has a source that neither it nor the stream's shutdown is responsible for yet. */
  predicate HasUnsetSource(pc: Pc) {
    pc.OpenWantStream? || pc.OpenCheck? || pc.OpenSet? || pc.OpenDiscard?
  }

  /** Thread t has yet to run, or wait for, the shutdown of stream n. */
  predicate IsCommitted(s: State, t: nat, n: nat) {
    && t < |s.threads|
    && ((s.threads[t].pc.ShutOnce? && s.threads[t].stream == n) || n in s.threads[t].pending)
  }

  ghost predicate HasCommitted(s: State, n: nat) {
    exists t :: IsCommitted(s, t, n)
  }

  predicate InUnsubscribe(pc: Pc) {
    pc.UnsubWantRegistry? || pc.UnsubWantStream? || pc.UnsubRemove? || pc.UnsubLeave?
  }

  predicate InCaptureEnded(pc: Pc) {
    pc.EndWantRegistry? || pc.EndRemove?
  }

  predicate KindOk(kind: Kind, pc: Pc) {
    || InShutdown(pc) || pc.Gone?
    || match kind
       case Session => InSubscribe(pc) || InUnsubscribe(pc)
       case Opener => InOpen(pc) || InCaptureEnded(pc)
       case Processor => pc.Reading? || InCaptureEnded(pc)
       case Closer => pc.CloseWantRegistry? || pc.CloseTake? || pc.CloseNext?
  }

  /** Locks, the registry and kinds, from the thread's side. */
  ghost predicate ThreadOk(s: State, t: nat)
    requires t < |s.threads|
  {
    var me := s.threads[t];
    && KindOk(me.kind, me.pc)
    && (UsesStream(me.pc) || me.kind.Opener? ==> me.stream < |s.streams|)
    && (HoldsRegistry(me.pc) ==> s.registryLock == Some(t))
    && (HoldsStream(me.pc) ==> s.streams[me.stream].lock == Some(t))
    && (me.kind.Opener? ==> s.streams[me.stream].opener == t)
    && (!me.kind.Closer? || me.pc.CloseWantRegistry? || me.pc.CloseTake? || me.pc.Gone? ==> me.pending == {})
  }

  /** Registration and receivers, from the thread's side. */
  ghost predicate MembershipOk(s: State, t: nat)
    requires t < |s.threads| && (UsesStream(s.threads[t].pc) ==> s.threads[t].stream < |s.streams|)
  {
    var me := s.threads[t];
    && (IsSubscribed(me.pc) ==> t in s.streams[me.stream].receivers)
    && (IsJoining(me.pc) ==> Registered(s, me.stream))
    && (me.pc.UnsubLeave? ==> me.isEmpty == (s.streams[me.stream].receivers == {}))
    && (InShutdown(me.pc) ==> !Registered(s, me.stream))
  }

  ghost predicate PendingOk(s: State, t: nat)
    requires t < |s.threads|
  {
    forall n | n in s.threads[t].pending :: n < |s.streams| && !Registered(s, n)
  }

  /** The shutdown of a stream, from its runner's side. */
  ghost predicate ShutdownOk(s: State, t: nat)
    requires t < |s.threads| && (UsesStream(s.threads[t].pc) ==> s.threads[t].stream < |s.streams|)
  {
    var me := s.threads[t];
    && (IsShutting(me.pc) ==> s.streams[me.stream].once == Running(t))
    && (IsShutting(me.pc) ==> s.streams[me.stream].done == !me.pc.ShutCancel?)
    && (me.pc.ShutClose? ==> me.seen == s.streams[me.stream].source)
    && (me.pc.Reading? ==> s.streams[me.stream].source.Some?)
  }

  /** The shutdown of a stream has read the source it is going to close. */
  ghost predicate HasRead(s: State, n: nat)
    requires n < |s.streams|
  {
    match s.streams[n].once
    case NotRun => false
    case Running(u) => u < |s.threads| && (s.threads[u].pc.ShutClose? || s.threads[u].pc.ShutFinish?)
    case Finished => true
  }

  ghost predicate HasClosed(s: State, n: nat)
    requires n < |s.streams|
  {
    match s.streams[n].once
    case NotRun => false
    case Running(u) => u < |s.threads| && s.threads[u].pc.ShutFinish?
    case Finished => true
  }

  /** Every stream has its own opener, which signals that the stream is open as its last step. */
  ghost predicate OpenedOk(s: State, n: nat)
    requires n < |s.streams|
  {
    var o := s.streams[n].opener;
    && o < |s.threads|
    && s.threads[o].kind.Opener? && s.threads[o].stream == n
    && (s.streams[n].isOpened <==> s.threads[o].pc.Gone?)
  }

  ghost predicate LockOk(s: State, n: nat)
    requires n < |s.streams|
  {
    s.streams[n].lock.Some? ==>
      var h := s.streams[n].lock.value;
      h < |s.threads| && s.threads[h].stream == n && HoldsStream(s.threads[h].pc)
  }

  ghost predicate OnceOk(s: State, n: nat)
    requires n < |s.streams|
  {
    match s.streams[n].once
    case NotRun => !s.streams[n].done
    case Running(u) => u < |s.threads| && s.threads[u].stream == n && IsShutting(s.threads[u].pc)
    case Finished => s.streams[n].done
  }

  ghost predicate StreamOk(s: State, n: nat)
    requires n < |s.streams|
  {
    OpenedOk(s, n) && LockOk(s, n) && OnceOk(s, n)
  }

  /** What the opener of a stream is up to. */
  ghost predicate OpenerOk(s: State, n: nat)
    requires n < |s.streams| && s.streams[n].opener < |s.threads|
  {
    var st := s.streams[n];
    var o := s.threads[st.opener];
    && (o.pc.OpenCalling? ==> o.ownSource.None?)
    && (st.source.Some? ==> st.source == o.ownSource)
    && (HasUnsetSource(o.pc) ==> o.ownSource.Some? && st.source.None?)
    && (o.pc.OpenDiscard? ==> st.done)
    && (o.pc.OpenStart? ==> o.ownSource.Some? && st.source == o.ownSource)
  }

  /** An opener that got a source never takes the path of a failed opening. */
  ghost predicate ClaimOk(s: State, n: nat)
    requires n < |s.streams| && s.streams[n].opener < |s.threads|
  {
    var o := s.threads[s.streams[n].opener];
    o.ownSource.Some? ==>
      && o.ownSource.value < |s.sources|
      && s.sources[o.ownSource.value].stream == n
      && (HasUnsetSource(o.pc) || o.pc.OpenStart? || o.pc.OpenSignal? || o.pc.Gone?)
  }

  /** An opener that is about to hand its source to the stream is ahead of the shutdown that looks for it. */
  ghost predicate HandoverOk(s: State, n: nat)
    requires n < |s.streams| && s.streams[n].opener < |s.threads|
  {
    s.threads[s.streams[n].opener].pc.OpenSet? ==> !HasRead(s, n)
  }

  /** Who may still close a source, and whether it was. */
  ghost predicate SourceOk(s: State, x: nat)
    requires x < |s.sources|
  {
    var n := s.sources[x].stream;
    && n < |s.streams|
    && s.streams[n].opener < |s.threads|
    && var o := s.threads[s.streams[n].opener];
       && o.ownSource == Some(x)
       && (s.sources[x].closes > 0 ==> s.streams[n].done)
       && s.sources[x].closes ==
            (if s.streams[n].source.Some? then if HasClosed(s, n) then 1 else 0
             else if HasUnsetSource(o.pc) then 0 else 1)
  }

  ghost predicate ReceiversOk(s: State, n: nat)
    requires n < |s.streams|
  {
    forall t | t in s.streams[n].receivers ::
      t < |s.threads| && s.threads[t].stream == n && IsSubscribed(s.threads[t].pc)
  }

  /** A registered stream is alive and watched, unless the owner of the registry lock is about to
      add its first receiver or to unregister it. An unregistered one is going to be shut down. */
  ghost predicate LiveOk(s: State, n: nat)
    requires n < |s.streams|
  {
    var st := s.streams[n];
    && (Registered(s, n) ==> st.once.NotRun?)
    && (Registered(s, n) && st.receivers == {} ==>
          && s.registryLock.Some?
          && s.registryLock.value < |s.threads|
          && s.threads[s.registryLock.value].stream == n
          && (IsJoining(s.threads[s.registryLock.value].pc) || s.threads[s.registryLock.value].pc.UnsubLeave?))
    && (!Registered(s, n) && st.once.NotRun? ==> HasCommitted(s, n))
  }

  ghost predicate RegistryOk(s: State) {
    && (forall key | key in s.registry :: s.registry[key] < |s.streams| && s.streams[s.registry[key]].key == key)
    && (s.closed ==> s.registry == map[])
    && (s.registryLock.Some? ==>
          s.registryLock.value < |s.threads| && HoldsRegistry(s.threads[s.registryLock.value].pc))
  }

  ghost predicate ThreadInv(s: State, t: nat)
    requires t < |s.threads|
  {
    ThreadOk(s, t) && MembershipOk(s, t) && PendingOk(s, t) && ShutdownOk(s, t)
  }

  ghost predicate StreamInv(s: State, n: nat)
    requires n < |s.streams|
  {
    && StreamOk(s, n) && OpenerOk(s, n) && ClaimOk(s, n) && HandoverOk(s, n)
    && ReceiversOk(s, n) && LiveOk(s, n)
  }

  ghost predicate Inv(s: State) {
    && RegistryOk(s)
    && (forall t | 0 <= t < |s.threads| :: ThreadInv(s, t))
    && (forall n | 0 <= n < |s.streams| :: StreamInv(s, n))
    && (forall x | 0 <= x < |s.sources| :: SourceOk(s, x))
  }


  /** A locked section is only entered through the step that waits for the lock. */
  lemma LocksAreWanted(s: State, t: nat, ok: bool, pick: nat)
    requires CanAdvance(s, t, ok, pick)
    ensures HoldsRegistry(NextPc(s, t, ok)) ==> HoldsRegistry(s.threads[t].pc) || WantsRegistry(s.threads[t].pc)
    ensures HoldsStream(NextPc(s, t, ok)) ==> HoldsStream(s.threads[t].pc) || WantsStream(s.threads[t].pc)
    ensures HoldsStream(s.threads[t].pc) || WantsStream(s.threads[t].pc) ==> UsesStream(s.threads[t].pc)
  {
  }

  lemma SessionIsKept(s: State, t: nat, ok: bool)
    requires t < |s.threads| && (UsesStream(s.threads[t].pc) ==> s.threads[t].stream < |s.streams|)
    requires s.threads[t].kind.Session? && KindOk(Session, s.threads[t].pc)
    ensures KindOk(Session, NextPc(s, t, ok))
  {
    hide InOpen, InCaptureEnded;
  }

  lemma KindIsKept(s: State, t: nat, ok: bool, pick: nat)
    requires CanAdvance(s, t, ok, pick) && KindOk(s.threads[t].kind, s.threads[t].pc)
    ensures KindOk(s.threads[t].kind, NextPc(s, t, ok))
  {
    if s.threads[t].kind.Session? {
      SessionIsKept(s, t, ok);
    } else {
      hide InSubscribe, InUnsubscribe;
    }
  }

  /** What a step does to a stream: only a thread that stands in it changes it. */
  lemma StreamChanges(s: State, t: nat, ok: bool, pick: nat, n: nat)
    requires CanAdvance(s, t, ok, pick) && n < |s.streams|
    ensures var s' := AdvanceThread(s, t, ok, pick); var me := s.threads[t];
            && n < |s'.streams|
            && s'.streams[n].key == s.streams[n].key && s'.streams[n].opener == s.streams[n].opener
            && (me.stream != n || !UsesStream(me.pc) ==> s'.streams[n] == s.streams[n])
            && s'.streams[n].isOpened == (s.streams[n].isOpened || (me.stream == n && me.pc.OpenSignal?))
            && s'.streams[n].done == (s.streams[n].done || (me.stream == n && me.pc.ShutCancel?))
            && s'.streams[n].source == (if me.stream == n && me.pc.OpenSet? then me.ownSource else s.streams[n].source)
            && s'.streams[n].receivers ==
                 (if me.stream == n && me.pc.SubAddReceiver? then s.streams[n].receivers + {t}
                  else if me.stream == n && me.pc.UnsubRemove? then s.streams[n].receivers - {t}
                  else s.streams[n].receivers)
            && s'.streams[n].once ==
                 (if me.stream == n && me.pc.ShutOnce? && s.streams[n].once.NotRun? then Running(t)
                  else if me.stream == n && me.pc.ShutFinish? then Finished
                  else s.streams[n].once)
  {
    hide NextPc;
  }

  /** What a step does to its own thread's place in a shutdown. */
  lemma ShutdownPcs(s: State, t: nat, ok: bool, pick: nat)
    requires CanAdvance(s, t, ok, pick)
    ensures var pc := s.threads[t].pc; var next := NextPc(s, t, ok);
            && (next.ShutCancel? <==> pc.ShutOnce? && s.streams[s.threads[t].stream].once.NotRun?)
            && (next.ShutWantStream? <==> pc.ShutCancel?)
            && (next.ShutRead? <==> pc.ShutWantStream?)
            && (next.ShutClose? <==> pc.ShutRead?)
            && (next.ShutFinish? <==> pc.ShutClose?)
  {
  }

  /** What a step does to its own thread's place in an opening. */
  lemma OpeningPcs(s: State, t: nat, ok: bool, pick: nat)
    requires CanAdvance(s, t, ok, pick) && s.threads[t].kind.Opener? && KindOk(Opener, s.threads[t].pc)
    ensures var pc := s.threads[t].pc; var next := NextPc(s, t, ok);
            && !next.OpenCalling?
            && (next.OpenWantStream? <==> pc.OpenCalling? && ok)
            && (next.OpenCheck? <==> pc.OpenWantStream?)
            && (next.OpenSet? <==> pc.OpenCheck? && !s.streams[s.threads[t].stream].done)
            && (next.OpenDiscard? <==> pc.OpenCheck? && s.streams[s.threads[t].stream].done)
            && (next.OpenStart? <==> pc.OpenSet?)
            && (pc.OpenStart? || pc.OpenDiscard? ==> next.OpenSignal?)
            && (next.Gone? <==> pc.OpenSignal?)
  {
  }

  lemma StreamIsKept(s: State, t: nat, ok: bool, pick: nat)
    requires CanAdvance(s, t, ok, pick) && ThreadOk(s, t) && PendingOk(s, t) && RegistryOk(s)
    ensures UsesStream(NextPc(s, t, ok)) || s.threads[t].kind.Opener? ==>
              NextThread(s, t, ok, pick).stream < |NextStreams(s, t, ok)|
    ensures s.threads[t].kind.Opener? ==> NextThread(s, t, ok, pick).stream == s.threads[t].stream
  {
  }

  lemma OwnStreamIsLocked(s: State, t: nat, ok: bool, pick: nat)
    requires CanAdvance(s, t, ok, pick) && HoldsStream(NextPc(s, t, ok))
    ensures NextThread(s, t, ok, pick).stream == s.threads[t].stream
    ensures s.threads[t].stream < |s.streams| && UsesStream(s.threads[t].pc)
    ensures NextStream(s, t, ok).lock == Some(t)
  {
    LocksAreWanted(s, t, ok, pick);
  }

  lemma PendingStaysEmpty(s: State, t: nat, ok: bool, pick: nat)
    requires CanAdvance(s, t, ok, pick) && ThreadOk(s, t)
    ensures var next := NextThread(s, t, ok, pick);
            !next.kind.Closer? || next.pc.CloseWantRegistry? || next.pc.CloseTake? || next.pc.Gone? ==>
              next.pending == {}
  {
  }

  lemma AdvanceKeepsOwnThread(s: State, t: nat, ok: bool, pick: nat)
    requires CanAdvance(s, t, ok, pick) && ThreadOk(s, t) && PendingOk(s, t) && RegistryOk(s)
    ensures ThreadOk(AdvanceThread(s, t, ok, pick), t)
  {
    hide NextPc, KindOk, Registered, NextRegistry, NextSources, Spawned, HoldsRegistry,
        HoldsStream, WantsRegistry, WantsStream;
    LocksAreWanted(s, t, ok, pick);
    KindIsKept(s, t, ok, pick);
    StreamIsKept(s, t, ok, pick);
    if HoldsStream(NextPc(s, t, ok)) {
      OwnStreamIsLocked(s, t, ok, pick);
    }
    if s.threads[t].kind.Opener? {
      StreamChanges(s, t, ok, pick, s.threads[t].stream);
    }
    PendingStaysEmpty(s, t, ok, pick);
  }

  lemma AdvanceKeepsOtherThread(s: State, t: nat, ok: bool, pick: nat, u: nat)
    requires CanAdvance(s, t, ok, pick) && ThreadOk(s, t)
    requires u < |s.threads| && u != t && ThreadOk(s, u)
    ensures ThreadOk(AdvanceThread(s, t, ok, pick), u)
  {
    LocksAreWanted(s, t, ok, pick);
  }

  lemma AdvanceSpawnsOkThread(s: State, t: nat, ok: bool, pick: nat, u: nat)
    requires CanAdvance(s, t, ok, pick) && ThreadOk(s, t)
    requires |s.threads| <= u < |AdvanceThread(s, t, ok, pick).threads|
    ensures ThreadOk(AdvanceThread(s, t, ok, pick), u)
  {
    hide NextPc, NextRegistry, NextSources, CloseSource;
  }

  /** No step registers a stream again. */
  lemma RegisteredShrinks(s: State, t: nat, ok: bool, pick: nat, n: nat)
    requires CanAdvance(s, t, ok, pick) && n < |s.streams|
    ensures Registered(AdvanceThread(s, t, ok, pick), n) ==> Registered(s, n)
  {
  }

  /** The registry only changes under its lock. */
  lemma RegistryIsLocked(s: State, t: nat, ok: bool, pick: nat, n: nat)
    requires CanAdvance(s, t, ok, pick) && !HoldsRegistry(s.threads[t].pc) && n < |s.streams|
    ensures Registered(AdvanceThread(s, t, ok, pick), n) == Registered(s, n)
  {
    hide NextPc, NextStreams;
    StreamChanges(s, t, ok, pick, n);
  }

  lemma AdvanceKeepsPending(s: State, t: nat, ok: bool, pick: nat, n: nat)
    requires CanAdvance(s, t, ok, pick) && RegistryOk(s) && PendingOk(s, t)
    requires n in NextThread(s, t, ok, pick).pending
    ensures n < |AdvanceThread(s, t, ok, pick).streams| && !Registered(AdvanceThread(s, t, ok, pick), n)
  {
    if n in s.threads[t].pending {
      RegisteredShrinks(s, t, ok, pick, n);
    }
  }

  /** A stream enters its shutdown once it was taken out of the registry. */
  lemma ShutdownIsEntered(s: State, t: nat, ok: bool)
    requires t < |s.threads| && (UsesStream(s.threads[t].pc) ==> s.threads[t].stream < |s.streams|)
    requires InShutdown(NextPc(s, t, ok))
    ensures var me := s.threads[t];
            || InShutdown(me.pc) || (me.pc.UnsubLeave? && me.isEmpty) || me.pc.EndRemove?
            || (me.pc.CloseNext? && me.pending != {})
  {
  }

  /** The steps that take the thread's own stream out of the registry. */
  lemma LeavingUnregisters(s: State, t: nat, ok: bool, pick: nat)
    requires CanAdvance(s, t, ok, pick)
    requires (s.threads[t].pc.UnsubLeave? && s.threads[t].isEmpty) || s.threads[t].pc.EndRemove?
    ensures !Registered(AdvanceThread(s, t, ok, pick), s.threads[t].stream)
  {
    hide NextPc;
  }

  /** A stream enters its shutdown unregistered. */
  lemma ShutdownIsUnregistered(s: State, t: nat, ok: bool, pick: nat)
    requires CanAdvance(s, t, ok, pick) && ThreadOk(s, t) && MembershipOk(s, t) && PendingOk(s, t)
    requires InShutdown(NextPc(s, t, ok))
    ensures !Registered(AdvanceThread(s, t, ok, pick), NextThread(s, t, ok, pick).stream)
  {
    hide NextPc, NextStreams, NextRegistry, Registered;
    ShutdownIsEntered(s, t, ok);
    var me := s.threads[t];
    if (me.pc.UnsubLeave? && me.isEmpty) || me.pc.EndRemove? {
      LeavingUnregisters(s, t, ok, pick);
    } else {
      RegisteredShrinks(s, t, ok, pick, NextThread(s, t, ok, pick).stream);
    }
  }

  lemma SubscriptionPcs(s: State, t: nat, ok: bool, pick: nat)
    requires CanAdvance(s, t, ok, pick)
    ensures IsSubscribed(NextPc(s, t, ok)) <==>
              s.threads[t].pc.SubAddReceiver? || (IsSubscribed(s.threads[t].pc) && !s.threads[t].pc.UnsubRemove?)
  {
  }

  lemma AdvanceKeepsSubscription(s: State, t: nat, ok: bool, pick: nat)
    requires CanAdvance(s, t, ok, pick) && ThreadOk(s, t) && MembershipOk(s, t)
    requires IsSubscribed(NextPc(s, t, ok))
    ensures UsesStream(s.threads[t].pc) && s.threads[t].stream < |s.streams|
    ensures t in NextStream(s, t, ok).receivers && NextThread(s, t, ok, pick).stream == s.threads[t].stream
  {
    SubscriptionPcs(s, t, ok, pick);
    hide NextPc;
  }

  lemma EmptinessIsNoticed(s: State, t: nat, ok: bool, pick: nat)
    requires CanAdvance(s, t, ok, pick) && NextPc(s, t, ok).UnsubLeave?
    ensures s.threads[t].stream < |s.streams|
    ensures UsesStream(s.threads[t].pc) && NextThread(s, t, ok, pick).stream == s.threads[t].stream
    ensures NextThread(s, t, ok, pick).isEmpty == (NextStream(s, t, ok).receivers == {})
  {
  }

  lemma AdvanceKeepsJoining(s: State, t: nat, ok: bool, pick: nat)
    requires CanAdvance(s, t, ok, pick) && ThreadOk(s, t) && MembershipOk(s, t) && RegistryOk(s)
    requires IsJoining(NextPc(s, t, ok))
    ensures Registered(AdvanceThread(s, t, ok, pick), NextThread(s, t, ok, pick).stream)
  {
    assert s.threads[t].pc.SubInRegistry? || s.threads[t].pc.SubWantStream?;
    hide NextPc;
  }

  lemma AdvanceKeepsOwnMembership(s: State, t: nat, ok: bool, pick: nat)
    requires CanAdvance(s, t, ok, pick) && ThreadOk(s, t) && MembershipOk(s, t) && PendingOk(s, t) && RegistryOk(s)
    requires ThreadOk(AdvanceThread(s, t, ok, pick), t)
    ensures MembershipOk(AdvanceThread(s, t, ok, pick), t)
  {
    hide NextPc, NextStream, NextRegistry, Registered, InShutdown, IsJoining, IsSubscribed;
    var next := NextPc(s, t, ok);
    if InShutdown(next) {
      ShutdownIsUnregistered(s, t, ok, pick);
    }
    if IsJoining(next) {
      AdvanceKeepsJoining(s, t, ok, pick);
    }
    if IsSubscribed(next) {
      AdvanceKeepsSubscription(s, t, ok, pick);
    }
    if next.UnsubLeave? {
      EmptinessIsNoticed(s, t, ok, pick);
    }
  }

  lemma AdvanceKeepsPendingOk(s: State, t: nat, ok: bool, pick: nat, u: nat)
    requires CanAdvance(s, t, ok, pick) && RegistryOk(s)
    requires u < |AdvanceThread(s, t, ok, pick).threads|
    requires u < |s.threads| ==> PendingOk(s, u)
    ensures PendingOk(AdvanceThread(s, t, ok, pick), u)
  {
    hide NextPc, NextRegistry, NextSources, Registered;
    var s' := AdvanceThread(s, t, ok, pick);
    forall n | n in s'.threads[u].pending ensures n < |s'.streams| && !Registered(s', n) {
      if u == t {
        AdvanceKeepsPending(s, t, ok, pick, n);
      } else {
        RegisteredShrinks(s, t, ok, pick, n);
      }
    }
  }

  lemma AdvanceKeepsOtherMembership(s: State, t: nat, ok: bool, pick: nat, u: nat)
    requires CanAdvance(s, t, ok, pick) && ThreadOk(s, t)
    requires u < |s.threads| && u != t && ThreadOk(s, u) && MembershipOk(s, u)
    ensures UsesStream(s.threads[u].pc) ==> s.threads[u].stream < |AdvanceThread(s, t, ok, pick).streams|
    ensures MembershipOk(AdvanceThread(s, t, ok, pick), u)
  {
    hide NextPc, NextStreams, NextRegistry, NextSources, Registered;
    var s' := AdvanceThread(s, t, ok, pick);
    assert s'.threads[u] == s.threads[u];
    if UsesStream(s.threads[u].pc) {
      RegisteredShrinks(s, t, ok, pick, s.threads[u].stream);
      StreamChanges(s, t, ok, pick, s.threads[u].stream);
      if IsJoining(s.threads[u].pc) {
        RegistryIsLocked(s, t, ok, pick, s.threads[u].stream);
      }
    }
  }

  lemma AdvanceKeepsOwnOnce(s: State, t: nat, ok: bool, pick: nat)
    requires CanAdvance(s, t, ok, pick) && ThreadOk(s, t) && ShutdownOk(s, t)
    requires UsesStream(s.threads[t].pc) ==> OnceOk(s, s.threads[t].stream)
    requires IsShutting(NextPc(s, t, ok))
    ensures UsesStream(s.threads[t].pc) && s.threads[t].stream < |s.streams|
    ensures NextThread(s, t, ok, pick).stream == s.threads[t].stream
    ensures NextStream(s, t, ok).once == Running(t)
    ensures NextStream(s, t, ok).done == !NextPc(s, t, ok).ShutCancel?
  {
    ShutdownPcs(s, t, ok, pick);
    hide NextPc;
  }

  lemma AdvanceKeepsOwnSource(s: State, t: nat, ok: bool, pick: nat)
    requires CanAdvance(s, t, ok, pick) && ShutdownOk(s, t)
    requires NextPc(s, t, ok).ShutClose? || NextPc(s, t, ok).Reading?
    ensures UsesStream(s.threads[t].pc) && s.threads[t].stream < |s.streams|
    ensures NextThread(s, t, ok, pick).stream == s.threads[t].stream
    ensures NextPc(s, t, ok).ShutClose? ==> NextThread(s, t, ok, pick).seen == NextStream(s, t, ok).source
    ensures NextPc(s, t, ok).Reading? ==> NextStream(s, t, ok).source.Some?
  {
  }

  lemma AdvanceKeepsOwnShutdown(s: State, t: nat, ok: bool, pick: nat)
    requires CanAdvance(s, t, ok, pick) && ThreadOk(s, t) && ShutdownOk(s, t)
    requires UsesStream(s.threads[t].pc) ==> OnceOk(s, s.threads[t].stream)
    requires ThreadOk(AdvanceThread(s, t, ok, pick), t)
    ensures ShutdownOk(AdvanceThread(s, t, ok, pick), t)
  {
    hide NextPc, NextStream, IsShutting;
    if IsShutting(NextPc(s, t, ok)) {
      AdvanceKeepsOwnOnce(s, t, ok, pick);
    }
    if NextPc(s, t, ok).ShutClose? || NextPc(s, t, ok).Reading? {
      AdvanceKeepsOwnSource(s, t, ok, pick);
    }
  }

  lemma AdvanceKeepsOtherShutdown(s: State, t: nat, ok: bool, pick: nat, u: nat)
    requires CanAdvance(s, t, ok, pick) && ThreadOk(s, t) && ShutdownOk(s, t)
    requires u < |s.threads| && u != t && ThreadOk(s, u) && ShutdownOk(s, u)
    requires UsesStream(s.threads[t].pc) ==>
               && OpenedOk(s, s.threads[t].stream) && OpenerOk(s, s.threads[t].stream)
               && HandoverOk(s, s.threads[t].stream)
    ensures UsesStream(s.threads[u].pc) ==> s.threads[u].stream < |AdvanceThread(s, t, ok, pick).streams|
    ensures ShutdownOk(AdvanceThread(s, t, ok, pick), u)
  {
    hide NextPc, NextStreams, NextRegistry, NextSources, Registered;
    assert AdvanceThread(s, t, ok, pick).threads[u] == s.threads[u];
    if UsesStream(s.threads[u].pc) {
      StreamChanges(s, t, ok, pick, s.threads[u].stream);
    }
  }

  lemma AdvanceSpawnsOkMembership(s: State, t: nat, ok: bool, pick: nat, u: nat)
    requires CanAdvance(s, t, ok, pick) && ThreadOk(s, t)
    requires UsesStream(s.threads[t].pc) ==> StreamOk(s, s.threads[t].stream) && OpenerOk(s, s.threads[t].stream)
    requires |s.threads| <= u < |AdvanceThread(s, t, ok, pick).threads|
    requires ThreadOk(AdvanceThread(s, t, ok, pick), u)
    ensures MembershipOk(AdvanceThread(s, t, ok, pick), u) && ShutdownOk(AdvanceThread(s, t, ok, pick), u)
  {
    hide NextPc, NextRegistry, NextSources, CloseSource, NextStreams;
    if s.threads[t].pc.OpenStart? {
      StreamChanges(s, t, ok, pick, s.threads[t].stream);
    }
  }

  lemma AdvanceKeepsOpenedOk(s: State, t: nat, ok: bool, pick: nat, n: nat)
    requires CanAdvance(s, t, ok, pick) && ThreadOk(s, t) && PendingOk(s, t) && RegistryOk(s)
    requires n < |s.streams| && OpenedOk(s, n)
    ensures OpenedOk(AdvanceThread(s, t, ok, pick), n)
  {
    hide NextPc, NextStreams;
    StreamChanges(s, t, ok, pick, n);
    if s.streams[n].opener == t && s.threads[t].pc != Gone {
      OpeningPcs(s, t, ok, pick);
      StreamIsKept(s, t, ok, pick);
    }
  }

  lemma AdvanceKeepsLockOk(s: State, t: nat, ok: bool, pick: nat, n: nat)
    requires CanAdvance(s, t, ok, pick) && ThreadOk(s, t)
    requires n < |s.streams| && LockOk(s, n)
    ensures LockOk(AdvanceThread(s, t, ok, pick), n)
  {
    LocksAreWanted(s, t, ok, pick);
  }

  lemma AdvanceKeepsOnceOk(s: State, t: nat, ok: bool, pick: nat, n: nat)
    requires CanAdvance(s, t, ok, pick) && ThreadOk(s, t) && ShutdownOk(s, t)
    requires n < |s.streams| && OnceOk(s, n)
    ensures OnceOk(AdvanceThread(s, t, ok, pick), n)
  {
    hide NextPc, NextStreams;
    StreamChanges(s, t, ok, pick, n);
    ShutdownPcs(s, t, ok, pick);
  }

  lemma AdvanceKeepsClaimOk(s: State, t: nat, ok: bool, pick: nat, n: nat)
    requires CanAdvance(s, t, ok, pick) && ThreadOk(s, t)
    requires n < |s.streams| && OpenedOk(s, n) && ClaimOk(s, n)
    requires OpenedOk(AdvanceThread(s, t, ok, pick), n)
    ensures ClaimOk(AdvanceThread(s, t, ok, pick), n)
  {
    hide NextPc, NextStreams, CloseSource;
    StreamChanges(s, t, ok, pick, n);
    var o := s.threads[s.streams[n].opener];
    if o.ownSource.Some? {
      SourcesOnlyClose(s, t, ok, pick, o.ownSource.value);
    }
    if s.streams[n].opener == t {
      OpeningPcs(s, t, ok, pick);
    }
  }

  /** The opener's own steps. */
  lemma OpenerKeepsOpenerOk(s: State, t: nat, ok: bool, pick: nat)
    requires CanAdvance(s, t, ok, pick) && ThreadOk(s, t) && s.threads[t].kind.Opener? && InOpen(s.threads[t].pc)
    requires OpenerOk(s, s.threads[t].stream)
    requires OpenedOk(AdvanceThread(s, t, ok, pick), s.threads[t].stream)
    ensures OpenerOk(AdvanceThread(s, t, ok, pick), s.threads[t].stream)
  {
    OpeningPcs(s, t, ok, pick);
    StreamChanges(s, t, ok, pick, s.threads[t].stream);
    hide NextPc, NextStreams;
  }

  /** Its steps after the opening failed. */
  lemma FailedOpenerKeepsOpenerOk(s: State, t: nat, ok: bool, pick: nat)
    requires CanAdvance(s, t, ok, pick) && ThreadOk(s, t) && s.threads[t].kind.Opener? && !InOpen(s.threads[t].pc)
    requires OpenerOk(s, s.threads[t].stream) && ClaimOk(s, s.threads[t].stream)
    requires OpenedOk(AdvanceThread(s, t, ok, pick), s.threads[t].stream)
    ensures OpenerOk(AdvanceThread(s, t, ok, pick), s.threads[t].stream)
  {
    OpeningPcs(s, t, ok, pick);
    StreamChanges(s, t, ok, pick, s.threads[t].stream);
    hide NextPc, NextStreams;
  }

  lemma OthersKeepOpenerOk(s: State, t: nat, ok: bool, pick: nat, n: nat)
    requires CanAdvance(s, t, ok, pick) && ThreadOk(s, t)
    requires n < |s.streams| && OpenedOk(s, n) && OpenerOk(s, n) && s.streams[n].opener != t
    requires OpenedOk(AdvanceThread(s, t, ok, pick), n)
    ensures OpenerOk(AdvanceThread(s, t, ok, pick), n)
  {
    hide NextPc, NextStreams;
    StreamChanges(s, t, ok, pick, n);
  }

  lemma HasReadChanges(s: State, t: nat, ok: bool, pick: nat, n: nat)
    requires CanAdvance(s, t, ok, pick) && ThreadOk(s, t) && ShutdownOk(s, t)
    requires n < |s.streams| && OnceOk(s, n)
    ensures HasRead(AdvanceThread(s, t, ok, pick), n) ==
              (HasRead(s, n) || (s.threads[t].pc.ShutRead? && s.threads[t].stream == n))
  {
    hide NextPc, NextStreams;
    StreamChanges(s, t, ok, pick, n);
    ShutdownPcs(s, t, ok, pick);
  }

  lemma HasClosedChanges(s: State, t: nat, ok: bool, pick: nat, n: nat)
    requires CanAdvance(s, t, ok, pick) && ThreadOk(s, t) && ShutdownOk(s, t)
    requires n < |s.streams| && OnceOk(s, n)
    ensures HasClosed(AdvanceThread(s, t, ok, pick), n) ==
              (HasClosed(s, n) || (s.threads[t].pc.ShutClose? && s.threads[t].stream == n))
  {
    hide NextPc, NextStreams;
    StreamChanges(s, t, ok, pick, n);
    ShutdownPcs(s, t, ok, pick);
  }

  lemma ReadingFollowsDone(s: State, n: nat)
    requires n < |s.streams| && OnceOk(s, n) && HasRead(s, n)
    requires s.streams[n].once.Running? ==> ShutdownOk(s, s.streams[n].once.thread)
    ensures s.streams[n].done
  {
  }

  /** The opener checks `done` and hands its source over under one lock, which a shutdown that has
      closed `done` still has to take before it looks for the source. */
  lemma AdvanceKeepsHandoverOk(s: State, t: nat, ok: bool, pick: nat, n: nat)
    requires CanAdvance(s, t, ok, pick) && ThreadOk(s, t) && ShutdownOk(s, t)
    requires n < |s.streams| && OpenedOk(s, n) && OnceOk(s, n) && HandoverOk(s, n) && ThreadOk(s, s.streams[n].opener)
    requires s.streams[n].once.Running? ==> ShutdownOk(s, s.streams[n].once.thread)
    requires OpenedOk(AdvanceThread(s, t, ok, pick), n)
    ensures HandoverOk(AdvanceThread(s, t, ok, pick), n)
  {
    hide NextPc, NextStreams, HasRead, CloseSource, NextSources, NextRegistry, Registered, OnceOk;
    StreamChanges(s, t, ok, pick, n);
    HasReadChanges(s, t, ok, pick, n);
    if HasRead(s, n) {
      ReadingFollowsDone(s, n);
    }
    if s.streams[n].opener == t {
      OpeningPcs(s, t, ok, pick);
    }
  }

  lemma AdvanceKeepsReceiversOk(s: State, t: nat, ok: bool, pick: nat, n: nat)
    requires CanAdvance(s, t, ok, pick) && ThreadOk(s, t) && MembershipOk(s, t)
    requires n < |s.streams| && ReceiversOk(s, n)
    ensures n < |AdvanceThread(s, t, ok, pick).streams| && ReceiversOk(AdvanceThread(s, t, ok, pick), n)
  {
    hide NextPc, NextStreams, NextRegistry, NextSources, Registered;
    StreamChanges(s, t, ok, pick, n);
    SubscriptionPcs(s, t, ok, pick);
  }

  lemma AdvanceKeepsRegistryOk(s: State, t: nat, ok: bool, pick: nat)
    requires CanAdvance(s, t, ok, pick) && ThreadOk(s, t) && RegistryOk(s)
    ensures RegistryOk(AdvanceThread(s, t, ok, pick))
  {
    LocksAreWanted(s, t, ok, pick);
  }

  /** The step closes source x. */
  predicate Closes(s: State, t: nat, x: nat)
    requires t < |s.threads|
  {
    var me := s.threads[t];
    (me.pc.OpenDiscard? && me.ownSource == Some(x)) || (me.pc.ShutClose? && me.seen == Some(x))
  }

  lemma SourcesOnlyClose(s: State, t: nat, ok: bool, pick: nat, x: nat)
    requires CanAdvance(s, t, ok, pick) && x < |s.sources|
    ensures |s.sources| <= |NextSources(s, t, ok)|
    ensures NextSources(s, t, ok)[x].stream == s.sources[x].stream
    ensures NextSources(s, t, ok)[x].closes == s.sources[x].closes + (if Closes(s, t, x) then 1 else 0)
  {
  }

  /** Only the opener of a source, or the one shutdown of its stream, closes it. */
  lemma ClosesOwnStream(s: State, t: nat, x: nat)
    requires t < |s.threads| && ThreadOk(s, t) && ShutdownOk(s, t) && Closes(s, t, x)
    requires OpenedOk(s, s.threads[t].stream) && OpenerOk(s, s.threads[t].stream) && ClaimOk(s, s.threads[t].stream)
    ensures x < |s.sources| && s.sources[x].stream == s.threads[t].stream
    ensures s.threads[t].pc.OpenDiscard? ==> s.streams[s.threads[t].stream].opener == t
  {
  }

  /** A source is closed by the step of its opener that discards it, or by the shutdown that read it. */
  lemma AdvanceKeepsSourceOk(s: State, t: nat, ok: bool, pick: nat, x: nat)
    requires CanAdvance(s, t, ok, pick) && ThreadOk(s, t) && ShutdownOk(s, t)
    requires x < |s.sources| && SourceOk(s, x)
    requires Closes(s, t, x) ==> s.sources[x].stream == s.threads[t].stream
    requires var n := s.sources[x].stream;
             OpenedOk(s, n) && OnceOk(s, n) && OpenerOk(s, n) && ClaimOk(s, n) && HandoverOk(s, n)
    ensures SourceOk(AdvanceThread(s, t, ok, pick), x)
  {
    hide NextPc, NextStreams, NextRegistry, NextSources, CloseSource;
    SourcesOnlyClose(s, t, ok, pick, x);
    var n := s.sources[x].stream;
    HasClosedChanges(s, t, ok, pick, n);
    StreamChanges(s, t, ok, pick, n);
    if s.streams[n].opener == t {
      OpenerKeepsSourceOk(s, t, ok, pick, x);
    }
  }

  lemma OpenerKeepsSourceOk(s: State, t: nat, ok: bool, pick: nat, x: nat)
    requires CanAdvance(s, t, ok, pick) && ThreadOk(s, t) && s.threads[t].kind.Opener?
    requires x < |s.sources| && SourceOk(s, x) && s.sources[x].stream == s.threads[t].stream
    requires OpenerOk(s, s.threads[t].stream) && ClaimOk(s, s.threads[t].stream) && HandoverOk(s, s.threads[t].stream)
    requires x < |NextSources(s, t, ok)| && NextSources(s, t, ok)[x].stream == s.sources[x].stream
    requires NextSources(s, t, ok)[x].closes == s.sources[x].closes + (if Closes(s, t, x) then 1 else 0)
    requires HasClosed(AdvanceThread(s, t, ok, pick), s.threads[t].stream) ==
               (HasClosed(s, s.threads[t].stream) || s.threads[t].pc.ShutClose?)
    ensures SourceOk(AdvanceThread(s, t, ok, pick), x)
  {
    hide NextPc, NextStreams, NextRegistry, NextSources, CloseSource;
    assert s.threads[t].ownSource == Some(x);
    OpeningPcs(s, t, ok, pick);
    StreamChanges(s, t, ok, pick, s.threads[t].stream);
  }

  lemma AdvanceAddsOkSource(s: State, t: nat, ok: bool, pick: nat, x: nat)
    requires CanAdvance(s, t, ok, pick) && ThreadOk(s, t)
    requires UsesStream(s.threads[t].pc) ==> OpenedOk(s, s.threads[t].stream) && OpenerOk(s, s.threads[t].stream)
    requires |s.sources| <= x < |AdvanceThread(s, t, ok, pick).sources|
    ensures SourceOk(AdvanceThread(s, t, ok, pick), x)
  {
  }

  lemma AdvanceAddsOkStream(s: State, t: nat, ok: bool, pick: nat, n: nat)
    requires CanAdvance(s, t, ok, pick) && ThreadOk(s, t)
    requires |s.streams| <= n < |AdvanceThread(s, t, ok, pick).streams|
    ensures var s' := AdvanceThread(s, t, ok, pick);
            && StreamOk(s', n) && OpenerOk(s', n) && ClaimOk(s', n) && HandoverOk(s', n)
            && ReceiversOk(s', n) && LiveOk(s', n)
  {
  }

  lemma CommittedStays(s: State, t: nat, ok: bool, pick: nat, n: nat, c: nat)
    requires CanAdvance(s, t, ok, pick)
    requires n < |s.streams| && s.streams[n].once.NotRun? && IsCommitted(s, c, n)
    requires c < |s.threads| && ThreadOk(s, c)
    requires n < |AdvanceThread(s, t, ok, pick).streams| && AdvanceThread(s, t, ok, pick).streams[n].once.NotRun?
    ensures IsCommitted(AdvanceThread(s, t, ok, pick), c, n)
  {
  }

  /** Whoever takes a stream out of the registry goes on to shut it down. */
  lemma UnregisteringCommits(s: State, t: nat, ok: bool, pick: nat, n: nat)
    requires CanAdvance(s, t, ok, pick)
    requires Registered(s, n) && !Registered(AdvanceThread(s, t, ok, pick), n)
    ensures IsCommitted(AdvanceThread(s, t, ok, pick), t, n)
  {
    assert s.registry[s.streams[n].key] in s.registry.Values;
  }

  lemma AdvanceKeepsLiveOk(s: State, t: nat, ok: bool, pick: nat, n: nat)
    requires CanAdvance(s, t, ok, pick) && ThreadOk(s, t) && MembershipOk(s, t)
    requires n < |s.streams| && LiveOk(s, n)
    requires forall c | 0 <= c < |s.threads| :: ThreadInv(s, c)
    ensures n < |AdvanceThread(s, t, ok, pick).streams| && LiveOk(AdvanceThread(s, t, ok, pick), n)
  {
    var s' := AdvanceThread(s, t, ok, pick);
    RegisteredShrinks(s, t, ok, pick, n);
    LocksAreWanted(s, t, ok, pick);
    if !Registered(s', n) && s'.streams[n].once.NotRun? {
      if Registered(s, n) {
        UnregisteringCommits(s, t, ok, pick, n);
      } else {
        var c :| IsCommitted(s, c, n);
        assert ThreadInv(s, c);
        CommittedStays(s, t, ok, pick, n, c);
      }
    }
  }

  // ---------------------------------------------------------------------------------------------
  // Every run keeps the invariant
  // ---------------------------------------------------------------------------------------------

  lemma AdvanceKeepsThreadInv(s: State, t: nat, ok: bool, pick: nat, u: nat)
    requires Inv(s) && CanAdvance(s, t, ok, pick)
    requires u < |AdvanceThread(s, t, ok, pick).threads|
    ensures ThreadInv(AdvanceThread(s, t, ok, pick), u)
  {
    assert ThreadInv(s, t);
    if UsesStream(s.threads[t].pc) {
      assert StreamInv(s, s.threads[t].stream);
    }
    if u < |s.threads| {
      assert ThreadInv(s, u);
    }
    AdvanceKeepsPendingOk(s, t, ok, pick, u);
    if u == t {
      AdvanceKeepsOwnThread(s, t, ok, pick);
      AdvanceKeepsOwnMembership(s, t, ok, pick);
      AdvanceKeepsOwnShutdown(s, t, ok, pick);
    } else if u < |s.threads| {
      AdvanceKeepsOtherThread(s, t, ok, pick, u);
      AdvanceKeepsOtherMembership(s, t, ok, pick, u);
      AdvanceKeepsOtherShutdown(s, t, ok, pick, u);
    } else {
      AdvanceSpawnsOkThread(s, t, ok, pick, u);
      AdvanceSpawnsOkMembership(s, t, ok, pick, u);
    }
  }

  lemma AdvanceKeepsOldOpenerOk(s: State, t: nat, ok: bool, pick: nat, n: nat)
    requires CanAdvance(s, t, ok, pick) && ThreadOk(s, t)
    requires n < |s.streams| && OpenedOk(s, n) && OpenerOk(s, n) && ClaimOk(s, n)
    requires OpenedOk(AdvanceThread(s, t, ok, pick), n)
    ensures OpenerOk(AdvanceThread(s, t, ok, pick), n)
  {
    if s.streams[n].opener != t {
      OthersKeepOpenerOk(s, t, ok, pick, n);
    } else if InOpen(s.threads[t].pc) {
      OpenerKeepsOpenerOk(s, t, ok, pick);
    } else {
      FailedOpenerKeepsOpenerOk(s, t, ok, pick);
    }
  }

  lemma AdvanceKeepsStreamInv(s: State, t: nat, ok: bool, pick: nat, n: nat)
    requires Inv(s) && CanAdvance(s, t, ok, pick)
    requires n < |AdvanceThread(s, t, ok, pick).streams|
    ensures StreamInv(AdvanceThread(s, t, ok, pick), n)
  {
    assert ThreadInv(s, t);
    if n < |s.streams| {
      assert StreamInv(s, n) && ThreadInv(s, s.streams[n].opener);
      if s.streams[n].once.Running? {
        assert ThreadInv(s, s.streams[n].once.thread);
      }
      AdvanceKeepsOpenedOk(s, t, ok, pick, n);
      AdvanceKeepsLockOk(s, t, ok, pick, n);
      AdvanceKeepsOnceOk(s, t, ok, pick, n);
      AdvanceKeepsOldOpenerOk(s, t, ok, pick, n);
      AdvanceKeepsClaimOk(s, t, ok, pick, n);
      AdvanceKeepsHandoverOk(s, t, ok, pick, n);
      AdvanceKeepsReceiversOk(s, t, ok, pick, n);
      AdvanceKeepsLiveOk(s, t, ok, pick, n);
    } else {
      AdvanceAddsOkStream(s, t, ok, pick, n);
    }
  }

  lemma AdvanceKeepsSourceInv(s: State, t: nat, ok: bool, pick: nat, x: nat)
    requires Inv(s) && CanAdvance(s, t, ok, pick)
    requires x < |AdvanceThread(s, t, ok, pick).sources|
    ensures SourceOk(AdvanceThread(s, t, ok, pick), x)
  {
    assert ThreadInv(s, t);
    if UsesStream(s.threads[t].pc) {
      assert StreamInv(s, s.threads[t].stream);
    }
    if x < |s.sources| {
      assert SourceOk(s, x) && StreamInv(s, s.sources[x].stream);
      if Closes(s, t, x) {
        ClosesOwnStream(s, t, x);
      }
      AdvanceKeepsSourceOk(s, t, ok, pick, x);
    } else {
      AdvanceAddsOkSource(s, t, ok, pick, x);
    }
  }

  lemma AdvanceKeepsInv(s: State, t: nat, ok: bool, pick: nat)
    requires Inv(s) && CanAdvance(s, t, ok, pick)
    ensures Inv(AdvanceThread(s, t, ok, pick))
  {
    var s' := AdvanceThread(s, t, ok, pick);
    assert ThreadInv(s, t);
    AdvanceKeepsRegistryOk(s, t, ok, pick);
    forall u | 0 <= u < |s'.threads| ensures ThreadInv(s', u) {
      AdvanceKeepsThreadInv(s, t, ok, pick, u);
    }
    forall n | 0 <= n < |s'.streams| ensures StreamInv(s', n) {
      AdvanceKeepsStreamInv(s, t, ok, pick, n);
    }
    forall x | 0 <= x < |s'.sources| ensures SourceOk(s', x) {
      AdvanceKeepsSourceInv(s, t, ok, pick, x);
    }
  }

  lemma CallKeepsStreamInv(s: State, a: Action, n: nat)
    requires Inv(s) && !a.Advance? && n < |s.streams|
    ensures StreamInv(Apply(s, a), n)
  {
    var s' := Apply(s, a);
    assert StreamInv(s, n);
    if !Registered(s, n) && s.streams[n].once.NotRun? {
      var c :| IsCommitted(s, c, n);
      assert IsCommitted(s', c, n);
    }
  }

  lemma CallKeepsThreadInv(s: State, a: Action, u: nat)
    requires Inv(s) && !a.Advance? && u < |Apply(s, a).threads|
    ensures ThreadInv(Apply(s, a), u)
  {
    hide StreamInv, SourceOk;
    if u < |s.threads| {
      assert ThreadInv(s, u);
    }
  }

  lemma CallKeepsSourceOk(s: State, a: Action, x: nat)
    requires Inv(s) && !a.Advance? && x < |s.sources|
    ensures SourceOk(Apply(s, a), x)
  {
    hide ThreadInv, RegistryOk;
    assert SourceOk(s, x) && StreamInv(s, s.sources[x].stream);
  }

  lemma CallKeepsInv(s: State, a: Action)
    requires Inv(s) && !a.Advance?
    ensures Inv(Apply(s, a))
  {
    var s' := Apply(s, a);
    hide ThreadInv, StreamInv, SourceOk;
    forall u | 0 <= u < |s'.threads| ensures ThreadInv(s', u) {
      CallKeepsThreadInv(s, a, u);
    }
    forall n | 0 <= n < |s'.streams| ensures StreamInv(s', n) {
      CallKeepsStreamInv(s, a, n);
    }
    forall x | 0 <= x < |s'.sources| ensures SourceOk(s', x) {
      CallKeepsSourceOk(s, a, x);
    }
  }

  lemma {:induction false} TraceKeepsInv(states: seq<State>, actions: seq<Action>, k: nat)
    requires Trace(states, actions) && k < |states|
    ensures Inv(states[k])
  {
    if k > 0 {
      TraceKeepsInv(states, actions, k - 1);
      match actions[k - 1]
      case Advance(t, ok, pick) => AdvanceKeepsInv(states[k - 1], t, ok, pick);
      case _ => CallKeepsInv(states[k - 1], actions[k - 1]);
    }
  }

  // ---------------------------------------------------------------------------------------------
  // What the capture service promises
  // ---------------------------------------------------------------------------------------------

  /** No source is closed twice or before its stream ends, and none leaks: once a stream's opening
      and its shutdown have both finished, exactly one of them has closed what was opened. */
  lemma EverySourceIsClosedOnce(states: seq<State>, actions: seq<Action>, k: nat, x: nat)
    requires Trace(states, actions) && k < |states| && x < |states[k].sources|
    ensures var s := states[k]; var n := s.sources[x].stream;
            && s.sources[x].closes <= 1
            && n < |s.streams| && s.streams[n].opener < |s.threads|
            && (s.sources[x].closes == 1 ==> s.streams[n].done)
            && (s.threads[s.streams[n].opener].pc.Gone? && s.streams[n].once.Finished? ==> s.sources[x].closes == 1)
            && (forall y | 0 <= y < |s.sources| && s.sources[y].stream == n :: y == x)
  {
    TraceKeepsInv(states, actions, k);
    var s := states[k];
    assert SourceOk(s, x);
    var n := s.sources[x].stream;
    assert StreamInv(s, n);
    if s.streams[n].once.Running? {
      assert ThreadInv(s, s.streams[n].once.thread);
    }
    forall y | 0 <= y < |s.sources| && s.sources[y].stream == n ensures y == x {
      assert SourceOk(s, y);
    }
  }

  /** Whenever the registry lock is free: a registered stream is not shut down and has a receiver,
      no other stream is registered for its key, a closed service has nothing registered, and for
      every other stream that is not shut down yet there is a thread committed to doing it. */
  lemma RegistryHoldsTheLiveStreams(states: seq<State>, actions: seq<Action>, k: nat, n: nat)
    requires Trace(states, actions) && k < |states| && states[k].registryLock.None?
    requires n < |states[k].streams|
    ensures var s := states[k];
            && (Registered(s, n) ==> s.streams[n].once.NotRun? && !s.streams[n].done && s.streams[n].receivers != {})
            && (Registered(s, n) ==> forall m: nat | Registered(s, m) && s.streams[m].key == s.streams[n].key :: m == n)
            && (s.closed ==> s.registry == map[])
            && (!Registered(s, n) && s.streams[n].once.NotRun? ==>
                  exists t | 0 <= t < |s.threads| ::
                    || (s.threads[t].pc.ShutOnce? && s.threads[t].stream == n)
                    || n in s.threads[t].pending)
  {
    TraceKeepsInv(states, actions, k);
    var s := states[k];
    assert StreamInv(s, n);
    if !Registered(s, n) && s.streams[n].once.NotRun? {
      var t :| IsCommitted(s, t, n);
    }
  }

  /** The receivers of a stream are exactly the sessions that joined it and have not left it yet. */
  lemma ReceiversAreTheJoinedSessions(states: seq<State>, actions: seq<Action>, k: nat, n: nat, t: nat)
    requires Trace(states, actions) && k < |states|
    requires n < |states[k].streams| && t < |states[k].threads|
    ensures t in states[k].streams[n].receivers <==>
              states[k].threads[t].stream == n && IsSubscribed(states[k].threads[t].pc)
  {
    TraceKeepsInv(states, actions, k);
    assert StreamInv(states[k], n) && ThreadInv(states[k], t);
  }

  /** Nothing is left to do until a session leaves, a capture ends or a new call comes in. */
  predicate IsIdle(s: State, t: nat)
    requires t < |s.threads|
  {
    var me := s.threads[t];
    me.pc.Gone? || me.pc.Reading? || (me.pc.Watching? && me.stream < |s.streams| && !s.streams[me.stream].done)
  }

  /** Whoever owns the registry lock or a shutdown, or is committed to one, has something left to do. */
  lemma OwnersAreBusy(s: State, n: nat)
    requires Inv(s) && n < |s.streams|
    ensures s.registryLock.Some? || s.streams[n].once.Running? || (s.streams[n].once.NotRun? && !Registered(s, n)) ==>
              exists t | 0 <= t < |s.threads| :: !IsIdle(s, t)
  {
    assert StreamInv(s, n);
    if s.registryLock.Some? {
      assert !IsIdle(s, s.registryLock.value);
    } else if s.streams[n].once.Running? {
      assert !IsIdle(s, s.streams[n].once.thread);
    } else if s.streams[n].once.NotRun? && !Registered(s, n) {
      var t :| IsCommitted(s, t, n);
      assert ThreadInv(s, t);
      assert !IsIdle(s, t);
    }
  }

  /** In quiescent states the streams that are alive are exactly the registered ones, each of them
      is watched, and everything opened for the others has been closed. */
  lemma QuiescentCapturesAreWatched(states: seq<State>, actions: seq<Action>, k: nat, n: nat)
    requires Trace(states, actions) && k < |states| && n < |states[k].streams|
    requires forall t | 0 <= t < |states[k].threads| :: IsIdle(states[k], t)
    ensures var s := states[k];
            && (!s.streams[n].done <==> Registered(s, n))
            && (!s.streams[n].done <==>
                  exists t | 0 <= t < |s.threads| :: s.threads[t].pc.Watching? && s.threads[t].stream == n)
            && (forall x | 0 <= x < |s.sources| && s.sources[x].stream == n ::
                  s.sources[x].closes == if s.streams[n].done then 1 else 0)
  {
    TraceKeepsInv(states, actions, k);
    var s := states[k];
    OwnersAreBusy(s, n);
    assert StreamInv(s, n) && s.registryLock.None?;
    assert IsIdle(s, s.streams[n].opener) && ThreadInv(s, s.streams[n].opener);
    RegistryHoldsTheLiveStreams(states, actions, k, n);
    if Registered(s, n) {
      var t :| t in s.streams[n].receivers;
      assert IsIdle(s, t);
      assert s.threads[t].pc.Watching? && s.threads[t].stream == n;
    }
    forall t | 0 <= t < |s.threads| && s.threads[t].pc.Watching? && s.threads[t].stream == n
      ensures !s.streams[n].done
    {
      assert IsIdle(s, t);
    }
    forall x | 0 <= x < |s.sources| && s.sources[x].stream == n
      ensures s.sources[x].closes == if s.streams[n].done then 1 else 0
    {
      EverySourceIsClosedOnce(states, actions, k, x);
    }
  }

  // ---------------------------------------------------------------------------------------------
  // Lock order
  // ---------------------------------------------------------------------------------------------

  /** A step that needs no session to leave and no capture to end. */
  predicate AdvancesAlone(s: State, t: nat, ok: bool, pick: nat) {
    && CanAdvance(s, t, ok, pick)
    && !s.threads[t].pc.Watching? && !s.threads[t].pc.Reading?
    && (s.threads[t].pc.SubWaitOpen? ==> ok)
  }

  ghost predicate SomeoneAdvances(s: State) {
    exists t, ok, pick :: AdvancesAlone(s, t, ok, pick)
  }

  lemma StreamHolderAdvances(s: State, n: nat)
    requires Inv(s) && n < |s.streams| && s.streams[n].lock.Some?
    ensures SomeoneAdvances(s)
  {
    assert StreamInv(s, n);
    var h := s.streams[n].lock.value;
    assert ThreadInv(s, h);
    assert AdvancesAlone(s, h, true, 0);
  }

  lemma RegistryHolderAdvances(s: State)
    requires Inv(s) && s.registryLock.Some?
    ensures SomeoneAdvances(s)
  {
    var h := s.registryLock.value;
    assert ThreadInv(s, h);
    if WantsStream(s.threads[h].pc) && s.streams[s.threads[h].stream].lock.Some? {
      StreamHolderAdvances(s, s.threads[h].stream);
    } else {
      assert AdvancesAlone(s, h, true, 0);
    }
  }

  lemma ShutdownAdvances(s: State, n: nat)
    requires Inv(s) && n < |s.streams| && s.streams[n].once.Running?
    ensures SomeoneAdvances(s)
  {
    assert StreamInv(s, n);
    var u := s.streams[n].once.thread;
    assert ThreadInv(s, u);
    if WantsStream(s.threads[u].pc) && s.streams[n].lock.Some? {
      StreamHolderAdvances(s, n);
    } else {
      assert AdvancesAlone(s, u, true, 0);
    }
  }

  lemma BusyThreadAdvances(s: State, t: nat)
    requires Inv(s) && t < |s.threads|
    requires !s.threads[t].pc.Gone? && !s.threads[t].pc.Watching?
    requires !s.threads[t].pc.Reading? && !s.threads[t].pc.SubWaitOpen?
    ensures SomeoneAdvances(s)
  {
    var me := s.threads[t];
    assert ThreadInv(s, t);
    if WantsRegistry(me.pc) && s.registryLock.Some? {
      RegistryHolderAdvances(s);
    } else if WantsStream(me.pc) && s.streams[me.stream].lock.Some? {
      StreamHolderAdvances(s, me.stream);
    } else if me.pc.ShutOnce? && s.streams[me.stream].once.Running? {
      ShutdownAdvances(s, me.stream);
    } else if me.pc.CloseNext? && me.pending != {} {
      var pick :| pick in me.pending;
      assert pick < |s.streams| by { assert PendingOk(s, t); }
      assert AdvancesAlone(s, t, true, pick);
    } else {
      assert AdvancesAlone(s, t, true, 0);
    }
  }

  /** Taking the registry lock before a stream's rules out deadlock: as long as a thread has more to
      do than watch or read, some thread can take a step, without any session leaving. */
  lemma CapturesNeverDeadlock(states: seq<State>, actions: seq<Action>, k: nat, t: nat)
    requires Trace(states, actions) && k < |states| && t < |states[k].threads|
    requires !states[k].threads[t].pc.Gone? && !states[k].threads[t].pc.Watching? && !states[k].threads[t].pc.Reading?
    ensures exists u, ok, pick :: AdvancesAlone(states[k], u, ok, pick)
  {
    TraceKeepsInv(states, actions, k);
    var s := states[k];
    var me := s.threads[t];
    if me.pc.SubWaitOpen? {
      assert ThreadInv(s, t) && StreamInv(s, me.stream);
      if s.streams[me.stream].isOpened {
        assert AdvancesAlone(s, t, true, 0);
      } else {
        var o := s.streams[me.stream].opener;
        assert ThreadInv(s, o);
        BusyThreadAdvances(s, o);
      }
    } else {
      BusyThreadAdvances(s, t);
    }
  }

  // ---------------------------------------------------------------------------------------------
  // Every run settles
  // ---------------------------------------------------------------------------------------------

  /** An upper bound on the steps a thread still takes, apart from reading packets. It pays for the threads it
      starts, and a session that starts a stream pays for the shutdown by a Close. */
  function Rank(pc: Pc): nat {
    match pc
    case SubWantRegistry => 41
    case SubInRegistry => 40
    case SubWantStream => 16
    case SubAddReceiver => 15
    case SubLeaveRegistry => 14
    case SubWaitOpen => 13
    case Watching => 12
    case UnsubWantRegistry => 11
    case UnsubWantStream => 10
    case UnsubRemove => 9
    case UnsubLeave => 8
    case OpenCalling => 16
    case OpenWantStream => 15
    case OpenCheck => 14
    case OpenSet => 13
    case OpenStart => 12
    case OpenDiscard => 2
    case OpenSignal => 1
    case Reading => 10
    case EndWantRegistry => 9
    case EndRemove => 8
    case CloseWantRegistry => 3
    case CloseTake => 2
    case CloseNext => 1
    case ShutOnce => 7
    case ShutCancel => 6
    case ShutWantStream => 5
    case ShutRead => 4
    case ShutClose => 3
    case ShutFinish => 2
    case Gone => 0
  }

  function ThreadRank(thread: Thread): nat {
    Rank(thread.pc) + 7 * |thread.pending|
  }

  function TotalRank(threads: seq<Thread>): nat {
    if threads == [] then 0 else ThreadRank(threads[0]) + TotalRank(threads[1..])
  }

  function Work(s: State): nat {
    TotalRank(s.threads) + 7 * |s.registry|
  }

  lemma {:induction false} TotalOfUpdate(threads: seq<Thread>, t: nat, thread: Thread)
    requires t < |threads|
    ensures TotalRank(threads[t := thread]) + ThreadRank(threads[t]) == TotalRank(threads) + ThreadRank(thread)
  {
    var updated := threads[t := thread];
    if t == 0 {
      assert updated[1..] == threads[1..];
    } else {
      assert updated[1..] == threads[1..][t - 1 := thread];
      TotalOfUpdate(threads[1..], t - 1, thread);
    }
  }

  lemma {:induction false} TotalOfAppend(threads: seq<Thread>, more: seq<Thread>)
    ensures TotalRank(threads + more) == TotalRank(threads) + TotalRank(more)
  {
    if threads == [] {
      assert threads + more == more;
    } else {
      assert (threads + more)[1..] == threads[1..] + more;
      TotalOfAppend(threads[1..], more);
    }
  }

  lemma {:induction false} NotMoreValues(m: map<string, nat>)
    ensures |m.Values| <= |m|
    decreases |m|
  {
    if key :| key in m {
      var rest := m - {key};
      NotMoreValues(rest);
      assert m.Values == rest.Values + {m[key]} by {
        forall x | x in m.Values ensures x in rest.Values + {m[key]} {
          var k :| k in m && m[k] == x;
          assert k != key ==> k in rest && rest[k] == x;
        }
        forall x | x in rest.Values ensures x in m.Values {
          var k :| k in rest && rest[k] == x;
          assert k in m && m[k] == x;
        }
      }
      assert m == rest[key := m[key]];
    }
  }

  lemma RegistrySize(s: State, t: nat)
    requires t < |s.threads|
    ensures |NextRegistry(s, t)| <= |s.registry| + if StartsStream(s, s.threads[t]) then 1 else 0
    ensures s.threads[t].pc.CloseTake? ==> |NextRegistry(s, t)| == 0
  {
    var n := s.threads[t].stream;
    if n < |s.streams| && s.streams[n].key in s.registry {
      var rest := s.registry - {s.streams[n].key};
      assert s.registry == rest[s.streams[n].key := s.registry[s.streams[n].key]];
    }
  }

  lemma PendingSize(s: State, t: nat, ok: bool, pick: nat)
    requires CanAdvance(s, t, ok, pick)
    ensures var me, next := s.threads[t], NextThread(s, t, ok, pick);
            && (me.pc.CloseTake? ==> |next.pending| <= |s.registry|)
            && (me.pc.CloseNext? && me.pending != {} ==> |next.pending| == |me.pending| - 1)
            && (!me.pc.CloseTake? ==> |next.pending| <= |me.pending|)
  {
    hide NextPc;
    NotMoreValues(s.registry);
    var me := s.threads[t];
    if me.pc.CloseNext? && me.pending == {} {
      assert me.pending - {pick} == {};
    }
  }

  lemma SpawnedRank(s: State, t: nat)
    requires t < |s.threads|
    ensures TotalRank(Spawned(s, t)) ==
              if StartsStream(s, s.threads[t]) then 16 else if s.threads[t].pc.OpenStart? then 10 else 0
  {
    var spawned := Spawned(s, t);
    assert TotalRank([]) == 0;
    if spawned != [] {
      assert spawned[1..] == [] && spawned[0].pending == {};
    }
  }

  predicate ReadsPacket(s: State, t: nat, ok: bool) {
    t < |s.threads| && s.threads[t].pc.Reading? && ok
  }

  /** What the thread's own rank loses, but for what it starts, takes over or takes on. */
  lemma PcRankFalls(s: State, t: nat, ok: bool, pick: nat)
    requires CanAdvance(s, t, ok, pick) && !ReadsPacket(s, t, ok)
    ensures var pc, next := s.threads[t].pc, NextPc(s, t, ok);
            && (StartsStream(s, s.threads[t]) ==> Rank(next) + 24 <= Rank(pc))
            && (pc.OpenStart? ==> Rank(next) + 11 <= Rank(pc))
            && (pc.CloseNext? && s.threads[t].pending != {} ==> Rank(next) <= Rank(pc) + 6)
            && (!pc.CloseNext? || s.threads[t].pending == {} ==> Rank(next) < Rank(pc))
  {
    if InSubscribe(s.threads[t].pc) || InUnsubscribe(s.threads[t].pc) {
      hide AfterShutdown;
    }
  }

  /** Every step but the reading of a packet lowers the work that is left. */
  lemma AdvanceLowersWork(s: State, t: nat, ok: bool, pick: nat)
    requires CanAdvance(s, t, ok, pick)
    ensures ReadsPacket(s, t, ok) ==> Work(AdvanceThread(s, t, ok, pick)) <= Work(s)
    ensures !ReadsPacket(s, t, ok) ==> Work(AdvanceThread(s, t, ok, pick)) < Work(s)
  {
    hide NextPc, NextStreams, NextRegistry, NextSources, Spawned, TotalRank, Rank, StartsStream;
    var next := NextThread(s, t, ok, pick);
    RegistrySize(s, t);
    PendingSize(s, t, ok, pick);
    SpawnedRank(s, t);
    TotalOfUpdate(s.threads, t, next);
    TotalOfAppend(s.threads[t := next], Spawned(s, t));
    if ReadsPacket(s, t, ok) {
      ReadingChangesNothing(s, t, ok);
    } else {
      PcRankFalls(s, t, ok, pick);
      OnlySubscribersStart(s, t);
    }
  }

  lemma ReadingChangesNothing(s: State, t: nat, ok: bool)
    requires ReadsPacket(s, t, ok) && (UsesStream(s.threads[t].pc) ==> s.threads[t].stream < |s.streams|)
    ensures NextPc(s, t, ok) == s.threads[t].pc && !StartsStream(s, s.threads[t])
  {
  }

  lemma OnlySubscribersStart(s: State, t: nat)
    requires t < |s.threads|
    ensures StartsStream(s, s.threads[t]) ==> s.threads[t].pc.SubInRegistry?
  {
  }

  /** How many packets are read from step j on. */
  function Packets(states: seq<State>, actions: seq<Action>, j: nat): nat
    requires j <= |actions| <= |states|
    decreases |actions| - j
  {
    if j == |actions| then 0
    else (if actions[j].Advance? && ReadsPacket(states[j], actions[j].thread, actions[j].ok) then 1 else 0)
         + Packets(states, actions, j + 1)
  }

  /** After the last call, all but a bounded number of steps read packets, however the threads interleave. */
  lemma {:induction false} RunsAreBounded(states: seq<State>, actions: seq<Action>, j: nat)
    requires Trace(states, actions) && j <= |actions|
    requires forall k | j <= k < |actions| :: actions[k].Advance?
    ensures |actions| - j <= Work(states[j]) + Packets(states, actions, j)
    decreases |actions| - j
  {
    hide CanAdvance, AdvanceThread, Work, ReadsPacket;
    if j < |actions| {
      RunsAreBounded(states, actions, j + 1);
      AdvanceLowersWork(states[j], actions[j].thread, actions[j].ok, actions[j].pick);
    }
  }

  /** A step that does not wait for packets, for a session that watches a live stream, or for it to give up. */
  predicate MustAdvance(s: State, t: nat, ok: bool, pick: nat) {
    && CanAdvance(s, t, ok, pick)
    && !IsIdle(s, t)
    && (s.threads[t].pc.SubWaitOpen? ==> ok)
  }

  lemma StuckIsIdle(states: seq<State>, actions: seq<Action>, k: nat, t: nat)
    requires Trace(states, actions) && k < |states| && t < |states[k].threads|
    requires forall u, ok, pick :: !MustAdvance(states[k], u, ok, pick)
    ensures IsIdle(states[k], t)
  {
    var s := states[k];
    TraceKeepsInv(states, actions, k);
    assert ThreadInv(s, t);
    if !IsIdle(s, t) {
      if s.threads[t].pc.Watching? {
        assert MustAdvance(s, t, true, 0);
      } else {
        CapturesNeverDeadlock(states, actions, k, t);
        var u, ok, pick :| AdvancesAlone(s, u, ok, pick);
        assert MustAdvance(s, u, ok, pick);
      }
    }
  }

  /** After the last call, every run takes only so many steps besides reading packets, and once it can go no further
      but by reading packets or by sessions that stop watching live streams, the streams that are alive are exactly
      the registered and watched ones, and whatever was opened for the others has been closed. */
  lemma EveryRunSettles(states: seq<State>, actions: seq<Action>, j: nat)
    requires Trace(states, actions) && j <= |actions|
    requires forall k | j <= k < |actions| :: actions[k].Advance?
    requires forall u, ok, pick :: !MustAdvance(states[|actions|], u, ok, pick)
    ensures |actions| - j <= Work(states[j]) + Packets(states, actions, j)
    ensures var s := states[|actions|];
            && (forall t | 0 <= t < |s.threads| :: IsIdle(s, t))
            && forall n | 0 <= n < |s.streams| ::
                 && (!s.streams[n].done <==> Registered(s, n))
                 && (!s.streams[n].done <==>
                       exists t | 0 <= t < |s.threads| :: s.threads[t].pc.Watching? && s.threads[t].stream == n)
                 && (forall x | 0 <= x < |s.sources| && s.sources[x].stream == n ::
                       s.sources[x].closes == if s.streams[n].done then 1 else 0)
  {
    hide IsIdle, MustAdvance, Work, Packets, Enabled, Apply;
    var s := states[|actions|];
    RunsAreBounded(states, actions, j);
    forall t | 0 <= t < |s.threads| ensures IsIdle(s, t) {
      StuckIsIdle(states, actions, |actions|, t);
    }
    forall n | 0 <= n < |s.streams|
      ensures !s.streams[n].done <==> Registered(s, n)
      ensures !s.streams[n].done <==>
                exists t | 0 <= t < |s.threads| :: s.threads[t].pc.Watching? && s.threads[t].stream == n
      ensures forall x | 0 <= x < |s.sources| && s.sources[x].stream == n ::
                s.sources[x].closes == if s.streams[n].done then 1 else 0
    {
      QuiescentCapturesAreWatched(states, actions, |actions|, n);
    }
  }
}
