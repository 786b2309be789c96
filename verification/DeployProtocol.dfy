/** DeployLab, DestroyLab and the node commands of the instance service, as a step system.

    Every call is a thread with a program counter. One action moves one thread across one atomic
    step: a lock operation, a context cancellation or installation, a write to the instance's
    state, or the return of a provider call (which may succeed or fail). Threads, instances and
    contexts are only ever added, so an index names the same one forever. */
module DeployProtocol {
  import opened Wrappers

  datatype InstanceState = Deploying | Running | Stopping | Failed

  /** `deploymentCtx` is the context installed last. A mutex holds the thread that owns it. */
  datatype Instance = Instance(
    uuid: string,
    nodes: nat,
    state: InstanceState,
    isDestroyed: bool,
    deploymentCtx: Option<nat>,
    deploymentMutex: Option<nat>,
    operationMutex: Option<nat>)

  datatype Context = Context(instance: nat, cancelled: bool)

  /** Who reads the context of an instance: DeployLab before it inspects the lab, StartNodeCommand before it calls
      the provider, fetchNode at the end of a node command, and the listeners of node events and startups. */
  datatype Caller = Inspection | NodeStart | NodeFetch | Listener

  datatype Pc =
    // DeployLab
    | DeployFound            // looked the instance up, wants DeploymentMutex
    | DeployLocked           // holds DeploymentMutex, has not canceled the previous context yet
    | DeployReplacing        // has canceled it, has not installed its own context yet
    | DeployWaiting          // wants OperationMutex
    | DeployAcquired         // holds OperationMutex, has not looked at its context yet
    | DeployChecked
    | DeployCalling          // inside the provider's Deploy or Redeploy
    | DeployInspecting       // inside the provider's InspectLab
    | DeployStreaming        // starts the log streams of `left` more nodes
    | DeployErrored          // got an error, has not looked at its context yet
    | DeployFailing
    | DeploySucceeding
    // DestroyLab
    | DestroyFound
    | DestroyLocked
    | DestroyWaiting
    | DestroyAcquired
    | DestroyCalling         // inside the provider's Destroy
    | DestroyFailing
    | DestroyMarking
    | DestroyDeleting
    // StartNodeCommand, which reads the context first, StopNodeCommand and RestartNodeCommand
    | NodeFound(starts: bool)
    | NodeHolding(starts: bool)  // holds OperationMutex, checks the node
    | NodeCalling            // inside the provider's StartNode, StopNode or RestartNode
    | NodeFetching           // inside the provider's InspectNode
    // deploymentContext, which all but the listeners call while they hold OperationMutex
    | ContextWaiting(caller: Caller)  // wants DeploymentMutex
    | ContextLocked(caller: Caller)   // holds it
    // all that hold OperationMutex
    | Releasing              // about to unlock it and return
    | Returned

  /** `ctx` is the context the call has installed, `left` counts the nodes whose logs are not streamed yet. */
  datatype Thread = Thread(lab: string, instance: nat, redeploy: bool, ctx: nat, left: nat, pc: Pc)

  datatype State = State(
    instances: map<string, nat>,
    heap: seq<Instance>,
    contexts: seq<Context>,
    threads: seq<Thread>)

  datatype Action =
    | CallDeploy(lab: string, nodes: nat, environmentOk: bool)
    | CallDestroy(lab: string)
    | CallNode(lab: string, starts: bool)
    | CallRead(instance: nat)
    | Advance(thread: nat, ok: bool)

  // ---------------------------------------------------------------------------------------------
  // Steps
  // ---------------------------------------------------------------------------------------------

  predicate WantsDeploymentMutex(pc: Pc) {
    pc.DeployFound? || pc.DestroyFound? || pc.ContextWaiting?
  }

  predicate WantsOperationMutex(pc: Pc) {
    pc.DeployWaiting? || pc.DestroyWaiting?
  }

  /** Only the two mutexes can make a call wait, and whoever owns OperationMutex may have to wait for
      DeploymentMutex. Node commands take OperationMutex by TryLock. The mutex of the instances and DataMutex
      guard sections that wait for no other mutex, so each of these is part of one step. */
  predicate CanAdvance(s: State, t: nat) {
    && t < |s.threads|
    && s.threads[t].instance < |s.heap|
    && !s.threads[t].pc.Returned?
    && var i := s.heap[s.threads[t].instance];
       && (WantsDeploymentMutex(s.threads[t].pc) ==> i.deploymentMutex.None?)
       && (WantsOperationMutex(s.threads[t].pc) ==> i.operationMutex.None?)
  }

  predicate Enabled(s: State, a: Action) {
    match a
    case Advance(t, _) => CanAdvance(s, t)
    case CallRead(n) => n < |s.heap|
    case _ => true
  }

  function IsCancelled(s: State, ctx: nat): bool {
    ctx < |s.contexts| && s.contexts[ctx].cancelled
  }

  function CancelLatest(s: State, i: nat): seq<Context>
    requires i < |s.heap|
  {
    match s.heap[i].deploymentCtx
    case Some(c) => if c < |s.contexts| then s.contexts[c := s.contexts[c].(cancelled := true)] else s.contexts
    case None => s.contexts
  }

  function Spawn(s: State, lab: string, instance: nat, redeploy: bool, pc: Pc): State {
    s.(threads := s.threads + [Thread(lab, instance, redeploy, 0, 0, pc)])
  }

  function AfterContext(caller: Caller): Pc {
    match caller
    case Inspection => DeployInspecting
    case NodeStart => NodeCalling
    case NodeFetch => NodeFetching
    case Listener => Returned
  }

  predicate ReadsContext(pc: Pc, caller: Caller) {
    (pc.ContextWaiting? || pc.ContextLocked?) && pc.caller == caller
  }

  predicate ReadsAnyContext(pc: Pc) {
    pc.ContextWaiting? || pc.ContextLocked?
  }

  predicate IsCommand(pc: Pc) {
    pc.NodeFound? || pc.NodeHolding? || pc.NodeCalling? || pc.NodeFetching? || pc.Releasing? || pc.Returned?
  }

  predicate IsEntering(pc: Pc) {
    pc.DeployFound? || pc.DeployLocked? || pc.DeployReplacing? || pc.DeployWaiting? || pc.DeployAcquired?
  }

  /** The part of DeployLab that runs once the context and the destroyed flag were checked. */
  predicate InDeployment(pc: Pc) {
    AbortsIfCancelled(pc) || pc.DeployFailing? || pc.DeploySucceeding?
  }

  /** The part of a deployment that may still return early, leaving the state as it is. */
  predicate AbortsIfCancelled(pc: Pc) {
    || pc.DeployChecked? || pc.DeployCalling? || ReadsContext(pc, Inspection) || pc.DeployInspecting?
    || pc.DeployStreaming? || pc.DeployErrored?
  }

  predicate InDestroy(pc: Pc) {
    || pc.DestroyFound? || pc.DestroyLocked? || pc.DestroyWaiting? || pc.DestroyAcquired?
    || pc.DestroyCalling? || pc.DestroyFailing? || pc.DestroyMarking? || pc.DestroyDeleting?
  }

  /** What one step of a thread leaves behind: the thread, its instance, and the shared parts. */
  datatype Effect = Effect(thread: Thread, instance: Instance, contexts: seq<Context>, instances: map<string, nat>)

  /** DeployLab up to the check of its context. */
  function EnterStep(s: State, t: nat, ok: bool): Effect
    requires CanAdvance(s, t)
  {
    var me := s.threads[t];
    var i := s.heap[me.instance];
    var cancelled := IsCancelled(s, me.ctx);
    var same := Effect(me, i, s.contexts, s.instances);
    match me.pc
    case DeployFound => same.(thread := me.(pc := DeployLocked), instance := i.(deploymentMutex := Some(t)))
    case DeployLocked => same.(thread := me.(pc := DeployReplacing), contexts := CancelLatest(s, me.instance))
    case DeployReplacing =>
      same.(thread := me.(pc := DeployWaiting, ctx := |s.contexts|),
            instance := i.(deploymentCtx := Some(|s.contexts|), deploymentMutex := None),
            contexts := s.contexts + [Context(me.instance, false)])
    case DeployWaiting => same.(thread := me.(pc := DeployAcquired), instance := i.(operationMutex := Some(t)))
    case DeployAcquired =>
      same.(thread := me.(pc := if cancelled || i.isDestroyed then Releasing else DeployChecked))
    case _ => same
  }

  /** DeployLab from there on. */
  function DeploymentStep(s: State, t: nat, ok: bool): Effect
    requires CanAdvance(s, t)
  {
    var me := s.threads[t];
    var i := s.heap[me.instance];
    var cancelled := IsCancelled(s, me.ctx);
    var same := Effect(me, i, s.contexts, s.instances);
    match me.pc
    case DeployChecked => same.(thread := me.(pc := DeployCalling), instance := i.(state := Deploying))
    case DeployCalling =>
      same.(thread := me.(pc := if ok then ContextWaiting(Inspection) else DeployErrored))
    case DeployInspecting =>
      same.(thread := if ok then me.(pc := DeployStreaming, left := i.nodes) else me.(pc := DeployErrored))
    case DeployStreaming =>
      same.(thread := if me.left == 0 then me.(pc := DeploySucceeding)
                      else if !ok && cancelled then me.(pc := Releasing)
                      else me.(left := me.left - 1))
    case DeployErrored => same.(thread := me.(pc := if cancelled then Releasing else DeployFailing))
    case DeployFailing => same.(thread := me.(pc := Releasing), instance := i.(state := Failed))
    case DeploySucceeding => same.(thread := me.(pc := Releasing), instance := i.(state := Running))
    case _ => same
  }

  /** DestroyLab. */
  function DestroyStep(s: State, t: nat, ok: bool): Effect
    requires CanAdvance(s, t)
  {
    var me := s.threads[t];
    var i := s.heap[me.instance];
    var same := Effect(me, i, s.contexts, s.instances);
    match me.pc
    case DestroyFound => same.(thread := me.(pc := DestroyLocked), instance := i.(deploymentMutex := Some(t)))
    case DestroyLocked =>
      same.(thread := me.(pc := DestroyWaiting), instance := i.(deploymentMutex := None),
            contexts := CancelLatest(s, me.instance))
    case DestroyWaiting => same.(thread := me.(pc := DestroyAcquired), instance := i.(operationMutex := Some(t)))
    case DestroyAcquired => same.(thread := me.(pc := DestroyCalling), instance := i.(state := Stopping))
    case DestroyCalling => same.(thread := me.(pc := if ok then DestroyMarking else DestroyFailing))
    case DestroyFailing => same.(thread := me.(pc := Releasing), instance := i.(state := Failed))
    case DestroyMarking => same.(thread := me.(pc := DestroyDeleting), instance := i.(isDestroyed := true))
    case DestroyDeleting => same.(thread := me.(pc := Releasing), instances := s.instances - {me.lab})
    case _ => same
  }

  /** deploymentContext. */
  function ContextStep(s: State, t: nat, ok: bool): Effect
    requires CanAdvance(s, t)
  {
    var me := s.threads[t];
    var i := s.heap[me.instance];
    var same := Effect(me, i, s.contexts, s.instances);
    match me.pc
    case ContextWaiting(caller) =>
      same.(thread := me.(pc := ContextLocked(caller)), instance := i.(deploymentMutex := Some(t)))
    case ContextLocked(caller) =>
      same.(thread := me.(pc := AfterContext(caller)), instance := i.(deploymentMutex := None))
    case _ => same
  }

  /** The node commands, and the unlocking of OperationMutex. */
  function CommandStep(s: State, t: nat, ok: bool): Effect
    requires CanAdvance(s, t)
  {
    var me := s.threads[t];
    var i := s.heap[me.instance];
    var same := Effect(me, i, s.contexts, s.instances);
    match me.pc
    case NodeFound(starts) =>
      if i.operationMutex.None?
      then same.(thread := me.(pc := NodeHolding(starts)), instance := i.(operationMutex := Some(t)))
      else same.(thread := me.(pc := Returned))
    case NodeHolding(starts) =>
      same.(thread := me.(pc := if !ok then Releasing else if starts then ContextWaiting(NodeStart) else NodeCalling))
    case NodeCalling => same.(thread := me.(pc := if ok then ContextWaiting(NodeFetch) else Releasing))
    case NodeFetching => same.(thread := me.(pc := Releasing))
    case Releasing => same.(thread := me.(pc := Returned), instance := i.(operationMutex := None))
    case _ => same
  }

  function Step(s: State, t: nat, ok: bool): Effect
    requires CanAdvance(s, t)
  {
    var pc := s.threads[t].pc;
    if IsEntering(pc) then EnterStep(s, t, ok)
    else if ReadsAnyContext(pc) then ContextStep(s, t, ok)
    else if InDeployment(pc) then DeploymentStep(s, t, ok)
    else if InDestroy(pc) then DestroyStep(s, t, ok)
    else CommandStep(s, t, ok)
  }

  function AdvanceThread(s: State, t: nat, ok: bool): State
    requires CanAdvance(s, t)
  {
    var e := Step(s, t, ok);
    State(e.instances, s.heap[s.threads[t].instance := e.instance], e.contexts, s.threads[t := e.thread])
  }

  /** A call looks its lab up in one section of the instances mutex. DeployLab adds a missing
      instance in the same section, unless the lab's environment can't be read. */
  function Apply(s: State, a: Action): State
    requires Enabled(s, a)
  {
    match a
    case CallDeploy(lab, nodes, environmentOk) =>
      if lab in s.instances then Spawn(s, lab, s.instances[lab], true, DeployFound)
      else if !environmentOk then s
      else Spawn(s, lab, |s.heap|, false, DeployFound).(
          instances := s.instances[lab := |s.heap|],
          heap := s.heap + [Instance(lab, nodes, Deploying, false, None, None, None)])
    case CallDestroy(lab) =>
      if lab in s.instances then Spawn(s, lab, s.instances[lab], false, DestroyFound) else s
    case CallNode(lab, starts) =>
      if lab in s.instances then Spawn(s, lab, s.instances[lab], false, NodeFound(starts)) else s
    case CallRead(n) => Spawn(s, s.heap[n].uuid, n, false, ContextWaiting(Listener))
    case Advance(t, ok) => AdvanceThread(s, t, ok)
  }

  /** Startup: no calls yet, and any number of revived instances, each running under its own context. */
  ghost predicate Init(s: State) {
    && s.threads == []
    && |s.contexts| == |s.heap|
    && (forall n | 0 <= n < |s.heap| ::
          && s.heap[n] == Instance(s.heap[n].uuid, s.heap[n].nodes, Running, false, Some(n), None, None)
          && s.contexts[n] == Context(n, false))
    && (forall lab | lab in s.instances :: s.instances[lab] < |s.heap| && s.heap[s.instances[lab]].uuid == lab)
    && (forall n | 0 <= n < |s.heap| :: InMap(s, n))
  }

  predicate InMap(s: State, n: nat)
    requires n < |s.heap|
  {
    s.heap[n].uuid in s.instances && s.instances[s.heap[n].uuid] == n
  }

  ghost predicate Trace(states: seq<State>, actions: seq<Action>) {
    && |states| == |actions| + 1
    && Init(states[0])
    && forall k | 0 <= k < |actions| ::
         Enabled(states[k], actions[k]) && states[k + 1] == Apply(states[k], actions[k])
  }

  // ---------------------------------------------------------------------------------------------
  // Invariant
  // ---------------------------------------------------------------------------------------------

  predicate HoldsDeploymentMutex(pc: Pc) {
    pc.DeployLocked? || pc.DeployReplacing? || pc.DestroyLocked? || pc.ContextLocked?
  }

  predicate HoldsOperationMutex(pc: Pc) {
    || pc.DeployAcquired? || InDeployment(pc) || InNodeCommand(pc) || pc.Releasing?
    || pc.DestroyAcquired? || pc.DestroyCalling? || pc.DestroyFailing? || pc.DestroyMarking? || pc.DestroyDeleting?
  }

  /** The part of a node command that holds OperationMutex. */
  predicate InNodeCommand(pc: Pc) {
    || pc.NodeHolding? || pc.NodeCalling? || pc.NodeFetching?
    || ((pc.ContextWaiting? || pc.ContextLocked?) && (pc.caller.NodeStart? || pc.caller.NodeFetch?))
  }

  predicate HasContext(pc: Pc) {
    pc.DeployWaiting? || pc.DeployAcquired? || AbortsIfCancelled(pc)
  }

  /** Between the lookup and the step that installs (DeployLab) or cancels (DestroyLab) the context. */
  predicate IsStarting(pc: Pc) {
    pc.DeployFound? || pc.DeployLocked? || pc.DeployReplacing? || pc.DestroyFound? || pc.DestroyLocked?
  }

  /** Thread t is going to bring instance n out of the deploying state. */
  predicate Finishes(s: State, t: nat, n: nat) {
    && t < |s.threads|
    && s.threads[t].instance == n
    && n < |s.heap|
    && var pc := s.threads[t].pc;
       || IsStarting(pc)
       || pc.DestroyWaiting?
       || (pc.DeployWaiting? && s.heap[n].deploymentCtx == Some(s.threads[t].ctx) && !IsCancelled(s, s.threads[t].ctx))
  }

  ghost predicate HasFinisher(s: State, n: nat) {
    exists t :: Finishes(s, t, n)
  }

  /** A thread works on the instance of its lab and owns the mutexes it thinks it owns. */
  ghost predicate ThreadLocksOk(s: State, t: nat)
    requires t < |s.threads|
  {
    var n, pc := s.threads[t].instance, s.threads[t].pc;
    && n < |s.heap|
    && s.heap[n].uuid == s.threads[t].lab
    && (HoldsDeploymentMutex(pc) ==> s.heap[n].deploymentMutex == Some(t))
    && (HoldsOperationMutex(pc) ==> s.heap[n].operationMutex == Some(t))
  }

  /** Its context belongs to its instance, and the previous one is canceled before it installs its own. */
  ghost predicate ThreadContextOk(s: State, t: nat)
    requires t < |s.threads| && s.threads[t].instance < |s.heap|
  {
    var n, pc := s.threads[t].instance, s.threads[t].pc;
    && (HasContext(pc) ==> s.threads[t].ctx < |s.contexts| && s.contexts[s.threads[t].ctx].instance == n)
    && (pc.DeployReplacing? && s.heap[n].deploymentCtx.Some? ==> IsCancelled(s, s.heap[n].deploymentCtx.value))
  }

  ghost predicate ThreadOk(s: State, t: nat)
    requires t < |s.threads|
  {
    var n, pc := s.threads[t].instance, s.threads[t].pc;
    && ThreadLocksOk(s, t)
    && ThreadContextOk(s, t)
    && (InDeployment(pc) ==> !s.heap[n].isDestroyed)
    && (pc.DestroyDeleting? ==> s.heap[n].isDestroyed)
  }

  ghost predicate InstanceOk(s: State, n: nat)
    requires n < |s.heap|
  {
    var i := s.heap[n];
    && (i.deploymentCtx.Some? ==>
          i.deploymentCtx.value < |s.contexts| && s.contexts[i.deploymentCtx.value].instance == n)
    && (i.deploymentMutex.Some? ==>
          && i.deploymentMutex.value < |s.threads|
          && s.threads[i.deploymentMutex.value].instance == n
          && HoldsDeploymentMutex(s.threads[i.deploymentMutex.value].pc))
    && (i.operationMutex.Some? ==>
          && i.operationMutex.value < |s.threads|
          && s.threads[i.operationMutex.value].instance == n
          && HoldsOperationMutex(s.threads[i.operationMutex.value].pc))
  }

  ghost predicate ContextOk(s: State, c: nat)
    requires c < |s.contexts|
  {
    && s.contexts[c].instance < |s.heap|
    && (!s.contexts[c].cancelled ==> s.heap[s.contexts[c].instance].deploymentCtx == Some(c))
  }

  ghost predicate MapOk(s: State, lab: string)
    requires lab in s.instances
  {
    var n := s.instances[lab];
    && n < |s.heap|
    && s.heap[n].uuid == lab
    && (s.heap[n].isDestroyed ==>
          && s.heap[n].operationMutex.Some?
          && s.heap[n].operationMutex.value < |s.threads|
          && s.threads[s.heap[n].operationMutex.value].pc.DestroyDeleting?)
  }

  /** Locks, contexts and the map are used consistently. */
  ghost predicate Consistent(s: State) {
    && (forall t | 0 <= t < |s.threads| :: ThreadOk(s, t))
    && (forall n | 0 <= n < |s.heap| :: InstanceOk(s, n))
    && (forall c | 0 <= c < |s.contexts| :: ContextOk(s, c))
    && (forall lab | lab in s.instances :: MapOk(s, lab))
  }

  /** The state an instance may be left in: not stopping, and only deploying if someone is going to finish it. */
  ghost predicate Settled(s: State, n: nat)
    requires n < |s.heap|
  {
    s.heap[n].state != Stopping && (s.heap[n].state == Deploying ==> HasFinisher(s, n))
  }

  /** What holds while thread h owns the OperationMutex of instance n: whenever it may return without
      writing the state, the state may be left as it is. */
  ghost predicate HolderOk(s: State, h: nat, n: nat)
    requires h < |s.threads| && n < |s.heap|
  {
    var pc, cancelled, state := s.threads[h].pc, IsCancelled(s, s.threads[h].ctx), s.heap[n].state;
    && (InNodeCommand(pc) || pc.Releasing? ==> Settled(s, n))
    && (pc.DeployAcquired? ==> state != Stopping && (cancelled ==> Settled(s, n)))
    && (AbortsIfCancelled(pc) ==> state != Stopping && (cancelled ==> HasFinisher(s, n)))
  }

  ghost predicate Progressing(s: State, n: nat)
    requires n < |s.heap|
  {
    || s.heap[n].isDestroyed
    || match s.heap[n].operationMutex
       case None => Settled(s, n)
       case Some(h) => h < |s.threads| && HolderOk(s, h, n)
  }

  ghost predicate Inv(s: State) {
    && Consistent(s)
    && forall n | 0 <= n < |s.heap| :: Progressing(s, n)
  }

  // ---------------------------------------------------------------------------------------------
  // One thread's step keeps the invariant
  // ---------------------------------------------------------------------------------------------

  /** Contexts are never removed, never move to another instance and never come back to life. */
  ghost predicate Grown(before: seq<Context>, after: seq<Context>) {
    && |before| <= |after|
    && forall c | 0 <= c < |before| ::
         after[c].instance == before[c].instance && (before[c].cancelled ==> after[c].cancelled)
  }

  /** A step moves a mutex only by taking it while it is free, or by letting go of it. */
  ghost predicate MutexShape(t: nat, before: Option<nat>, held: bool, after: Option<nat>, holds: bool) {
    && after == (if holds then Some(t) else if held then None else before)
    && (holds && !held ==> before.None?)
  }

  /** Who may change the other fields. */
  ghost predicate FieldShape(s: State, t: nat, e: Effect)
    requires t < |s.threads| && s.threads[t].instance < |s.heap|
  {
    var me, i := s.threads[t], s.heap[s.threads[t].instance];
    && e.thread.lab == me.lab && e.thread.instance == me.instance && e.thread.redeploy == me.redeploy
    && e.instance.uuid == i.uuid && e.instance.nodes == i.nodes
    && e.instance.isDestroyed == (i.isDestroyed || me.pc.DestroyMarking?)
    && e.instances == (if me.pc.DestroyDeleting? then s.instances - {me.lab} else s.instances)
    && (e.thread.pc.DestroyDeleting? <==> me.pc.DestroyMarking?)
  }

  ghost predicate ContextShape(s: State, t: nat, e: Effect)
    requires t < |s.threads| && s.threads[t].instance < |s.heap|
  {
    var me, i := s.threads[t], s.heap[s.threads[t].instance];
    && (e.instance.state != i.state ==> HoldsOperationMutex(me.pc))
    && (e.instance.deploymentCtx != i.deploymentCtx ==> me.pc.DeployReplacing?)
    && (e.thread.pc.DeployReplacing? <==> me.pc.DeployLocked?)
    && (me.pc.DestroyLocked? ==> e.thread.pc.DestroyWaiting?)
    && (HasContext(e.thread.pc) ==> me.pc.DeployReplacing? || (HasContext(me.pc) && e.thread.ctx == me.ctx))
  }

  /** What becomes of the contexts. */
  ghost predicate ContextsShape(s: State, t: nat, e: Effect)
    requires t < |s.threads| && s.threads[t].instance < |s.heap|
  {
    var n, pc := s.threads[t].instance, s.threads[t].pc;
    if pc.DeployReplacing? then
      && e.contexts == s.contexts + [Context(n, false)]
      && e.instance.deploymentCtx == Some(|s.contexts|) && e.thread.ctx == |s.contexts|
    else if pc.DeployLocked? || pc.DestroyLocked? then e.contexts == CancelLatest(s, n)
    else e.contexts == s.contexts
  }

  ghost predicate LocksShape(s: State, t: nat, e: Effect)
    requires t < |s.threads| && s.threads[t].instance < |s.heap|
  {
    var i, pc := s.heap[s.threads[t].instance], s.threads[t].pc;
    && MutexShape(t, i.deploymentMutex, HoldsDeploymentMutex(pc),
                  e.instance.deploymentMutex, HoldsDeploymentMutex(e.thread.pc))
    && MutexShape(t, i.operationMutex, HoldsOperationMutex(pc),
                  e.instance.operationMutex, HoldsOperationMutex(e.thread.pc))
  }

  lemma EnterHasShape(s: State, t: nat, ok: bool)
    requires CanAdvance(s, t) && IsEntering(s.threads[t].pc)
    ensures var e := EnterStep(s, t, ok); FieldShape(s, t, e) && ContextShape(s, t, e) && ContextsShape(s, t, e)
  {
    hide CancelLatest, IsCancelled;
  }

  lemma ContextHasShape(s: State, t: nat, ok: bool)
    requires CanAdvance(s, t) && ReadsAnyContext(s.threads[t].pc)
    ensures var e := ContextStep(s, t, ok); FieldShape(s, t, e) && ContextShape(s, t, e) && ContextsShape(s, t, e)
  {
    hide CancelLatest, IsCancelled;
  }

  lemma DeploymentHasShape(s: State, t: nat, ok: bool)
    requires CanAdvance(s, t) && InDeployment(s.threads[t].pc) && !ReadsAnyContext(s.threads[t].pc)
    ensures var e := DeploymentStep(s, t, ok); FieldShape(s, t, e) && ContextShape(s, t, e) && ContextsShape(s, t, e)
  {
    hide CancelLatest, IsCancelled;
  }

  lemma DestroyKeepsFields(s: State, t: nat, ok: bool)
    requires CanAdvance(s, t) && InDestroy(s.threads[t].pc)
    ensures FieldShape(s, t, DestroyStep(s, t, ok))
  {
    hide CancelLatest;
  }

  lemma DestroyHasShape(s: State, t: nat, ok: bool)
    requires CanAdvance(s, t) && InDestroy(s.threads[t].pc)
    ensures var e := DestroyStep(s, t, ok); FieldShape(s, t, e) && ContextShape(s, t, e) && ContextsShape(s, t, e)
  {
    DestroyKeepsFields(s, t, ok);
    hide FieldShape;
  }

  lemma CommandHasShape(s: State, t: nat, ok: bool)
    requires CanAdvance(s, t) && IsCommand(s.threads[t].pc)
    ensures var e := CommandStep(s, t, ok); FieldShape(s, t, e) && ContextShape(s, t, e) && ContextsShape(s, t, e)
  {
    hide CancelLatest, IsCancelled;
  }

  lemma EnterMovesLocks(s: State, t: nat, ok: bool)
    requires CanAdvance(s, t) && ThreadLocksOk(s, t) && IsEntering(s.threads[t].pc)
    ensures LocksShape(s, t, EnterStep(s, t, ok))
  {
    hide CancelLatest, IsCancelled;
  }

  lemma ContextMovesLocks(s: State, t: nat, ok: bool)
    requires CanAdvance(s, t) && ThreadLocksOk(s, t) && ReadsAnyContext(s.threads[t].pc)
    ensures LocksShape(s, t, ContextStep(s, t, ok))
  {
    hide CancelLatest, IsCancelled;
  }

  lemma DeploymentMovesLocks(s: State, t: nat, ok: bool)
    requires CanAdvance(s, t) && ThreadLocksOk(s, t)
    requires InDeployment(s.threads[t].pc) && !ReadsAnyContext(s.threads[t].pc)
    ensures LocksShape(s, t, DeploymentStep(s, t, ok))
  {
    hide CancelLatest, IsCancelled;
  }

  lemma DestroyMovesLocks(s: State, t: nat, ok: bool)
    requires CanAdvance(s, t) && ThreadLocksOk(s, t) && InDestroy(s.threads[t].pc)
    ensures LocksShape(s, t, DestroyStep(s, t, ok))
  {
    hide CancelLatest, IsCancelled;
  }

  lemma CommandMovesLocks(s: State, t: nat, ok: bool)
    requires CanAdvance(s, t) && ThreadLocksOk(s, t) && IsCommand(s.threads[t].pc)
    ensures LocksShape(s, t, CommandStep(s, t, ok))
  {
    hide CancelLatest, IsCancelled;
  }

  lemma StepHasShape(s: State, t: nat, ok: bool)
    requires CanAdvance(s, t)
    ensures var e := Step(s, t, ok); FieldShape(s, t, e) && ContextShape(s, t, e) && ContextsShape(s, t, e)
  {
    hide EnterStep, ContextStep, DeploymentStep, DestroyStep, CommandStep, FieldShape, ContextShape, ContextsShape;
    if IsEntering(s.threads[t].pc) {
      EnterHasShape(s, t, ok);
    } else if ReadsAnyContext(s.threads[t].pc) {
      ContextHasShape(s, t, ok);
    } else if InDeployment(s.threads[t].pc) {
      DeploymentHasShape(s, t, ok);
    } else if InDestroy(s.threads[t].pc) {
      DestroyHasShape(s, t, ok);
    } else {
      CommandHasShape(s, t, ok);
    }
  }

  lemma StepMovesLocks(s: State, t: nat, ok: bool)
    requires CanAdvance(s, t) && ThreadLocksOk(s, t)
    ensures LocksShape(s, t, Step(s, t, ok))
  {
    hide EnterStep, ContextStep, DeploymentStep, DestroyStep, CommandStep, LocksShape;
    if IsEntering(s.threads[t].pc) {
      EnterMovesLocks(s, t, ok);
    } else if ReadsAnyContext(s.threads[t].pc) {
      ContextMovesLocks(s, t, ok);
    } else if InDeployment(s.threads[t].pc) {
      DeploymentMovesLocks(s, t, ok);
    } else if InDestroy(s.threads[t].pc) {
      DestroyMovesLocks(s, t, ok);
    } else {
      CommandMovesLocks(s, t, ok);
    }
  }

  lemma StepGrowsContexts(s: State, t: nat, ok: bool)
    requires CanAdvance(s, t)
    ensures Grown(s.contexts, Step(s, t, ok).contexts)
  {
    hide Step, FieldShape, ContextShape;
    StepHasShape(s, t, ok);
  }

  /** A deployment only begins on an instance that is not destroyed, and only its destroyer deletes it. */
  ghost predicate DestroyedApart(e: Effect) {
    && (InDeployment(e.thread.pc) ==> !e.instance.isDestroyed)
    && (e.thread.pc.DestroyDeleting? ==> e.instance.isDestroyed)
  }

  lemma EnterKeepsDestroyedApart(s: State, t: nat, ok: bool)
    requires CanAdvance(s, t) && ThreadOk(s, t) && IsEntering(s.threads[t].pc)
    ensures DestroyedApart(EnterStep(s, t, ok))
  {
    hide CancelLatest, IsCancelled;
  }

  lemma ContextKeepsDestroyedApart(s: State, t: nat, ok: bool)
    requires CanAdvance(s, t) && ThreadOk(s, t) && ReadsAnyContext(s.threads[t].pc)
    ensures DestroyedApart(ContextStep(s, t, ok))
  {
    hide CancelLatest, IsCancelled;
  }

  lemma DeploymentKeepsDestroyedApart(s: State, t: nat, ok: bool)
    requires CanAdvance(s, t) && ThreadOk(s, t) && InDeployment(s.threads[t].pc) && !ReadsAnyContext(s.threads[t].pc)
    ensures DestroyedApart(DeploymentStep(s, t, ok))
  {
    hide CancelLatest, IsCancelled;
  }

  lemma DestroyKeepsDestroyedApart(s: State, t: nat, ok: bool)
    requires CanAdvance(s, t) && ThreadOk(s, t) && InDestroy(s.threads[t].pc)
    ensures DestroyedApart(DestroyStep(s, t, ok))
  {
    hide CancelLatest, IsCancelled;
  }

  lemma CommandKeepsDestroyedApart(s: State, t: nat, ok: bool)
    requires CanAdvance(s, t) && ThreadOk(s, t) && IsCommand(s.threads[t].pc)
    ensures DestroyedApart(CommandStep(s, t, ok))
  {
    hide CancelLatest, IsCancelled;
  }

  lemma StepKeepsDestroyedApart(s: State, t: nat, ok: bool)
    requires CanAdvance(s, t) && ThreadOk(s, t)
    ensures DestroyedApart(Step(s, t, ok))
  {
    hide EnterStep, ContextStep, DeploymentStep, DestroyStep, CommandStep, DestroyedApart;
    if IsEntering(s.threads[t].pc) {
      EnterKeepsDestroyedApart(s, t, ok);
    } else if ReadsAnyContext(s.threads[t].pc) {
      ContextKeepsDestroyedApart(s, t, ok);
    } else if InDeployment(s.threads[t].pc) {
      DeploymentKeepsDestroyedApart(s, t, ok);
    } else if InDestroy(s.threads[t].pc) {
      DestroyKeepsDestroyedApart(s, t, ok);
    } else {
      CommandKeepsDestroyedApart(s, t, ok);
    }
  }

  lemma AdvanceKeepsOwnContext(s: State, t: nat, ok: bool)
    requires CanAdvance(s, t) && ThreadOk(s, t) && InstanceOk(s, s.threads[t].instance)
    ensures ThreadContextOk(AdvanceThread(s, t, ok), t)
  {
    hide Step;
    StepHasShape(s, t, ok);
    StepGrowsContexts(s, t, ok);
  }

  lemma AdvanceKeepsOwnLocks(s: State, t: nat, ok: bool)
    requires CanAdvance(s, t) && ThreadLocksOk(s, t)
    ensures ThreadLocksOk(AdvanceThread(s, t, ok), t)
  {
    hide Step;
    StepMovesLocks(s, t, ok);
    StepHasShape(s, t, ok);
  }

  lemma AdvanceKeepsOwnThread(s: State, t: nat, ok: bool)
    requires CanAdvance(s, t) && ThreadOk(s, t) && InstanceOk(s, s.threads[t].instance)
    ensures ThreadOk(AdvanceThread(s, t, ok), t)
  {
    hide Step, HoldsOperationMutex, HoldsDeploymentMutex;
    AdvanceKeepsOwnLocks(s, t, ok);
    AdvanceKeepsOwnContext(s, t, ok);
    StepHasShape(s, t, ok);
    StepKeepsDestroyedApart(s, t, ok);
  }

  lemma AdvanceKeepsOtherThread(s: State, t: nat, ok: bool, u: nat)
    requires CanAdvance(s, t) && ThreadOk(s, t)
    requires u < |s.threads| && u != t && ThreadOk(s, u)
    ensures ThreadOk(AdvanceThread(s, t, ok), u)
  {
    hide Step;
    StepMovesLocks(s, t, ok);
    StepHasShape(s, t, ok);
    StepGrowsContexts(s, t, ok);
    assert AdvanceThread(s, t, ok).threads[u] == s.threads[u];
  }

  lemma AdvanceKeepsInstanceOk(s: State, t: nat, ok: bool, n: nat)
    requires CanAdvance(s, t) && ThreadOk(s, t)
    requires n < |s.heap| && InstanceOk(s, n)
    ensures InstanceOk(AdvanceThread(s, t, ok), n)
  {
    hide Step;
    StepMovesLocks(s, t, ok);
    StepHasShape(s, t, ok);
    StepGrowsContexts(s, t, ok);
  }

  lemma AdvanceKeepsContextOk(s: State, t: nat, ok: bool, c: nat)
    requires CanAdvance(s, t) && ThreadOk(s, t) && InstanceOk(s, s.threads[t].instance)
    requires c < |AdvanceThread(s, t, ok).contexts|
    requires c < |s.contexts| ==> ContextOk(s, c)
    ensures ContextOk(AdvanceThread(s, t, ok), c)
  {
    hide Step, HoldsOperationMutex, HoldsDeploymentMutex;
    StepHasShape(s, t, ok);
    var n, pc := s.threads[t].instance, s.threads[t].pc;
    if pc.DeployReplacing? {
      assert s.heap[n].deploymentCtx.Some? ==> IsCancelled(s, s.heap[n].deploymentCtx.value);
    } else {
      StepGrowsContexts(s, t, ok);
      assert AdvanceThread(s, t, ok).contexts[c].cancelled || !s.contexts[c].cancelled;
    }
  }

  lemma AdvanceKeepsMapOk(s: State, t: nat, ok: bool, lab: string)
    requires CanAdvance(s, t) && ThreadOk(s, t)
    requires lab in s.instances && MapOk(s, lab) && InstanceOk(s, s.instances[lab])
    requires lab in AdvanceThread(s, t, ok).instances
    ensures MapOk(AdvanceThread(s, t, ok), lab)
  {
    hide Step;
    StepMovesLocks(s, t, ok);
    StepHasShape(s, t, ok);
  }

  lemma AdvanceKeepsConsistent(s: State, t: nat, ok: bool)
    requires Consistent(s) && CanAdvance(s, t)
    ensures Consistent(AdvanceThread(s, t, ok))
  {
    var s' := AdvanceThread(s, t, ok);
    assert ThreadOk(s, t);
    assert InstanceOk(s, s.threads[t].instance);
    forall u | 0 <= u < |s'.threads| ensures ThreadOk(s', u) {
      if u == t {
        AdvanceKeepsOwnThread(s, t, ok);
      } else {
        AdvanceKeepsOtherThread(s, t, ok, u);
      }
    }
    forall n | 0 <= n < |s'.heap| ensures InstanceOk(s', n) {
      AdvanceKeepsInstanceOk(s, t, ok, n);
    }
    forall c | 0 <= c < |s'.contexts| ensures ContextOk(s', c) {
      AdvanceKeepsContextOk(s, t, ok, c);
    }
    forall lab | lab in s'.instances ensures MapOk(s', lab) {
      assert lab in s.instances by { StepHasShape(s, t, ok); }
      assert MapOk(s, lab);
      AdvanceKeepsMapOk(s, t, ok, lab);
    }
  }

  lemma StepKeepsInstance(s: State, t: nat, ok: bool)
    requires CanAdvance(s, t)
    ensures Step(s, t, ok).thread.instance == s.threads[t].instance
  {
    hide Step, ContextShape, ContextsShape;
    StepHasShape(s, t, ok);
  }

  /** A step cancels at most the latest context of its own instance, and whoever does so has yet to take over. */
  lemma CancellingMakesAFinisher(s: State, t: nat, ok: bool, c: nat)
    requires CanAdvance(s, t) && ThreadOk(s, t) && InstanceOk(s, s.threads[t].instance)
    requires !IsCancelled(s, c) && IsCancelled(AdvanceThread(s, t, ok), c)
    ensures c < |s.contexts| && s.contexts[c].instance == s.threads[t].instance
    ensures Finishes(AdvanceThread(s, t, ok), t, s.threads[t].instance)
  {
    hide Step, HoldsOperationMutex, FieldShape;
    StepHasShape(s, t, ok);
    StepKeepsInstance(s, t, ok);
  }

  /** A call on its way to its context goes on to install it, or to cancel the latest one. */
  lemma StarterFinishes(s: State, t: nat, ok: bool)
    requires CanAdvance(s, t) && IsStarting(s.threads[t].pc)
    ensures Finishes(AdvanceThread(s, t, ok), t, s.threads[t].instance)
  {
    hide ContextStep, DeploymentStep, CommandStep;
  }

  lemma FinisherStays(s: State, t: nat, ok: bool, f: nat, n: nat)
    requires CanAdvance(s, t) && ThreadOk(s, t) && InstanceOk(s, s.threads[t].instance)
    requires Finishes(s, f, n) && ThreadOk(s, f)
    requires f == t ==> IsStarting(s.threads[t].pc)
    ensures HasFinisher(AdvanceThread(s, t, ok), n)
  {
    hide Step, FieldShape;
    var s' := AdvanceThread(s, t, ok);
    if IsStarting(s.threads[t].pc) && s.threads[t].instance == n {
      StarterFinishes(s, t, ok);
    } else {
      StepHasShape(s, t, ok);
      var c := s.threads[f].ctx;
      if s.threads[f].pc.DeployWaiting? && !IsCancelled(s, c) && IsCancelled(s', c) {
        CancellingMakesAFinisher(s, t, ok, c);
      }
      assert Finishes(s', t, n) || Finishes(s', f, n);
    }
  }

  /** Finishers of n are only lost to the step that takes the OperationMutex of n. */
  lemma FinishersStay(s: State, t: nat, ok: bool, n: nat)
    requires Consistent(s) && CanAdvance(s, t)
    requires n < |s.heap| && AdvanceThread(s, t, ok).heap[n].operationMutex != Some(t)
    requires HasFinisher(s, n)
    ensures HasFinisher(AdvanceThread(s, t, ok), n)
  {
    var f :| Finishes(s, f, n);
    assert ThreadOk(s, t) && InstanceOk(s, s.threads[t].instance) && ThreadOk(s, f);
    FinisherStays(s, t, ok, f, n);
  }

  /** Steps of a thread that does not own the OperationMutex of n, before or after. */
  lemma BystanderKeepsProgressing(s: State, t: nat, ok: bool, n: nat)
    requires CanAdvance(s, t) && ThreadOk(s, t) && InstanceOk(s, s.threads[t].instance)
    requires n < |s.heap| && !s.heap[n].isDestroyed && Progressing(s, n) && InstanceOk(s, n)
    requires s.heap[n].operationMutex != Some(t) && AdvanceThread(s, t, ok).heap[n].operationMutex != Some(t)
    requires s.heap[n].operationMutex.Some? ==> ThreadOk(s, s.heap[n].operationMutex.value)
    requires HasFinisher(s, n) ==> HasFinisher(AdvanceThread(s, t, ok), n)
    ensures Progressing(AdvanceThread(s, t, ok), n)
  {
    hide Step;
    var s' := AdvanceThread(s, t, ok);
    StepHasShape(s, t, ok);
    StepMovesLocks(s, t, ok);
    if s.heap[n].operationMutex.Some? {
      var h := s.heap[n].operationMutex.value;
      if !IsCancelled(s, s.threads[h].ctx) && IsCancelled(s', s.threads[h].ctx) && HasContext(s.threads[h].pc) {
        CancellingMakesAFinisher(s, t, ok, s.threads[h].ctx);
      }
    }
  }

  lemma ThreadsAreOk(s: State, t: nat)
    requires Consistent(s) && t < |s.threads|
    ensures ThreadOk(s, t) && InstanceOk(s, s.threads[t].instance)
  {
  }

  /** The steps that take OperationMutex. */
  lemma AcquiringPcs(s: State, t: nat, ok: bool)
    requires CanAdvance(s, t) && !HoldsOperationMutex(s.threads[t].pc)
    ensures var pc, next := s.threads[t].pc, Step(s, t, ok).thread.pc;
            HoldsOperationMutex(next) ==>
              || (pc.DeployWaiting? && next.DeployAcquired? && Step(s, t, ok).thread.ctx == s.threads[t].ctx)
              || (pc.DestroyWaiting? && next.DestroyAcquired?)
              || (pc.NodeFound? && next.NodeHolding?)
  {
    hide CancelLatest, IsCancelled;
    if IsEntering(s.threads[t].pc) {
      hide ContextStep, DeploymentStep, DestroyStep, CommandStep;
    } else if InDestroy(s.threads[t].pc) {
      hide EnterStep, ContextStep, DeploymentStep, CommandStep;
    } else {
      hide EnterStep, DeploymentStep, DestroyStep;
    }
  }

  /** The step that takes the OperationMutex of n. */
  lemma AcquiringKeepsProgressing(s: State, t: nat, ok: bool, n: nat)
    requires Consistent(s) && CanAdvance(s, t)
    requires n < |s.heap| && !s.heap[n].isDestroyed && Progressing(s, n)
    requires s.heap[n].operationMutex != Some(t) && AdvanceThread(s, t, ok).heap[n].operationMutex == Some(t)
    ensures Progressing(AdvanceThread(s, t, ok), n)
  {
    hide Step, HoldsDeploymentMutex, FieldShape, Consistent;
    assert ThreadOk(s, t) && InstanceOk(s, s.threads[t].instance) by { ThreadsAreOk(s, t); }
    StepMovesLocks(s, t, ok);
    StepHasShape(s, t, ok);
    StepKeepsInstance(s, t, ok);
    AcquiringPcs(s, t, ok);
    if s.heap[n].state == Deploying {
      var f :| Finishes(s, f, n);
      ThreadsAreOk(s, f);
      if f != t {
        FinisherStays(s, t, ok, f, n);
      }
    }
  }

  lemma EnteringHolderKeepsProgressing(s: State, t: nat, ok: bool, n: nat)
    requires CanAdvance(s, t) && IsEntering(s.threads[t].pc)
    requires n < |s.heap| && s.threads[t].instance == n && !s.heap[n].isDestroyed
    requires s.heap[n].operationMutex == Some(t) && HolderOk(s, t, n)
    requires HasFinisher(s, n) ==> HasFinisher(AdvanceThread(s, t, ok), n)
    ensures Progressing(AdvanceThread(s, t, ok), n)
  {
    hide ContextStep, DeploymentStep, DestroyStep, CommandStep, CancelLatest, HasFinisher;
  }

  lemma ReadingHolderKeepsProgressing(s: State, t: nat, ok: bool, n: nat)
    requires CanAdvance(s, t) && ReadsAnyContext(s.threads[t].pc)
    requires n < |s.heap| && s.threads[t].instance == n && !s.heap[n].isDestroyed
    requires s.heap[n].operationMutex == Some(t) && HolderOk(s, t, n)
    requires HasFinisher(s, n) ==> HasFinisher(AdvanceThread(s, t, ok), n)
    ensures Progressing(AdvanceThread(s, t, ok), n)
  {
    hide EnterStep, DeploymentStep, DestroyStep, CommandStep, CancelLatest, HasFinisher;
    var s' := AdvanceThread(s, t, ok);
    assert s'.contexts == s.contexts && s'.threads[t].ctx == s.threads[t].ctx;
    assert s'.heap[n].state == s.heap[n].state && s'.heap[n].operationMutex == Some(t);
    assert IsCancelled(s', s.threads[t].ctx) == IsCancelled(s, s.threads[t].ctx);
    hide IsCancelled;
  }

  lemma AbortingHolderKeepsProgressing(s: State, t: nat, ok: bool, n: nat)
    requires CanAdvance(s, t) && AbortsIfCancelled(s.threads[t].pc)
    requires !ReadsAnyContext(s.threads[t].pc)
    requires n < |s.heap| && s.threads[t].instance == n && !s.heap[n].isDestroyed
    requires s.heap[n].operationMutex == Some(t) && HolderOk(s, t, n)
    requires HasFinisher(s, n) ==> HasFinisher(AdvanceThread(s, t, ok), n)
    ensures Progressing(AdvanceThread(s, t, ok), n)
  {
    hide EnterStep, ContextStep, DestroyStep, CommandStep, CancelLatest, HasFinisher;
  }

  lemma EndingHolderKeepsProgressing(s: State, t: nat, ok: bool, n: nat)
    requires CanAdvance(s, t) && (s.threads[t].pc.DeployFailing? || s.threads[t].pc.DeploySucceeding?)
    requires n < |s.heap| && s.threads[t].instance == n && !s.heap[n].isDestroyed
    requires s.heap[n].operationMutex == Some(t) && HolderOk(s, t, n)
    requires HasFinisher(s, n) ==> HasFinisher(AdvanceThread(s, t, ok), n)
    ensures Progressing(AdvanceThread(s, t, ok), n)
  {
    hide EnterStep, ContextStep, DestroyStep, CommandStep, CancelLatest, HasFinisher;
  }

  lemma DestroyingHolderKeepsProgressing(s: State, t: nat, ok: bool, n: nat)
    requires CanAdvance(s, t) && InDestroy(s.threads[t].pc)
    requires s.threads[t].pc.DestroyDeleting? ==> s.heap[s.threads[t].instance].isDestroyed
    requires n < |s.heap| && s.threads[t].instance == n && !s.heap[n].isDestroyed
    requires s.heap[n].operationMutex == Some(t) && HolderOk(s, t, n)
    requires HasFinisher(s, n) ==> HasFinisher(AdvanceThread(s, t, ok), n)
    ensures Progressing(AdvanceThread(s, t, ok), n)
  {
    hide EnterStep, ContextStep, DeploymentStep, CommandStep, CancelLatest, HasFinisher, IsCancelled;
    var s' := AdvanceThread(s, t, ok);
    assert InDestroy(s'.threads[t].pc) || (s'.threads[t].pc.Releasing? && s'.heap[n].state == Failed);
    assert s'.heap[n].operationMutex == Some(t);
    hide DestroyStep;
  }

  lemma CommandHolderKeepsProgressing(s: State, t: nat, ok: bool, n: nat)
    requires CanAdvance(s, t) && IsCommand(s.threads[t].pc)
    requires n < |s.heap| && s.threads[t].instance == n && !s.heap[n].isDestroyed
    requires s.heap[n].operationMutex == Some(t) && HolderOk(s, t, n)
    requires HasFinisher(s, n) ==> HasFinisher(AdvanceThread(s, t, ok), n)
    ensures Progressing(AdvanceThread(s, t, ok), n)
  {
    hide EnterStep, ContextStep, DeploymentStep, DestroyStep, CancelLatest, HasFinisher;
  }

  /** The steps of the owner of the OperationMutex of n, up to the one that releases it. */
  lemma HolderKeepsProgressing(s: State, t: nat, ok: bool, n: nat)
    requires Consistent(s) && CanAdvance(s, t)
    requires n < |s.heap| && !s.heap[n].isDestroyed && Progressing(s, n)
    requires s.heap[n].operationMutex == Some(t)
    ensures Progressing(AdvanceThread(s, t, ok), n)
  {
    hide Step;
    assert ThreadOk(s, t) && InstanceOk(s, n) && HolderOk(s, t, n);
    hide Progressing;
    if HasFinisher(s, n) {
      var f :| Finishes(s, f, n);
      assert ThreadOk(s, f);
      FinisherStays(s, t, ok, f, n);
    }
    if IsEntering(s.threads[t].pc) {
      EnteringHolderKeepsProgressing(s, t, ok, n);
    } else if ReadsAnyContext(s.threads[t].pc) {
      ReadingHolderKeepsProgressing(s, t, ok, n);
    } else if AbortsIfCancelled(s.threads[t].pc) {
      AbortingHolderKeepsProgressing(s, t, ok, n);
    } else if InDeployment(s.threads[t].pc) {
      EndingHolderKeepsProgressing(s, t, ok, n);
    } else if InDestroy(s.threads[t].pc) {
      DestroyingHolderKeepsProgressing(s, t, ok, n);
    } else {
      CommandHolderKeepsProgressing(s, t, ok, n);
    }
  }

  lemma AdvanceKeepsProgressing(s: State, t: nat, ok: bool, n: nat)
    requires Consistent(s) && CanAdvance(s, t)
    requires n < |s.heap| && Progressing(s, n)
    ensures Progressing(AdvanceThread(s, t, ok), n)
  {
    if s.heap[n].isDestroyed {
      StepHasShape(s, t, ok);
    } else if s.heap[n].operationMutex == Some(t) {
      HolderKeepsProgressing(s, t, ok, n);
    } else if AdvanceThread(s, t, ok).heap[n].operationMutex == Some(t) {
      AcquiringKeepsProgressing(s, t, ok, n);
    } else {
      assert ThreadOk(s, t) && InstanceOk(s, s.threads[t].instance) && InstanceOk(s, n);
      if HasFinisher(s, n) {
        FinishersStay(s, t, ok, n);
      }
      BystanderKeepsProgressing(s, t, ok, n);
    }
  }

  // ---------------------------------------------------------------------------------------------
  // Every run keeps the invariant
  // ---------------------------------------------------------------------------------------------

  lemma SpawnedIsOk(s: State, a: Action)
    requires !a.Advance? && Enabled(s, a) && |Apply(s, a).threads| > |s.threads|
    requires !a.CallRead? && a.lab in s.instances ==> MapOk(s, a.lab)
    ensures ThreadOk(Apply(s, a), |s.threads|)
  {
    var t := Apply(s, a).threads[|s.threads|];
    assert !HoldsOperationMutex(t.pc) && !HoldsDeploymentMutex(t.pc) && !InDeployment(t.pc) && !HasContext(t.pc);
    hide HoldsOperationMutex, HoldsDeploymentMutex, InDeployment, HasContext;
  }

  lemma CallKeepsThreadOk(s: State, a: Action, u: nat)
    requires !a.Advance? && Enabled(s, a) && u < |Apply(s, a).threads|
    requires u < |s.threads| ==> ThreadOk(s, u)
    requires !a.CallRead? && a.lab in s.instances ==> MapOk(s, a.lab)
    ensures ThreadOk(Apply(s, a), u)
  {
    hide HoldsOperationMutex, HoldsDeploymentMutex, InDeployment, HasContext;
    if u >= |s.threads| {
      SpawnedIsOk(s, a);
    }
  }

  lemma CallKeepsInstanceOk(s: State, a: Action, n: nat)
    requires !a.Advance? && Enabled(s, a) && n < |Apply(s, a).heap|
    requires n < |s.heap| ==> InstanceOk(s, n)
    ensures InstanceOk(Apply(s, a), n)
  {
  }

  lemma CallKeepsConsistent(s: State, a: Action)
    requires Consistent(s) && !a.Advance? && Enabled(s, a)
    ensures Consistent(Apply(s, a))
  {
    var s' := Apply(s, a);
    assert !a.CallRead? && a.lab in s.instances ==> MapOk(s, a.lab);
    forall u | 0 <= u < |s'.threads| ensures ThreadOk(s', u) {
      CallKeepsThreadOk(s, a, u);
    }
    forall n | 0 <= n < |s'.heap| ensures InstanceOk(s', n) {
      CallKeepsInstanceOk(s, a, n);
    }
    forall c | 0 <= c < |s'.contexts| ensures ContextOk(s', c) {
      assert ContextOk(s, c);
    }
    forall lab | lab in s'.instances ensures MapOk(s', lab) {
      assert lab in s.instances ==> MapOk(s, lab);
    }
  }

  lemma CallKeepsProgressing(s: State, a: Action, n: nat)
    requires Inv(s) && !a.Advance? && Enabled(s, a)
    requires n < |Apply(s, a).heap|
    ensures Progressing(Apply(s, a), n)
  {
    var s' := Apply(s, a);
    if n < |s.heap| {
      assert Progressing(s, n) && InstanceOk(s, n);
      if HasFinisher(s, n) {
        var f :| Finishes(s, f, n);
        assert Finishes(s', f, n);
      }
    } else {
      assert Finishes(s', |s.threads|, n);
    }
  }

  lemma ApplyKeepsInv(s: State, a: Action)
    requires Inv(s) && Enabled(s, a)
    ensures Inv(Apply(s, a))
  {
    var s' := Apply(s, a);
    match a
    case Advance(t, ok) =>
      AdvanceKeepsConsistent(s, t, ok);
      forall n | 0 <= n < |s'.heap| ensures Progressing(s', n) {
        AdvanceKeepsProgressing(s, t, ok, n);
      }
    case _ =>
      CallKeepsConsistent(s, a);
      forall n | 0 <= n < |s'.heap| ensures Progressing(s', n) {
        CallKeepsProgressing(s, a, n);
      }
  }

  lemma {:induction false} TraceKeepsInv(states: seq<State>, actions: seq<Action>, k: nat)
    requires Trace(states, actions) && k < |states|
    ensures Inv(states[k])
  {
    if k > 0 {
      TraceKeepsInv(states, actions, k - 1);
      ApplyKeepsInv(states[k - 1], actions[k - 1]);
    }
  }

  // ---------------------------------------------------------------------------------------------
  // What the protocol promises
  // ---------------------------------------------------------------------------------------------

  /** In every interleaving: an instance whose OperationMutex is free is not stopping, and if it is
      deploying, then a destroy waits for the mutex, or a call is still on its way to cancel or
      replace the context, or the owner of the latest context waits and has not been canceled. */
  lemma NobodyIsLeftDeploying(states: seq<State>, actions: seq<Action>, k: nat, n: nat)
    requires Trace(states, actions) && k < |states|
    requires n < |states[k].heap| && !states[k].heap[n].isDestroyed && states[k].heap[n].operationMutex.None?
    ensures states[k].heap[n].state != Stopping
    ensures states[k].heap[n].state == Deploying ==>
              exists t | 0 <= t < |states[k].threads| ::
                && states[k].threads[t].instance == n
                && (|| states[k].threads[t].pc.DestroyWaiting?
                    || IsStarting(states[k].threads[t].pc)
                    || (&& states[k].threads[t].pc.DeployWaiting?
                        && states[k].heap[n].deploymentCtx == Some(states[k].threads[t].ctx)
                        && !IsCancelled(states[k], states[k].threads[t].ctx)))
  {
    TraceKeepsInv(states, actions, k);
    assert Progressing(states[k], n);
    if states[k].heap[n].state == Deploying {
      var t :| Finishes(states[k], t, n);
    }
  }

  /** Of all contexts ever installed on an instance, only the latest can be alive. */
  lemma OnlyTheLatestContextIsAlive(states: seq<State>, actions: seq<Action>, k: nat, c: nat, d: nat)
    requires Trace(states, actions) && k < |states|
    requires c < |states[k].contexts| && d < |states[k].contexts|
    requires states[k].contexts[c].instance == states[k].contexts[d].instance
    requires !states[k].contexts[c].cancelled
    ensures states[k].contexts[c].instance < |states[k].heap|
    ensures states[k].heap[states[k].contexts[c].instance].deploymentCtx == Some(c)
    ensures d != c ==> states[k].contexts[d].cancelled
  {
    TraceKeepsInv(states, actions, k);
    assert ContextOk(states[k], c) && ContextOk(states[k], d);
  }

  /** The OperationMutex is held by one call at a time, and no deployment runs on a destroyed
      instance, from the check of the destroyed flag to the end of the deployment. */
  lemma OperationsExcludeEachOther(states: seq<State>, actions: seq<Action>, k: nat, t: nat, u: nat)
    requires Trace(states, actions) && k < |states|
    requires t < |states[k].threads| && u < |states[k].threads|
    requires states[k].threads[t].instance == states[k].threads[u].instance
    requires HoldsOperationMutex(states[k].threads[t].pc)
    ensures HoldsOperationMutex(states[k].threads[u].pc) ==> u == t
    ensures states[k].threads[t].instance < |states[k].heap|
    ensures InDeployment(states[k].threads[t].pc) ==>
              !states[k].heap[states[k].threads[t].instance].isDestroyed
  {
    TraceKeepsInv(states, actions, k);
    assert ThreadOk(states[k], t) && ThreadOk(states[k], u);
  }

  lemma ApplyKeepsDestroyed(s: State, a: Action, n: nat)
    requires Enabled(s, a) && n < |s.heap| && s.heap[n].isDestroyed
    ensures n < |Apply(s, a).heap| && Apply(s, a).heap[n].isDestroyed
  {
    if a.Advance? {
      StepHasShape(s, a.thread, a.ok);
    }
  }

  lemma {:induction false} DestroyedForever(states: seq<State>, actions: seq<Action>, j: nat, k: nat, n: nat)
    requires Trace(states, actions) && j <= k < |states|
    requires n < |states[j].heap| && states[j].heap[n].isDestroyed
    ensures n < |states[k].heap| && states[k].heap[n].isDestroyed
  {
    hide Step, CanAdvance, AdvanceThread, Init;
    if j < k {
      DestroyedForever(states, actions, j, k - 1, n);
      ApplyKeepsDestroyed(states[k - 1], actions[k - 1], n);
    }
  }

  lemma OnlyCheckedDeploy(s: State, t: nat, ok: bool)
    requires CanAdvance(s, t)
    ensures Step(s, t, ok).thread.pc.DeployCalling? ==> s.threads[t].pc.DeployChecked?
  {
    hide CancelLatest, IsCancelled;
    if IsEntering(s.threads[t].pc) {
      hide ContextStep, DeploymentStep, DestroyStep, CommandStep;
    } else if InDestroy(s.threads[t].pc) {
      hide EnterStep, ContextStep, DeploymentStep, CommandStep;
    } else {
      hide EnterStep, DestroyStep;
    }
  }

  /** Once an instance is destroyed, no later step of any run starts the provider's Deploy or Redeploy on it. */
  lemma NoDeployStartsOnceDestroyed(states: seq<State>, actions: seq<Action>, j: nat, k: nat, n: nat)
    requires Trace(states, actions) && j <= k < |actions|
    requires n < |states[j].heap| && states[j].heap[n].isDestroyed
    requires actions[k].Advance? && states[k].threads[actions[k].thread].instance == n
    ensures !states[k].threads[actions[k].thread].pc.DeployChecked?
    ensures !states[k + 1].threads[actions[k].thread].pc.DeployCalling?
  {
    hide Step, Init;
    OnlyCheckedDeploy(states[k], actions[k].thread, actions[k].ok);
    DestroyedForever(states, actions, j, k, n);
    TraceKeepsInv(states, actions, k);
    assert ThreadOk(states[k], actions[k].thread);
  }

  /** An instance that is in the map and destroyed is being taken out of it: its destroyer still holds the mutex. */
  lemma DestroyedInstancesLeaveTheMap(states: seq<State>, actions: seq<Action>, k: nat, lab: string)
    requires Trace(states, actions) && k < |states| && lab in states[k].instances
    ensures var s := states[k]; var n := s.instances[lab];
            && n < |s.heap|
            && (s.heap[n].isDestroyed ==>
                  exists t | 0 <= t < |s.threads| ::
                    && s.heap[n].operationMutex == Some(t)
                    && s.threads[t].instance == n && s.threads[t].lab == lab
                    && s.threads[t].pc.DestroyDeleting?)
  {
    TraceKeepsInv(states, actions, k);
    var s := states[k];
    assert MapOk(s, lab);
    var n := s.instances[lab];
    if s.heap[n].isDestroyed {
      assert InstanceOk(s, n);
      var t := s.heap[n].operationMutex.value;
      assert ThreadOk(s, t);
    }
  }

  // ---------------------------------------------------------------------------------------------
  // Every call returns
  // ---------------------------------------------------------------------------------------------

  function RankAfterContext(caller: Caller, nodes: nat): nat {
    match caller
    case Inspection => nodes + 4
    case NodeStart => 5
    case NodeFetch => 2
    case Listener => 0
  }

  /** An upper bound on the steps a thread still takes. */
  function Rank(thread: Thread, nodes: nat): nat {
    match thread.pc
    case Returned => 0
    case Releasing => 1
    case DeployFailing => 2
    case DeploySucceeding => 2
    case DeployErrored => 3
    case DeployStreaming => thread.left + 3
    case DeployInspecting => nodes + 4
    case DeployCalling => nodes + 7
    case DeployChecked => nodes + 8
    case DeployAcquired => nodes + 9
    case DeployWaiting => nodes + 10
    case DeployReplacing => nodes + 11
    case DeployLocked => nodes + 12
    case DeployFound => nodes + 13
    case DestroyDeleting => 2
    case DestroyMarking => 3
    case DestroyFailing => 2
    case DestroyCalling => 4
    case DestroyAcquired => 5
    case DestroyWaiting => 6
    case DestroyLocked => 7
    case DestroyFound => 8
    case NodeFetching => 2
    case NodeCalling => 5
    case NodeHolding(_) => 8
    case NodeFound(_) => 9
    case ContextLocked(caller) => RankAfterContext(caller, nodes) + 1
    case ContextWaiting(caller) => RankAfterContext(caller, nodes) + 2
  }

  function ThreadRank(thread: Thread, heap: seq<Instance>): nat {
    Rank(thread, if thread.instance < |heap| then heap[thread.instance].nodes else 0)
  }

  function Work(threads: seq<Thread>, heap: seq<Instance>): nat {
    if threads == [] then 0 else ThreadRank(threads[0], heap) + Work(threads[1..], heap)
  }

  ghost predicate SameNodes(heap: seq<Instance>, other: seq<Instance>) {
    |heap| == |other| && forall n | 0 <= n < |heap| :: heap[n].nodes == other[n].nodes
  }

  lemma {:induction false} WorkOfUpdate(threads: seq<Thread>, heap: seq<Instance>, other: seq<Instance>, t: nat,
                                        thread: Thread)
    requires t < |threads| && SameNodes(heap, other)
    ensures Work(threads[t := thread], other) + ThreadRank(threads[t], heap) ==
              Work(threads, heap) + ThreadRank(thread, heap)
  {
    var updated := threads[t := thread];
    if t == 0 {
      assert updated[1..] == threads[1..];
      WorkIgnoresState(threads[1..], heap, other);
    } else {
      assert updated[1..] == threads[1..][t - 1 := thread];
      WorkOfUpdate(threads[1..], heap, other, t - 1, thread);
    }
  }

  lemma {:induction false} WorkIgnoresState(threads: seq<Thread>, heap: seq<Instance>, other: seq<Instance>)
    requires SameNodes(heap, other)
    ensures Work(threads, heap) == Work(threads, other)
  {
    if threads != [] {
      WorkIgnoresState(threads[1..], heap, other);
    }
  }

  ghost predicate RankFalls(s: State, t: nat, e: Effect)
    requires t < |s.threads| && s.threads[t].instance < |s.heap|
  {
    Rank(e.thread, s.heap[s.threads[t].instance].nodes) < Rank(s.threads[t], s.heap[s.threads[t].instance].nodes)
  }

  lemma EnterLowersRank(s: State, t: nat, ok: bool)
    requires CanAdvance(s, t) && IsEntering(s.threads[t].pc)
    ensures RankFalls(s, t, EnterStep(s, t, ok))
  {
    hide CancelLatest, IsCancelled;
  }

  lemma ContextLowersRank(s: State, t: nat, ok: bool)
    requires CanAdvance(s, t) && ReadsAnyContext(s.threads[t].pc)
    ensures RankFalls(s, t, ContextStep(s, t, ok))
  {
    hide CancelLatest, IsCancelled;
  }

  lemma DeploymentLowersRank(s: State, t: nat, ok: bool)
    requires CanAdvance(s, t) && InDeployment(s.threads[t].pc) && !ReadsAnyContext(s.threads[t].pc)
    ensures RankFalls(s, t, DeploymentStep(s, t, ok))
  {
    hide CancelLatest, IsCancelled;
    if s.threads[t].pc.DeployStreaming? {
      assert DeploymentStep(s, t, ok).thread.pc.DeployStreaming? ==>
          DeploymentStep(s, t, ok).thread.left < s.threads[t].left;
    }
  }

  lemma DestroyLowersRank(s: State, t: nat, ok: bool)
    requires CanAdvance(s, t) && InDestroy(s.threads[t].pc)
    ensures RankFalls(s, t, DestroyStep(s, t, ok))
  {
    hide CancelLatest, IsCancelled;
  }

  lemma CommandLowersRank(s: State, t: nat, ok: bool)
    requires CanAdvance(s, t) && IsCommand(s.threads[t].pc)
    ensures RankFalls(s, t, CommandStep(s, t, ok))
  {
    hide CancelLatest, IsCancelled;
  }

  lemma StepLowersRank(s: State, t: nat, ok: bool)
    requires CanAdvance(s, t)
    ensures RankFalls(s, t, Step(s, t, ok))
  {
    hide EnterStep, ContextStep, DeploymentStep, DestroyStep, CommandStep, RankFalls;
    if IsEntering(s.threads[t].pc) {
      EnterLowersRank(s, t, ok);
    } else if ReadsAnyContext(s.threads[t].pc) {
      ContextLowersRank(s, t, ok);
    } else if InDeployment(s.threads[t].pc) {
      DeploymentLowersRank(s, t, ok);
    } else if InDestroy(s.threads[t].pc) {
      DestroyLowersRank(s, t, ok);
    } else {
      CommandLowersRank(s, t, ok);
    }
  }

  lemma AdvanceLowersWork(s: State, t: nat, ok: bool)
    requires CanAdvance(s, t)
    ensures var s' := AdvanceThread(s, t, ok); Work(s'.threads, s'.heap) < Work(s.threads, s.heap)
  {
    var s' := AdvanceThread(s, t, ok);
    StepHasShape(s, t, ok);
    StepLowersRank(s, t, ok);
    WorkOfUpdate(s.threads, s.heap, s'.heap, t, s'.threads[t]);
  }

  /** Thread u owns the mutex that thread t is waiting for. */
  predicate Blocks(s: State, u: nat, t: nat)
    requires t < |s.threads| && s.threads[t].instance < |s.heap|
  {
    var i, pc := s.heap[s.threads[t].instance], s.threads[t].pc;
    || (WantsDeploymentMutex(pc) && i.deploymentMutex == Some(u))
    || (WantsOperationMutex(pc) && i.operationMutex == Some(u))
  }

  /** Whoever a call waits for works on the same instance, and only waits itself if the call is the outer of two
      waits: the owner of OperationMutex waits for DeploymentMutex, whose owner never waits. */
  lemma BlockerIsAhead(s: State, u: nat, t: nat)
    requires Consistent(s) && t < |s.threads| && s.threads[t].instance < |s.heap| && Blocks(s, u, t)
    ensures u < |s.threads| && s.threads[u].instance == s.threads[t].instance && !s.threads[u].pc.Returned?
    ensures WantsDeploymentMutex(s.threads[t].pc) ==> CanAdvance(s, u)
    ensures WantsOperationMutex(s.threads[t].pc) ==>
              HoldsOperationMutex(s.threads[u].pc) && !WantsOperationMutex(s.threads[u].pc)
  {
    assert InstanceOk(s, s.threads[t].instance);
  }

  /** A call that can't take a step is blocked by one that can, or by one that is blocked by one that can. */
  lemma WaitsEnd(s: State, t: nat) returns (u: nat)
    requires Consistent(s) && t < |s.threads| && s.threads[t].pc != Returned
    ensures u < |s.threads| && CanAdvance(s, u) && s.threads[u].instance == s.threads[t].instance < |s.heap|
    ensures u == t || Blocks(s, u, t)
            || exists h | 0 <= h < |s.threads| && s.threads[h].instance < |s.heap| :: Blocks(s, h, t) && Blocks(s, u, h)
  {
    hide HoldsOperationMutex, HoldsDeploymentMutex, WantsDeploymentMutex, WantsOperationMutex;
    assert ThreadOk(s, t);
    var i := s.heap[s.threads[t].instance];
    if CanAdvance(s, t) {
      u := t;
    } else {
      var h := if WantsDeploymentMutex(s.threads[t].pc) && i.deploymentMutex.Some? then i.deploymentMutex.value
               else i.operationMutex.value;
      BlockerIsAhead(s, h, t);
      if CanAdvance(s, h) {
        u := h;
      } else {
        u := i.deploymentMutex.value;
        BlockerIsAhead(s, u, h);
      }
    }
  }

  /** The mutexes never deadlock, and no lab makes another one wait: as long as a call has not returned, some call
      on the same instance can take a step. */
  lemma SomeCallAdvances(s: State, t: nat)
    requires Consistent(s) && t < |s.threads| && s.threads[t].pc != Returned
    ensures exists u | 0 <= u < |s.threads| :: CanAdvance(s, u) && s.threads[u].instance == s.threads[t].instance
  {
    var u := WaitsEnd(s, t);
  }

  /** A run in which no new calls arrive. Listeners, which the running calls start as well, may go on to read
      the context. */
  ghost predicate Continuation(states: seq<State>, actions: seq<Action>) {
    && |states| == |actions| + 1
    && forall k | 0 <= k < |actions| ::
         && (actions[k].Advance? || actions[k].CallRead?)
         && Enabled(states[k], actions[k]) && states[k + 1] == Apply(states[k], actions[k])
  }

  function Reads(actions: seq<Action>): nat {
    if actions == [] then 0
    else Reads(actions[..|actions| - 1]) + if actions[|actions| - 1].CallRead? then 1 else 0
  }

  lemma {:induction false} WorkOfAppend(threads: seq<Thread>, thread: Thread, heap: seq<Instance>)
    ensures Work(threads + [thread], heap) == Work(threads, heap) + ThreadRank(thread, heap)
  {
    if threads == [] {
      assert Work([thread], heap) == ThreadRank(thread, heap) + Work([], heap);
    } else {
      assert (threads + [thread])[1..] == threads[1..] + [thread];
      WorkOfAppend(threads[1..], thread, heap);
    }
  }

  lemma ReadAddsWork(s: State, n: nat)
    requires n < |s.heap|
    ensures var s' := Apply(s, CallRead(n)); Work(s'.threads, s'.heap) == Work(s.threads, s.heap) + 2
  {
    WorkOfAppend(s.threads, Thread(s.heap[n].uuid, n, false, 0, 0, ContextWaiting(Listener)), s.heap);
  }

  lemma {:induction false} ContinuationIsBounded(states: seq<State>, actions: seq<Action>)
    requires Continuation(states, actions) && Inv(states[0])
    ensures |actions| + Work(states[|actions|].threads, states[|actions|].heap)
            <= Work(states[0].threads, states[0].heap) + 3 * Reads(actions)
    ensures Inv(states[|actions|])
  {
    hide Inv, Work, CanAdvance, AdvanceThread, Step;
    var last := |actions| - 1;
    if |actions| > 0 {
      ContinuationIsBounded(states[..|actions|], actions[..last]);
      ApplyKeepsInv(states[last], actions[last]);
      match actions[last]
      case Advance(t, ok) => AdvanceLowersWork(states[last], t, ok);
      case CallRead(n) => ReadAddsWork(states[last], n);
    }
  }

  /** A state in which no call can take a step. */
  lemma StuckIsSettled(s: State)
    requires Inv(s) && forall t :: !CanAdvance(s, t)
    ensures forall t | 0 <= t < |s.threads| :: s.threads[t].pc == Returned
    ensures forall n | 0 <= n < |s.heap| ::
              && s.heap[n].operationMutex.None? && s.heap[n].deploymentMutex.None?
              && (s.heap[n].isDestroyed || s.heap[n].state == Running || s.heap[n].state == Failed)
    ensures forall lab | lab in s.instances :: s.instances[lab] < |s.heap| && !s.heap[s.instances[lab]].isDestroyed
  {
    forall t | 0 <= t < |s.threads| ensures s.threads[t].pc == Returned {
      if s.threads[t].pc != Returned {
        SomeCallAdvances(s, t);
      }
    }
    forall n | 0 <= n < |s.heap|
      ensures s.heap[n].operationMutex.None? && s.heap[n].deploymentMutex.None?
      ensures s.heap[n].isDestroyed || s.heap[n].state == Running || s.heap[n].state == Failed
    {
      assert InstanceOk(s, n) && Progressing(s, n);
    }
    forall lab | lab in s.instances
      ensures s.instances[lab] < |s.heap| && !s.heap[s.instances[lab]].isDestroyed
    {
      assert MapOk(s, lab);
    }
  }

  /** From every reachable state, if no new calls arrive, all calls return within a bounded number of
      steps, three more for every listener that reads the context, however they interleave and whatever the
      provider answers; and when they have, every
      instance in the map is alive, unlocked, and either running or failed. */
  lemma EveryCallReturnsAndEveryLabSettles(
      before: seq<State>, calls: seq<Action>, states: seq<State>, actions: seq<Action>)
    requires Trace(before, calls) && Continuation(states, actions) && states[0] == before[|calls|]
    requires forall t :: !CanAdvance(states[|actions|], t)
    ensures |actions| <= Work(states[0].threads, states[0].heap) + 3 * Reads(actions)
    ensures var s := states[|actions|];
            && (forall t | 0 <= t < |s.threads| :: s.threads[t].pc == Returned)
            && (forall n | 0 <= n < |s.heap| ::
                  && s.heap[n].operationMutex.None? && s.heap[n].deploymentMutex.None?
                  && (s.heap[n].isDestroyed || s.heap[n].state == Running || s.heap[n].state == Failed))
            && (forall lab | lab in s.instances ::
                  s.instances[lab] < |s.heap| && !s.heap[s.instances[lab]].isDestroyed)
  {
    hide Step, InstanceOk, Progressing, MapOk, CanAdvance;
    TraceKeepsInv(before, calls, |calls|);
    ContinuationIsBounded(states, actions);
    StuckIsSettled(states[|actions|]);
  }

  // ---------------------------------------------------------------------------------------------
  // Instances the map holds
  // ---------------------------------------------------------------------------------------------

  /** Every instance that is not destroyed is the one the map holds for its lab. */
  ghost predicate AllMapped(s: State) {
    forall n | 0 <= n < |s.heap| :: s.heap[n].isDestroyed || InMap(s, n)
  }

  /** The thread is about to delete its lab, for which the map holds another instance that is not destroyed. */
  predicate DeletesAnother(s: State, t: nat) {
    && t < |s.threads| && s.threads[t].pc.DestroyDeleting? && s.threads[t].lab in s.instances
    && var n := s.instances[s.threads[t].lab];
       n != s.threads[t].instance && n < |s.heap| && !s.heap[n].isDestroyed
  }

  /** The exact condition under which a step loses no instance. */
  lemma StepKeepsAllMapped(s: State, t: nat, ok: bool)
    requires Inv(s) && AllMapped(s) && CanAdvance(s, t)
    ensures AllMapped(AdvanceThread(s, t, ok)) <==> !DeletesAnother(s, t)
  {
    var s' := AdvanceThread(s, t, ok);
    assert ThreadOk(s, t);
    StepHasShape(s, t, ok);
    if DeletesAnother(s, t) {
      var n := s.instances[s.threads[t].lab];
      assert MapOk(s, s.threads[t].lab);
      assert !s'.heap[n].isDestroyed && !InMap(s', n);
    } else {
      forall n | 0 <= n < |s'.heap| ensures s'.heap[n].isDestroyed || InMap(s', n) {
        assert s.heap[n].isDestroyed || InMap(s, n);
      }
    }
  }

  lemma CallKeepsAllMapped(s: State, a: Action)
    requires Inv(s) && AllMapped(s) && !a.Advance? && Enabled(s, a)
    ensures AllMapped(Apply(s, a))
  {
    var s' := Apply(s, a);
    forall n | 0 <= n < |s'.heap| ensures s'.heap[n].isDestroyed || InMap(s', n) {
      assert n < |s.heap| ==> s.heap[n].isDestroyed || InMap(s, n);
    }
  }

  ghost predicate NothingIsLostBefore(states: seq<State>, actions: seq<Action>, k: nat)
    requires |states| == |actions| + 1 && k < |states|
  {
    forall j | 0 <= j < k && actions[j].Advance? :: !DeletesAnother(states[j], actions[j].thread)
  }

  lemma {:induction false} MappedUnlessDeleted(states: seq<State>, actions: seq<Action>, k: nat)
    requires Trace(states, actions) && k < |states| && NothingIsLostBefore(states, actions, k)
    ensures AllMapped(states[k])
  {
    if k > 0 {
      MappedUnlessDeleted(states, actions, k - 1);
      TraceKeepsInv(states, actions, k - 1);
      match actions[k - 1]
      case Advance(t, ok) => StepKeepsAllMapped(states[k - 1], t, ok);
      case _ => CallKeepsAllMapped(states[k - 1], actions[k - 1]);
    }
  }

  /** Over a whole run, every instance that is not destroyed is the one the map holds for its lab, exactly if
      no destroy ever deletes its lab while the map holds a newer instance of it. */
  lemma InstancesAreLostExactlyByStaleDeletes(states: seq<State>, actions: seq<Action>)
    requires Trace(states, actions)
    ensures (forall k | 0 <= k < |states| :: AllMapped(states[k]))
            <==> (forall k | 0 <= k < |actions| && actions[k].Advance? :: !DeletesAnother(states[k], actions[k].thread))
  {
    if forall k | 0 <= k < |actions| && actions[k].Advance? :: !DeletesAnother(states[k], actions[k].thread) {
      forall k | 0 <= k < |states| ensures AllMapped(states[k]) {
        MappedUnlessDeleted(states, actions, k);
      }
    }
    if forall k | 0 <= k < |states| :: AllMapped(states[k]) {
      forall k | 0 <= k < |actions| && actions[k].Advance? ensures !DeletesAnother(states[k], actions[k].thread) {
        TraceKeepsInv(states, actions, k);
        assert AllMapped(states[k + 1]);
        StepKeepsAllMapped(states[k], actions[k].thread, actions[k].ok);
      }
    }
  }

  // ---------------------------------------------------------------------------------------------
  // Overlapping destroys of one lab
  // ---------------------------------------------------------------------------------------------

  /** DestroyLab is only called for a lab while no other DestroyLab call of that lab is running. */
  ghost predicate DestroysAreSerial(states: seq<State>, actions: seq<Action>)
    requires |states| == |actions| + 1
  {
    forall k, t | 0 <= k < |actions| && actions[k].CallDestroy? && 0 <= t < |states[k].threads| ::
      states[k].threads[t].lab == actions[k].lab ==> !InDestroy(states[k].threads[t].pc)
  }

  ghost predicate DestroyerOk(s: State, t: nat)
    requires t < |s.threads|
  {
    InDestroy(s.threads[t].pc) ==>
      && s.threads[t].lab in s.instances
      && s.instances[s.threads[t].lab] == s.threads[t].instance
      && forall u | 0 <= u < |s.threads| && InDestroy(s.threads[u].pc) ::
           s.threads[u].lab == s.threads[t].lab ==> u == t
  }

  ghost predicate SerialInv(s: State) {
    && AllMapped(s)
    && (forall t | 0 <= t < |s.threads| :: DestroyerOk(s, t))
  }

  lemma StepStaysInDestroy(s: State, t: nat, ok: bool)
    requires CanAdvance(s, t)
    ensures InDestroy(Step(s, t, ok).thread.pc) ==> InDestroy(s.threads[t].pc) && !s.threads[t].pc.DestroyDeleting?
  {
    hide CancelLatest, IsCancelled;
    if IsEntering(s.threads[t].pc) {
      hide ContextStep, DeploymentStep, DestroyStep, CommandStep;
    } else if ReadsAnyContext(s.threads[t].pc) {
      hide EnterStep, DeploymentStep, DestroyStep, CommandStep;
    } else if InDestroy(s.threads[t].pc) {
      hide EnterStep, ContextStep, DeploymentStep, CommandStep;
    } else {
      hide EnterStep, ContextStep, DestroyStep;
    }
  }

  lemma AdvanceKeepsSerial(s: State, t: nat, ok: bool)
    requires Inv(s) && SerialInv(s) && CanAdvance(s, t)
    ensures SerialInv(AdvanceThread(s, t, ok)) && !DeletesAnother(s, t)
  {
    hide Step;
    var s' := AdvanceThread(s, t, ok);
    assert ThreadOk(s, t) && DestroyerOk(s, t);
    StepHasShape(s, t, ok);
    StepKeepsAllMapped(s, t, ok);
    StepStaysInDestroy(s, t, ok);
    forall u | 0 <= u < |s'.threads| ensures DestroyerOk(s', u) {
      assert DestroyerOk(s, u);
    }
  }

  lemma CallKeepsSerial(s: State, a: Action)
    requires Inv(s) && SerialInv(s) && !a.Advance? && Enabled(s, a)
    requires a.CallDestroy? ==>
               forall t | 0 <= t < |s.threads| :: s.threads[t].lab == a.lab ==> !InDestroy(s.threads[t].pc)
    ensures SerialInv(Apply(s, a))
  {
    var s' := Apply(s, a);
    CallKeepsAllMapped(s, a);
    forall u | 0 <= u < |s'.threads| ensures DestroyerOk(s', u) {
      assert u < |s.threads| ==> DestroyerOk(s, u);
    }
  }

  lemma {:induction false} SerialRunsStaySerial(states: seq<State>, actions: seq<Action>, k: nat)
    requires Trace(states, actions) && DestroysAreSerial(states, actions) && k < |states|
    ensures SerialInv(states[k])
  {
    if k > 0 {
      SerialRunsStaySerial(states, actions, k - 1);
      TraceKeepsInv(states, actions, k - 1);
      match actions[k - 1]
      case Advance(t, ok) => AdvanceKeepsSerial(states[k - 1], t, ok);
      case _ => CallKeepsSerial(states[k - 1], actions[k - 1]);
    }
  }

  /** What callers can do: as long as destroys of one lab never overlap, no destroy deletes a newer instance,
      so no lab has two live instances and none is lost. */
  lemma SerialDestroysNeverLoseAnInstance(states: seq<State>, actions: seq<Action>, k: nat)
    requires Trace(states, actions) && DestroysAreSerial(states, actions) && k < |states|
    ensures AllMapped(states[k])
    ensures forall j | 0 <= j < |actions| && actions[j].Advance? :: !DeletesAnother(states[j], actions[j].thread)
  {
    forall j | 0 <= j < |actions| && actions[j].Advance? ensures !DeletesAnother(states[j], actions[j].thread) {
      SerialRunsStaySerial(states, actions, j);
      TraceKeepsInv(states, actions, j);
      AdvanceKeepsSerial(states[j], actions[j].thread, actions[j].ok);
    }
    InstancesAreLostExactlyByStaleDeletes(states, actions);
  }

  lemma ExtendTrace(states: seq<State>, actions: seq<Action>, a: Action) returns (s: seq<State>, b: seq<Action>)
    requires Trace(states, actions) && Enabled(states[|actions|], a)
    ensures Trace(s, b) && |b| == |actions| + 1 && s[|b|] == Apply(states[|actions|], a)
  {
    s, b := states + [Apply(states[|actions|], a)], actions + [a];
  }

  /** State s with thread t at another program counter and its instance changed. */
  function At(s: State, t: nat, i: Instance, pc: Pc): State
    requires t < |s.threads| && s.threads[t].instance < |s.heap|
  {
    s.(heap := s.heap[s.threads[t].instance := i], threads := s.threads[t := s.threads[t].(pc := pc)])
  }

  lemma AtMeans(s: State, t: nat, i: Instance, pc: Pc)
    requires t < |s.threads| && s.threads[t].instance < |s.heap|
    ensures var at := At(s, t, i, pc);
            && |at.threads| == |s.threads| && at.threads[t] == s.threads[t].(pc := pc)
            && |at.heap| == |s.heap| && at.heap[s.threads[t].instance] == i
            && at.contexts == s.contexts && at.instances == s.instances
  {
  }

  /** A step of a destroy that does not change the contexts. */
  lemma ExtendDestroy(states: seq<State>, actions: seq<Action>, s: State, t: nat, i: Instance, pc: Pc, j: Instance,
                      next: Pc)
      returns (states': seq<State>, actions': seq<Action>)
    requires Trace(states, actions)
    requires t < |s.threads| && s.threads[t].instance < |s.heap| && states[|actions|] == At(s, t, i, pc)
    requires CanAdvance(At(s, t, i, pc), t) && InDestroy(pc)
    requires DestroyStep(At(s, t, i, pc), t, true) == Effect(s.threads[t].(pc := next), j, s.contexts, s.instances)
    ensures Trace(states', actions') && states'[|actions'|] == At(s, t, j, next)
  {
    hide DestroyStep, At, Trace;
    AtMeans(s, t, i, pc);
    states', actions' := ExtendFrom(states, actions, s, t, i, pc, j, next);
  }

  lemma ExtendFrom(states: seq<State>, actions: seq<Action>, s: State, t: nat, i: Instance, pc: Pc, j: Instance,
                   next: Pc)
      returns (states': seq<State>, actions': seq<Action>)
    requires Trace(states, actions)
    requires t < |s.threads| && s.threads[t].instance < |s.heap| && states[|actions|] == At(s, t, i, pc)
    requires CanAdvance(At(s, t, i, pc), t)
    requires Step(At(s, t, i, pc), t, true) == Effect(s.threads[t].(pc := next), j, s.contexts, s.instances)
    ensures Trace(states', actions') && states'[|actions'|] == At(s, t, j, next)
  {
    states', actions' := ExtendTrace(states, actions, Advance(t, true));
    assert AdvanceThread(At(s, t, i, pc), t, true) == At(s, t, j, next);
  }

  lemma DestroyTakesOver(states: seq<State>, actions: seq<Action>, s: State, t: nat, i: Instance)
      returns (states': seq<State>, actions': seq<Action>)
    requires Trace(states, actions)
    requires t < |s.threads| && s.threads[t].instance < |s.heap| && states[|actions|] == At(s, t, i, DestroyFound)
    requires i.deploymentMutex.None? && i.operationMutex.None? && i.deploymentCtx.None?
    ensures Trace(states', actions')
    ensures states'[|actions'|] == At(s, t, i.(operationMutex := Some(t)), DestroyAcquired)
  {
    hide At, Trace, EnterStep, ContextStep, DeploymentStep, CommandStep;
    var i1, i3 := i.(deploymentMutex := Some(t)), i.(operationMutex := Some(t));
    AtMeans(s, t, i, DestroyFound);
    states', actions' := ExtendDestroy(states, actions, s, t, i, DestroyFound, i1, DestroyLocked);
    AtMeans(s, t, i1, DestroyLocked);
    states', actions' := ExtendDestroy(states', actions', s, t, i1, DestroyLocked, i, DestroyWaiting);
    AtMeans(s, t, i, DestroyWaiting);
    states', actions' := ExtendDestroy(states', actions', s, t, i, DestroyWaiting, i3, DestroyAcquired);
  }

  lemma DestroyFinishes(states: seq<State>, actions: seq<Action>, s: State, t: nat, i: Instance)
      returns (states': seq<State>, actions': seq<Action>)
    requires Trace(states, actions)
    requires t < |s.threads| && s.threads[t].instance < |s.heap| && states[|actions|] == At(s, t, i, DestroyAcquired)
    ensures Trace(states', actions')
    ensures states'[|actions'|] == At(s, t, i.(state := Stopping, isDestroyed := true), DestroyDeleting)
  {
    hide At, Trace, EnterStep, ContextStep, DeploymentStep, CommandStep;
    var i4 := i.(state := Stopping);
    var i6 := i4.(isDestroyed := true);
    AtMeans(s, t, i, DestroyAcquired);
    states', actions' := ExtendDestroy(states, actions, s, t, i, DestroyAcquired, i4, DestroyCalling);
    AtMeans(s, t, i4, DestroyCalling);
    states', actions' := ExtendDestroy(states', actions', s, t, i4, DestroyCalling, i4, DestroyMarking);
    AtMeans(s, t, i4, DestroyMarking);
    states', actions' := ExtendDestroy(states', actions', s, t, i4, DestroyMarking, i6, DestroyDeleting);
  }

  lemma DestroyDeletes(states: seq<State>, actions: seq<Action>, s: State, t: nat, i: Instance)
      returns (states': seq<State>, actions': seq<Action>)
    requires Trace(states, actions)
    requires t < |s.threads| && s.threads[t].instance < |s.heap| && states[|actions|] == At(s, t, i, DestroyDeleting)
    ensures Trace(states', actions')
    ensures states'[|actions'|] == At(s, t, i, Releasing).(instances := s.instances - {s.threads[t].lab})
  {
    hide Trace, EnterStep, ContextStep, DeploymentStep, CommandStep, CancelLatest;
    AtMeans(s, t, i, DestroyDeleting);
    states', actions' := ExtendTrace(states, actions, Advance(t, true));
    var next := AdvanceThread(At(s, t, i, DestroyDeleting), t, true);
    assert next.threads == At(s, t, i, Releasing).threads && next.heap == At(s, t, i, Releasing).heap;
  }

  /** A destroy that nothing gets in the way of, up to the unlocking. */
  lemma RunDestroy(states: seq<State>, actions: seq<Action>, t: nat, n: nat)
      returns (states': seq<State>, actions': seq<Action>)
    requires Trace(states, actions)
    requires var s := states[|actions|];
             && t < |s.threads| && s.threads[t].pc == DestroyFound && s.threads[t].instance == n < |s.heap|
             && s.heap[n].deploymentMutex.None? && s.heap[n].operationMutex.None? && s.heap[n].deploymentCtx.None?
    ensures Trace(states', actions')
    ensures var s, s' := states[|actions|], states'[|actions'|];
            && s'.instances == s.instances - {s.threads[t].lab}
            && s'.threads == s.threads[t := s.threads[t].(pc := Releasing)]
            && s'.heap == s.heap[n := s.heap[n].(state := Stopping, isDestroyed := true, operationMutex := Some(t))]
  {
    var s := states[|actions|];
    assert s == At(s, t, s.heap[n], DestroyFound);
    states', actions' := DestroyTakesOver(states, actions, s, t, s.heap[n]);
    states', actions' := DestroyFinishes(states', actions', s, t, s.heap[n].(operationMutex := Some(t)));
    states', actions' := DestroyDeletes(states', actions', s, t,
                                        s.heap[n].(state := Stopping, isDestroyed := true, operationMutex := Some(t)));
  }

  /** A lab is deployed and destroyed twice before the first of these calls has taken a step. */
  lemma TwoDestroysStart(lab: string) returns (states: seq<State>, actions: seq<Action>)
    ensures Trace(states, actions)
    ensures var destroy := Thread(lab, 0, false, 0, 0, DestroyFound);
            states[|actions|] ==
              State(map[lab := 0], [Instance(lab, 1, Deploying, false, None, None, None)], [],
                    [Thread(lab, 0, false, 0, 0, DeployFound), destroy, destroy])
  {
    assert Trace([State(map[], [], [], [])], []);
    states, actions := ExtendTrace([State(map[], [], [], [])], [], CallDeploy(lab, 1, true));
    states, actions := ExtendTrace(states, actions, CallDestroy(lab));
    states, actions := ExtendTrace(states, actions, CallDestroy(lab));
  }

  lemma CallReturns(states: seq<State>, actions: seq<Action>, t: nat, n: nat)
      returns (states': seq<State>, actions': seq<Action>)
    requires Trace(states, actions)
    requires var s := states[|actions|];
             t < |s.threads| && s.threads[t].pc == Releasing && s.threads[t].instance == n < |s.heap|
    ensures Trace(states', actions')
    ensures var s, s' := states[|actions|], states'[|actions'|];
            && s'.instances == s.instances
            && s'.threads == s.threads[t := s.threads[t].(pc := Returned)]
            && s'.heap == s.heap[n := s.heap[n].(operationMutex := None)]
  {
    var s := states[|actions|];
    assert s == At(s, t, s.heap[n], Releasing);
    states', actions' := ExtendFrom(states, actions, s, t, s.heap[n], Releasing,
                                    s.heap[n].(operationMutex := None), Returned);
  }

  lemma LabIsAdded(states: seq<State>, actions: seq<Action>, lab: string)
      returns (states': seq<State>, actions': seq<Action>)
    requires Trace(states, actions) && lab !in states[|actions|].instances
    ensures Trace(states', actions')
    ensures var s, s' := states[|actions|], states'[|actions'|];
            && s'.instances == s.instances[lab := |s.heap|]
            && s'.threads == s.threads + [Thread(lab, |s.heap|, false, 0, 0, DeployFound)]
            && s'.heap == s.heap + [Instance(lab, 1, Deploying, false, None, None, None)]
  {
    states', actions' := ExtendTrace(states, actions, CallDeploy(lab, 1, true));
  }

  /** The first destroy finishes and the lab is deployed again, while the second destroy still waits. */
  lemma LabIsDeployedAgain(lab: string) returns (states: seq<State>, actions: seq<Action>)
    ensures Trace(states, actions)
    ensures var s := states[|actions|];
            && |s.heap| == 2 && |s.threads| == 4 && s.threads[2] == Thread(lab, 0, false, 0, 0, DestroyFound)
            && s.heap[0].deploymentMutex.None? && s.heap[0].operationMutex.None? && s.heap[0].deploymentCtx.None?
            && s.heap[1] == Instance(lab, 1, Deploying, false, None, None, None)
            && s.instances == map[lab := 1]
  {
    hide Trace;
    states, actions := TwoDestroysStart(lab);
    TraceLength(states, actions);
    states, actions := RunDestroy(states, actions, 1, 0);
    TraceLength(states, actions);
    states, actions := CallReturns(states, actions, 1, 0);
    TraceLength(states, actions);
    states, actions := LabIsAdded(states, actions, lab);
    TraceLength(states, actions);
  }

  lemma TraceLength(states: seq<State>, actions: seq<Action>)
    requires Trace(states, actions)
    ensures |states| == |actions| + 1
  {
  }

  /** If destroys overlap, it can happen: a destroy that still waits when another destroy of the lab
      finishes takes the instance of the next deployment out of the map. */
  lemma OverlappingDestroysLoseAnInstance() returns (states: seq<State>, actions: seq<Action>)
    ensures Trace(states, actions)
    ensures exists n | 0 <= n < |states[|actions|].heap| ::
              !states[|actions|].heap[n].isDestroyed && states[|actions|].heap[n].uuid !in states[|actions|].instances
  {
    states, actions := LabIsDeployedAgain("lab");
    states, actions := RunDestroy(states, actions, 2, 0);
    assert !states[|actions|].heap[1].isDestroyed;
  }
}
