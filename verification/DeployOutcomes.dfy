/** What the calls of the instance service leave behind, told by the answers they got.

    A call's story is read off the run: which answer the provider gave to each of its requests, and what it saw
    when it looked at its context. In every interleaving this story alone says in which state the instance is when
    the call unlocks OperationMutex. */
module DeployOutcomes {
  import opened Wrappers
  import opened DeployProtocol

  /** `found` is the instance as it was when the call took OperationMutex. The answers of the provider are those to
      Deploy or Redeploy, InspectLab, Destroy, to the node command and InspectNode, and `checked` is whether the node
      was there. `visited` counts the nodes that the loop which starts log streams is done with, `looks` the times the
      call read the context of the instance, and `gaveUp` says that it turned back because its context was cancelled
      or the instance destroyed. */
  datatype Story = Story(
    found: Option<Instance>,
    deployed: Option<bool>,
    inspected: Option<bool>,
    destroyed: Option<bool>,
    checked: Option<bool>,
    called: Option<bool>,
    fetched: Option<bool>,
    visited: nat,
    looks: nat,
    gaveUp: bool)

  const SILENCE := Story(None, None, None, None, None, None, None, 0, 0, false)

  /** What thread t learns in state s, where the operation it is about to perform ends with ok. */
  function Hear(h: Story, s: State, t: nat, ok: bool): Story
    requires CanAdvance(s, t)
  {
    var me := s.threads[t];
    var i := s.heap[me.instance];
    var cancelled := IsCancelled(s, me.ctx);
    match me.pc
    case DeployWaiting => h.(found := Some(i))
    case DestroyWaiting => h.(found := Some(i))
    case NodeFound(_) => if i.operationMutex.None? then h.(found := Some(i)) else h
    case DeployAcquired => h.(gaveUp := cancelled || i.isDestroyed)
    case DeployCalling => h.(deployed := Some(ok))
    case DeployInspecting => h.(inspected := Some(ok))
    case DeployStreaming =>
      if me.left == 0 then h else if !ok && cancelled then h.(gaveUp := true) else h.(visited := h.visited + 1)
    case DeployErrored => h.(gaveUp := cancelled)
    case DestroyCalling => h.(destroyed := Some(ok))
    case NodeHolding(_) => h.(checked := Some(ok))
    case NodeCalling => h.(called := Some(ok))
    case NodeFetching => h.(fetched := Some(ok))
    case ContextLocked(_) => h.(looks := h.looks + 1)
    case _ => h
  }

  /** The story of thread t up to states[k]. */
  function Heard(states: seq<State>, actions: seq<Action>, t: nat, k: nat): Story
    requires |states| == |actions| + 1 && k < |states|
  {
    if k == 0 then SILENCE
    else
      var h := Heard(states, actions, t, k - 1);
      if actions[k - 1].Advance? && actions[k - 1].thread == t && CanAdvance(states[k - 1], t)
      then Hear(h, states[k - 1], t, actions[k - 1].ok)
      else h
  }

  /** Action j is the call that thread t runs. */
  ghost predicate Calls(states: seq<State>, actions: seq<Action>, j: nat, t: nat)
    requires |states| == |actions| + 1
  {
    j < |actions| && !actions[j].Advance? && |states[j].threads| == t < |states[j + 1].threads|
  }

  predicate SameOutcome(i: Instance, j: Instance) {
    i.state == j.state && i.isDestroyed == j.isDestroyed
  }

  // ---------------------------------------------------------------------------------------------
  // How far the story goes at each program counter
  // ---------------------------------------------------------------------------------------------

  /** Nothing was heard from the provider about deployments. */
  predicate NoDeployment(h: Story) {
    h.deployed.None? && h.inspected.None? && h.visited == 0
  }

  predicate NoNode(h: Story) {
    h.checked.None? && h.called.None? && h.fetched.None?
  }

  predicate HasFound(i: Instance, h: Story) {
    h.found.Some? && SameOutcome(i, h.found.value)
  }

  /** DeployLab returns with its story told. */
  predicate DeployTold(i: Instance, h: Story) {
    && h.found.Some?
    && (h.deployed.None? ==> h.gaveUp && NoDeployment(h) && h.looks == 0 && SameOutcome(i, h.found.value))
    && (h.deployed.Some? ==>
          && !h.found.value.isDestroyed && !i.isDestroyed
          && h.inspected.Some? == h.deployed.value == (h.looks == 1)
          && h.looks <= 1
          && (h.gaveUp ==> i.state == Deploying)
          && (h.deployed == Some(false) || h.inspected == Some(false) ==> h.visited == 0)
          && (!h.gaveUp && (h.deployed == Some(false) || h.inspected == Some(false)) ==> i.state == Failed)
          && (!h.gaveUp && h.deployed == Some(true) && h.inspected == Some(true) ==>
                i.state == Running && h.visited == i.nodes))
  }

  predicate DeployHeard(pc: Pc, i: Instance, h: Story) {
    h.found.Some? && !h.found.value.isDestroyed && !i.isDestroyed && !h.gaveUp
    && (if pc.DeployChecked? then SameOutcome(i, h.found.value) else i.state == Deploying)
  }

  predicate DeployFits(me: Thread, i: Instance, h: Story) {
    && h.destroyed.None? && NoNode(h)
    && match me.pc
       case DeployFound => h.found.None? && NoDeployment(h) && h.looks == 0 && !h.gaveUp
       case DeployLocked => h.found.None? && NoDeployment(h) && h.looks == 0 && !h.gaveUp
       case DeployReplacing => h.found.None? && NoDeployment(h) && h.looks == 0 && !h.gaveUp
       case DeployWaiting => h.found.None? && NoDeployment(h) && h.looks == 0 && !h.gaveUp
       case DeployAcquired => HasFound(i, h) && NoDeployment(h) && h.looks == 0 && !h.gaveUp
       case DeployChecked => DeployHeard(me.pc, i, h) && NoDeployment(h) && h.looks == 0
       case DeployCalling => DeployHeard(me.pc, i, h) && NoDeployment(h) && h.looks == 0
       case ContextWaiting(caller) =>
         caller.Inspection? && DeployHeard(me.pc, i, h)
         && h.deployed == Some(true) && h.inspected.None? && h.visited == 0 && h.looks == 0
       case ContextLocked(caller) =>
         caller.Inspection? && DeployHeard(me.pc, i, h)
         && h.deployed == Some(true) && h.inspected.None? && h.visited == 0 && h.looks == 0
       case DeployInspecting =>
         DeployHeard(me.pc, i, h) && h.deployed == Some(true) && h.inspected.None? && h.visited == 0 && h.looks == 1
       case DeployStreaming =>
         DeployHeard(me.pc, i, h) && h.deployed == Some(true) && h.inspected == Some(true)
         && h.visited + me.left == i.nodes && h.looks == 1
       case DeployErrored => DeployHeard(me.pc, i, h) && DeployRefused(h)
       case DeployFailing => DeployHeard(me.pc, i, h) && DeployRefused(h)
       case DeploySucceeding =>
         DeployHeard(me.pc, i, h) && h.deployed == Some(true) && h.inspected == Some(true)
         && h.visited == i.nodes && h.looks == 1
       case Releasing => DeployTold(i, h)
       case Returned => true
       case _ => false
  }

  predicate DeployRefused(h: Story) {
    && h.visited == 0
    && (|| (h.deployed == Some(false) && h.inspected.None? && h.looks == 0)
        || (h.deployed == Some(true) && h.inspected == Some(false) && h.looks == 1))
  }

  /** DestroyLab returns with its story told. */
  predicate DestroyTold(i: Instance, h: Story) {
    && h.found.Some? && h.destroyed.Some?
    && i.state == (if h.destroyed.value then Stopping else Failed)
    && i.isDestroyed == (h.destroyed.value || h.found.value.isDestroyed)
  }

  predicate DestroyHeard(i: Instance, h: Story) {
    h.found.Some? && i.state == Stopping && i.isDestroyed == h.found.value.isDestroyed
  }

  predicate DestroyFits(me: Thread, i: Instance, h: Story) {
    && NoDeployment(h) && NoNode(h) && h.looks == 0 && !h.gaveUp
    && match me.pc
       case DestroyFound => h.found.None? && h.destroyed.None?
       case DestroyLocked => h.found.None? && h.destroyed.None?
       case DestroyWaiting => h.found.None? && h.destroyed.None?
       case DestroyAcquired => HasFound(i, h) && h.destroyed.None?
       case DestroyCalling => DestroyHeard(i, h) && h.destroyed.None?
       case DestroyFailing => DestroyHeard(i, h) && h.destroyed == Some(false)
       case DestroyMarking => DestroyHeard(i, h) && h.destroyed == Some(true)
       case DestroyDeleting => DestroyTold(i, h) && h.destroyed == Some(true)
       case Releasing => DestroyTold(i, h)
       case Returned => true
       case _ => false
  }

  /** A node command returns with its story told. */
  predicate NodeTold(starts: bool, i: Instance, h: Story) {
    && HasFound(i, h) && h.checked.Some?
    && h.called.Some? == h.checked.value
    && h.fetched.Some? == (h.called == Some(true))
    && h.looks == (if h.checked.value && starts then 1 else 0) + (if h.called == Some(true) then 1 else 0)
  }

  predicate NodeFits(starts: bool, me: Thread, i: Instance, h: Story) {
    && NoDeployment(h) && h.destroyed.None? && !h.gaveUp
    && match me.pc
       case NodeFound(starting) => starting == starts && h.found.None? && NoNode(h) && h.looks == 0
       case NodeHolding(starting) => starting == starts && HasFound(i, h) && NoNode(h) && h.looks == 0
       case ContextWaiting(caller) => HasFound(i, h) && ReadFits(starts, caller, h)
       case ContextLocked(caller) => HasFound(i, h) && ReadFits(starts, caller, h)
       case NodeCalling =>
         HasFound(i, h) && h.checked == Some(true) && h.called.None? && h.fetched.None?
         && h.looks == (if starts then 1 else 0)
       case NodeFetching =>
         HasFound(i, h) && h.checked == Some(true) && h.called == Some(true) && h.fetched.None?
         && h.looks == (if starts then 1 else 0) + 1
       case Releasing => NodeTold(starts, i, h)
       case Returned => true
       case _ => false
  }

  predicate ReadFits(starts: bool, caller: Caller, h: Story) {
    && h.checked == Some(true) && h.fetched.None?
    && (|| (caller.NodeStart? && starts && h.called.None? && h.looks == 0)
        || (caller.NodeFetch? && h.called == Some(true) && h.looks == (if starts then 1 else 0)))
  }

  /** A listener reads the context once and does nothing else. */
  predicate ReaderFits(me: Thread, h: Story) {
    && h.found.None? && NoDeployment(h) && h.destroyed.None? && NoNode(h) && !h.gaveUp
    && match me.pc
       case ContextWaiting(caller) => caller.Listener? && h.looks == 0
       case ContextLocked(caller) => caller.Listener? && h.looks == 0
       case Returned => h.looks == 1
       case _ => false
  }

  predicate Fits(call: Action, me: Thread, i: Instance, h: Story) {
    match call
    case CallDeploy(_, _, _) => DeployFits(me, i, h)
    case CallDestroy(_) => DestroyFits(me, i, h)
    case CallNode(_, starts) => NodeFits(starts, me, i, h)
    case CallRead(_) => ReaderFits(me, h)
    case Advance(_, _) => false
  }

  // ---------------------------------------------------------------------------------------------
  // Every step keeps to the story
  // ---------------------------------------------------------------------------------------------

  lemma EnterKeepsDeployFits(s: State, t: nat, ok: bool, h: Story)
    requires CanAdvance(s, t) && IsEntering(s.threads[t].pc)
    requires DeployFits(s.threads[t], s.heap[s.threads[t].instance], h)
    ensures var e := EnterStep(s, t, ok); DeployFits(e.thread, e.instance, Hear(h, s, t, ok))
  {
    hide CancelLatest, IsCancelled;
  }

  lemma ContextKeepsDeployFits(s: State, t: nat, ok: bool, h: Story)
    requires CanAdvance(s, t) && ReadsAnyContext(s.threads[t].pc)
    requires DeployFits(s.threads[t], s.heap[s.threads[t].instance], h)
    ensures var e := ContextStep(s, t, ok); DeployFits(e.thread, e.instance, Hear(h, s, t, ok))
  {
    hide CancelLatest, IsCancelled;
  }

  /** The provider's answers. */
  predicate IsAnswered(pc: Pc) {
    pc.DeployCalling? || pc.DeployInspecting?
  }

  lemma AnswersKeepDeployFits(s: State, t: nat, ok: bool, h: Story)
    requires CanAdvance(s, t) && IsAnswered(s.threads[t].pc)
    requires DeployFits(s.threads[t], s.heap[s.threads[t].instance], h)
    ensures var e := DeploymentStep(s, t, ok); DeployFits(e.thread, e.instance, Hear(h, s, t, ok))
  {
    hide CancelLatest, IsCancelled;
  }

  lemma DeploymentKeepsDeployFits(s: State, t: nat, ok: bool, h: Story)
    requires CanAdvance(s, t) && InDeployment(s.threads[t].pc) && !ReadsAnyContext(s.threads[t].pc)
    requires !IsAnswered(s.threads[t].pc)
    requires DeployFits(s.threads[t], s.heap[s.threads[t].instance], h)
    ensures var e := DeploymentStep(s, t, ok); DeployFits(e.thread, e.instance, Hear(h, s, t, ok))
  {
    hide CancelLatest, IsCancelled;
  }

  lemma CommandKeepsDeployFits(s: State, t: nat, ok: bool, h: Story)
    requires CanAdvance(s, t) && IsCommand(s.threads[t].pc)
    requires DeployFits(s.threads[t], s.heap[s.threads[t].instance], h)
    ensures var e := CommandStep(s, t, ok); DeployFits(e.thread, e.instance, Hear(h, s, t, ok))
  {
    hide CancelLatest, IsCancelled;
  }

  lemma StepKeepsDeployFits(s: State, t: nat, ok: bool, h: Story)
    requires CanAdvance(s, t)
    requires DeployFits(s.threads[t], s.heap[s.threads[t].instance], h)
    ensures var e := Step(s, t, ok); DeployFits(e.thread, e.instance, Hear(h, s, t, ok))
  {
    hide EnterStep, ContextStep, DeploymentStep, DestroyStep, CommandStep, Hear;
    if IsEntering(s.threads[t].pc) {
      EnterKeepsDeployFits(s, t, ok, h);
    } else if ReadsAnyContext(s.threads[t].pc) {
      ContextKeepsDeployFits(s, t, ok, h);
    } else if IsAnswered(s.threads[t].pc) {
      AnswersKeepDeployFits(s, t, ok, h);
    } else if InDeployment(s.threads[t].pc) {
      DeploymentKeepsDeployFits(s, t, ok, h);
    } else {
      CommandKeepsDeployFits(s, t, ok, h);
    }
  }

  lemma DestroyingKeepsDestroyFits(s: State, t: nat, ok: bool, h: Story)
    requires CanAdvance(s, t) && InDestroy(s.threads[t].pc)
    requires DestroyFits(s.threads[t], s.heap[s.threads[t].instance], h)
    ensures var e := DestroyStep(s, t, ok); DestroyFits(e.thread, e.instance, Hear(h, s, t, ok))
  {
    hide CancelLatest, IsCancelled;
  }

  lemma CommandKeepsDestroyFits(s: State, t: nat, ok: bool, h: Story)
    requires CanAdvance(s, t) && IsCommand(s.threads[t].pc)
    requires DestroyFits(s.threads[t], s.heap[s.threads[t].instance], h)
    ensures var e := CommandStep(s, t, ok); DestroyFits(e.thread, e.instance, Hear(h, s, t, ok))
  {
    hide CancelLatest, IsCancelled;
  }

  lemma StepKeepsDestroyFits(s: State, t: nat, ok: bool, h: Story)
    requires CanAdvance(s, t)
    requires DestroyFits(s.threads[t], s.heap[s.threads[t].instance], h)
    ensures var e := Step(s, t, ok); DestroyFits(e.thread, e.instance, Hear(h, s, t, ok))
  {
    hide EnterStep, ContextStep, DeploymentStep, DestroyStep, CommandStep, Hear;
    if InDestroy(s.threads[t].pc) {
      DestroyingKeepsDestroyFits(s, t, ok, h);
    } else {
      CommandKeepsDestroyFits(s, t, ok, h);
    }
  }

  lemma ContextKeepsNodeFits(s: State, t: nat, ok: bool, starts: bool, h: Story)
    requires CanAdvance(s, t) && ReadsAnyContext(s.threads[t].pc)
    requires NodeFits(starts, s.threads[t], s.heap[s.threads[t].instance], h)
    ensures var e := ContextStep(s, t, ok); NodeFits(starts, e.thread, e.instance, Hear(h, s, t, ok))
  {
    hide CancelLatest, IsCancelled;
  }

  lemma CommandKeepsNodeFits(s: State, t: nat, ok: bool, starts: bool, h: Story)
    requires CanAdvance(s, t) && IsCommand(s.threads[t].pc)
    requires NodeFits(starts, s.threads[t], s.heap[s.threads[t].instance], h)
    ensures var e := CommandStep(s, t, ok); NodeFits(starts, e.thread, e.instance, Hear(h, s, t, ok))
  {
    hide CancelLatest, IsCancelled;
  }

  lemma StepKeepsNodeFits(s: State, t: nat, ok: bool, starts: bool, h: Story)
    requires CanAdvance(s, t)
    requires NodeFits(starts, s.threads[t], s.heap[s.threads[t].instance], h)
    ensures var e := Step(s, t, ok); NodeFits(starts, e.thread, e.instance, Hear(h, s, t, ok))
  {
    hide EnterStep, ContextStep, DeploymentStep, DestroyStep, CommandStep, Hear;
    if ReadsAnyContext(s.threads[t].pc) {
      ContextKeepsNodeFits(s, t, ok, starts, h);
    } else {
      CommandKeepsNodeFits(s, t, ok, starts, h);
    }
  }

  lemma StepKeepsReaderFits(s: State, t: nat, ok: bool, h: Story)
    requires CanAdvance(s, t)
    requires ReaderFits(s.threads[t], h)
    ensures var e := Step(s, t, ok); ReaderFits(e.thread, Hear(h, s, t, ok))
  {
    hide EnterStep, DeploymentStep, DestroyStep, CommandStep, IsCancelled;
  }

  lemma StepKeepsFits(s: State, t: nat, ok: bool, call: Action, h: Story)
    requires CanAdvance(s, t) && Fits(call, s.threads[t], s.heap[s.threads[t].instance], h)
    ensures var e := Step(s, t, ok); Fits(call, e.thread, e.instance, Hear(h, s, t, ok))
  {
    hide Step, Hear, DeployFits, DestroyFits, NodeFits, ReaderFits;
    match call
    case CallDeploy(_, _, _) => StepKeepsDeployFits(s, t, ok, h);
    case CallDestroy(_) => StepKeepsDestroyFits(s, t, ok, h);
    case CallNode(_, starts) => StepKeepsNodeFits(s, t, ok, starts, h);
    case CallRead(_) => StepKeepsReaderFits(s, t, ok, h);
  }

  /** What a story says of an instance stays true while the call owns OperationMutex, and before it says nothing. */
  lemma FitsAnInstance(call: Action, me: Thread, i: Instance, j: Instance, h: Story)
    requires Fits(call, me, i, h) && i.nodes == j.nodes
    requires HoldsOperationMutex(me.pc) ==> SameOutcome(i, j)
    ensures Fits(call, me, j, h)
  {
  }

  // ---------------------------------------------------------------------------------------------
  // Every run keeps to the stories of its calls
  // ---------------------------------------------------------------------------------------------

  /** The lab and the instance a call works on were looked up when it was made. */
  ghost predicate WorksOn(s: State, call: Action, me: Thread) {
    match call
    case CallDeploy(lab, _, _) =>
      && me.lab == lab && me.redeploy == (lab in s.instances)
      && me.instance == (if lab in s.instances then s.instances[lab] else |s.heap|)
    case CallDestroy(lab) => me.lab == lab && lab in s.instances && me.instance == s.instances[lab]
    case CallNode(lab, _) => me.lab == lab && lab in s.instances && me.instance == s.instances[lab]
    case CallRead(n) => me.instance == n
    case Advance(_, _) => false
  }

  lemma ThreadsGrow(s: State, a: Action)
    requires Enabled(s, a)
    ensures |s.threads| <= |Apply(s, a).threads| && |s.heap| <= |Apply(s, a).heap|
    ensures a.Advance? ==> |s.threads| == |Apply(s, a).threads|
  {
    hide Step;
  }

  lemma {:induction false} SilentBefore(states: seq<State>, actions: seq<Action>, t: nat, k: nat)
    requires Trace(states, actions) && k < |states| && |states[k].threads| <= t
    ensures Heard(states, actions, t, k) == SILENCE
  {
    hide Apply, Hear;
    if k > 0 {
      ThreadsGrow(states[k - 1], actions[k - 1]);
      SilentBefore(states, actions, t, k - 1);
    }
  }

  /** Which calls run at all: those for a lab with an instance, and a deployment of a lab without one, which adds it
      unless the environment of the lab cannot be read. The other calls return an error and change nothing. */
  lemma CallsNeedAnInstance(states: seq<State>, actions: seq<Action>, j: nat)
    requires Trace(states, actions) && j < |actions| && !actions[j].Advance?
    ensures Calls(states, actions, j, |states[j].threads|) <==>
              || actions[j].CallRead?
              || actions[j].lab in states[j].instances
              || (actions[j].CallDeploy? && actions[j].environmentOk)
    ensures !Calls(states, actions, j, |states[j].threads|) ==> states[j + 1] == states[j]
    ensures states[j + 1].heap == states[j].heap ||
            (&& actions[j].CallDeploy? && actions[j].lab !in states[j].instances
             && states[j + 1].instances == states[j].instances[actions[j].lab := |states[j].heap|]
             && exists i: Instance ::
                  && states[j + 1].heap == states[j].heap + [i] && i.uuid == actions[j].lab
                  && i.nodes == actions[j].nodes && i.state == Deploying && !i.isDestroyed)
  {
    hide Init;
  }

  ghost predicate StoryFits(states: seq<State>, actions: seq<Action>, j: nat, t: nat, k: nat)
    requires |states| == |actions| + 1 && j < |actions| && k < |states|
  {
    && t < |states[k].threads| && states[k].threads[t].instance < |states[k].heap|
    && WorksOn(states[j], actions[j], states[k].threads[t])
    && Fits(actions[j], states[k].threads[t], states[k].heap[states[k].threads[t].instance],
            Heard(states, actions, t, k))
  }

  lemma InstanceExists(states: seq<State>, actions: seq<Action>, k: nat, t: nat)
    requires Trace(states, actions) && k < |states| && t < |states[k].threads|
    ensures Consistent(states[k]) && ThreadOk(states[k], t)
  {
    TraceKeepsInv(states, actions, k);
  }

  lemma CallBegins(states: seq<State>, actions: seq<Action>, j: nat, t: nat)
    requires Trace(states, actions) && Calls(states, actions, j, t)
    ensures StoryFits(states, actions, j, t, j + 1)
  {
    hide Hear, Init, Consistent, Inv, Step;
    SilentBefore(states, actions, t, j);
    assert Heard(states, actions, t, j + 1) == SILENCE;
    InstanceExists(states, actions, j + 1, t);
  }

  lemma OwnStepFits(states: seq<State>, actions: seq<Action>, j: nat, t: nat, k: nat)
    requires Trace(states, actions) && j < |actions| && k < |actions| && StoryFits(states, actions, j, t, k)
    requires actions[k].Advance? && actions[k].thread == t
    ensures StoryFits(states, actions, j, t, k + 1)
  {
    hide Hear, Init, Step, Fits, ContextShape, ContextsShape;
    StepHasShape(states[k], t, actions[k].ok);
    StepKeepsFits(states[k], t, actions[k].ok, actions[j], Heard(states, actions, t, k));
  }

  /** Only the owner of OperationMutex changes the outcome. */
  lemma OtherStepKeepsOutcome(s: State, u: nat, ok: bool, n: nat)
    requires CanAdvance(s, u) && ThreadOk(s, u) && n < |s.heap|
    ensures var s' := AdvanceThread(s, u, ok);
            && n < |s'.heap| && s'.heap[n].nodes == s.heap[n].nodes
            && (s.heap[n].operationMutex != Some(u) ==> SameOutcome(s.heap[n], s'.heap[n]))
  {
    hide Step, ContextsShape;
    StepHasShape(s, u, ok);
  }

  lemma OtherStepFits(states: seq<State>, actions: seq<Action>, j: nat, t: nat, k: nat)
    requires Trace(states, actions) && j < |actions| && k < |actions| && StoryFits(states, actions, j, t, k)
    requires actions[k].Advance? && actions[k].thread != t
    ensures StoryFits(states, actions, j, t, k + 1)
  {
    hide Hear, Init, Step, Fits, Consistent, ThreadContextOk;
    var me, u := states[k].threads[t], actions[k].thread;
    InstanceExists(states, actions, k, t);
    InstanceExists(states, actions, k, u);
    OtherStepKeepsOutcome(states[k], u, actions[k].ok, me.instance);
    assert states[k + 1].threads[t] == me;
    FitsAnInstance(actions[j], me, states[k].heap[me.instance], states[k + 1].heap[me.instance],
                   Heard(states, actions, t, k));
  }

  lemma CallStepFits(states: seq<State>, actions: seq<Action>, j: nat, t: nat, k: nat)
    requires Trace(states, actions) && j < |actions| && k < |actions| && StoryFits(states, actions, j, t, k)
    requires !actions[k].Advance?
    ensures StoryFits(states, actions, j, t, k + 1)
  {
    hide Hear, Init, Step, Fits, WorksOn;
  }

  lemma {:induction false} TraceFits(states: seq<State>, actions: seq<Action>, j: nat, t: nat, k: nat)
    requires Trace(states, actions) && Calls(states, actions, j, t) && j < k < |states|
    ensures StoryFits(states, actions, j, t, k)
  {
    hide Heard, Init, Apply, Enabled, StoryFits, Calls;
    if k == j + 1 {
      CallBegins(states, actions, j, t);
    } else {
      TraceFits(states, actions, j, t, k - 1);
      var a := actions[k - 1];
      if !a.Advance? {
        CallStepFits(states, actions, j, t, k - 1);
      } else if a.thread == t {
        OwnStepFits(states, actions, j, t, k - 1);
      } else {
        OtherStepFits(states, actions, j, t, k - 1);
      }
    }
  }

  // ---------------------------------------------------------------------------------------------
  // What the stories tell
  // ---------------------------------------------------------------------------------------------

  /** In every interleaving, when DeployLab unlocks OperationMutex: if the provider accepted the deployment and the
      inspection and no stream met an error with the context cancelled, the instance is running and the loop over the
      nodes is done with all of them. If the provider refused one and the context was not cancelled when the error was
      looked at, it has failed. If the call gave up before it asked the provider, because its context was cancelled or
      the instance destroyed, the instance is as the call found it, and if it gave up later, because its context was
      cancelled, it is left deploying. There is no other way out. */
  lemma DeploymentsEndAsAnswered(states: seq<State>, actions: seq<Action>, j: nat, t: nat, k: nat)
    requires Trace(states, actions) && Calls(states, actions, j, t) && actions[j].CallDeploy?
    requires j < k < |states| && t < |states[k].threads| && states[k].threads[t].pc.Releasing?
    ensures states[k].threads[t].instance < |states[k].heap|
    ensures var h, i := Heard(states, actions, t, k), states[k].heap[states[k].threads[t].instance];
            && h.found.Some? && h.destroyed.None?
            && i.isDestroyed == h.found.value.isDestroyed
            && (h.deployed.None? ==> h.gaveUp && h.inspected.None? && i.state == h.found.value.state)
            && (h.deployed.Some? && h.gaveUp ==> i.state == Deploying)
            && (h.deployed == Some(false) ==> h.inspected.None? && (!h.gaveUp ==> i.state == Failed))
            && (h.deployed == Some(true) ==> h.inspected.Some?)
            && (h.inspected == Some(false) && !h.gaveUp ==> i.state == Failed)
            && (h.inspected == Some(true) ==>
                  h.deployed == Some(true) && (!h.gaveUp ==> i.state == Running && h.visited == i.nodes))
  {
    hide Heard;
    TraceFits(states, actions, j, t, k);
  }

  /** When DestroyLab unlocks OperationMutex, the provider has answered it. The instance is destroyed if the answer
      was yes, and otherwise it has failed and is destroyed only if it was before. */
  lemma DestroysEndAsAnswered(states: seq<State>, actions: seq<Action>, j: nat, t: nat, k: nat)
    requires Trace(states, actions) && Calls(states, actions, j, t) && actions[j].CallDestroy?
    requires j < k < |states| && t < |states[k].threads| && states[k].threads[t].pc.Releasing?
    ensures states[k].threads[t].instance < |states[k].heap|
    ensures var h, i := Heard(states, actions, t, k), states[k].heap[states[k].threads[t].instance];
            && h.found.Some? && h.destroyed.Some? && h.deployed.None?
            && i.isDestroyed == (h.destroyed.value || h.found.value.isDestroyed)
            && i.state == (if h.destroyed.value then Stopping else Failed)
  {
    hide Heard;
    TraceFits(states, actions, j, t, k);
  }

  /** When a node command unlocks OperationMutex, the instance is as the command found it. The provider was asked for
      the command exactly if the node is there and for the node exactly if the command went well, and the context was
      read once for each of these, except for the command to stop or restart. */
  lemma NodeCommandsKeepTheState(states: seq<State>, actions: seq<Action>, j: nat, t: nat, k: nat)
    requires Trace(states, actions) && Calls(states, actions, j, t) && actions[j].CallNode?
    requires j < k < |states| && t < |states[k].threads| && states[k].threads[t].pc.Releasing?
    ensures states[k].threads[t].instance < |states[k].heap|
    ensures var h, i := Heard(states, actions, t, k), states[k].heap[states[k].threads[t].instance];
            && h.found.Some? && h.deployed.None? && h.destroyed.None?
            && i.state == h.found.value.state && i.isDestroyed == h.found.value.isDestroyed
            && h.checked.Some? && (h.called.Some? <==> h.checked == Some(true))
            && (h.fetched.Some? <==> h.called == Some(true))
            && h.looks == (if h.called.Some? && actions[j].starts then 1 else 0) + (if h.fetched.Some? then 1 else 0)
  {
    hide Heard;
    TraceFits(states, actions, j, t, k);
  }

  /** A call that reads the context of an instance reads it once and takes no part in anything else. */
  lemma ReadersOnlyRead(states: seq<State>, actions: seq<Action>, j: nat, t: nat, k: nat)
    requires Trace(states, actions) && Calls(states, actions, j, t) && actions[j].CallRead? && j < k < |states|
    ensures t < |states[k].threads| && states[k].threads[t].instance == actions[j].instance
    ensures !HoldsOperationMutex(states[k].threads[t].pc)
    ensures Heard(states, actions, t, k) == SILENCE.(looks := if states[k].threads[t].pc.Returned? then 1 else 0)
  {
    hide Heard;
    TraceFits(states, actions, j, t, k);
  }

  /** While the provider deploys or inspects a lab its instance is deploying, and while it destroys one it is stopping.
      The request is Redeploy exactly if the lab had an instance when the call was made. */
  lemma TheStateSaysWhatRuns(states: seq<State>, actions: seq<Action>, j: nat, t: nat, k: nat)
    requires Trace(states, actions) && Calls(states, actions, j, t) && j < k < |states|
    ensures t < |states[k].threads| && states[k].threads[t].instance < |states[k].heap|
    ensures var me := states[k].threads[t]; var i := states[k].heap[me.instance];
            && (me.pc.DeployCalling? ==>
                  && i.state == Deploying && !i.isDestroyed && actions[j].CallDeploy?
                  && me.lab == actions[j].lab && me.redeploy == (actions[j].lab in states[j].instances))
            && (me.pc.DeployInspecting? ==> i.state == Deploying && actions[j].CallDeploy? && me.lab == actions[j].lab)
            && (me.pc.DestroyCalling? ==> i.state == Stopping && actions[j].CallDestroy? && me.lab == actions[j].lab)
            && (me.pc.NodeCalling? || me.pc.NodeFetching? ==> actions[j].CallNode? && me.lab == actions[j].lab)
  {
    hide Heard;
    TraceFits(states, actions, j, t, k);
    match actions[j]
    case CallDeploy(_, _, _) => hide DestroyFits, NodeFits, ReaderFits;
    case CallDestroy(_) => hide DeployFits, NodeFits, ReaderFits;
    case CallNode(_, _) => hide DeployFits, DestroyFits, ReaderFits;
    case CallRead(_) => hide DeployFits, DestroyFits, NodeFits;
  }

  lemma FreeMutexKeepsOutcome(s: State, a: Action, n: nat)
    requires Consistent(s) && Enabled(s, a) && n < |s.heap|
    requires a.Advance? ==> s.heap[n].operationMutex != Some(a.thread) || s.threads[a.thread].pc.Releasing?
    ensures n < |Apply(s, a).heap| && SameOutcome(s.heap[n], Apply(s, a).heap[n])
  {
    if a.Advance? {
      assert ThreadOk(s, a.thread);
      if s.threads[a.thread].pc.Releasing? {
        hide EnterStep, ContextStep, DeploymentStep, DestroyStep;
      } else {
        OtherStepKeepsOutcome(s, a.thread, a.ok, n);
      }
    }
  }

  /** What a call leaves behind stays: an instance keeps its state and its flag as long as the steps of the owners of
      its OperationMutex only unlock it. */
  lemma {:induction false} OutcomesStay(states: seq<State>, actions: seq<Action>, j: nat, k: nat, n: nat)
    requires Trace(states, actions) && j <= k < |states| && n < |states[j].heap|
    requires forall m | j <= m < k && actions[m].Advance? && n < |states[m].heap| ::
               states[m].heap[n].operationMutex == Some(actions[m].thread) ==>
                 states[m].threads[actions[m].thread].pc.Releasing?
    ensures n < |states[k].heap|
    ensures states[k].heap[n].state == states[j].heap[n].state
    ensures states[k].heap[n].isDestroyed == states[j].heap[n].isDestroyed
  {
    hide Apply, Init, Consistent;
    if j < k {
      OutcomesStay(states, actions, j, k - 1, n);
      TraceKeepsInv(states, actions, k - 1);
      FreeMutexKeepsOutcome(states[k - 1], actions[k - 1], n);
    }
  }
}
