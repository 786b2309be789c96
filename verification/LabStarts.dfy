/** What the scheduler promises for the times of the labs themselves: when labs are deployed, that what was scheduled
    stays scheduled, and what is left after the queues were worked off. */
module LabStarts {
  import opened Wrappers
  import opened Schedules
  import opened LabScheduler
  import opened LabEnds

  // ---------------------------------------------------------------------------------------------
  // What is due
  // ---------------------------------------------------------------------------------------------

  /** Run hands over a lab exactly if the start of a queued lab has come, and then one that starts first. */
  lemma EarliestStartIsDeployed(s: State, now: int)
    requires ValidState(s)
    ensures var s' := Apply(s, DeployDue(now));
            if exists p | p in s.deployment.items :: p.value.startTime <= now then
              && |s'.toDeploy| == |s.toDeploy| + 1 && s'.toDeploy[..|s.toDeploy|] == s.toDeploy
              && var lab := s'.toDeploy[|s.toDeploy|];
                 && lab.startTime <= now
                 && (exists p | p in s.deployment.items :: p.value == lab)
                 && (forall p | p in s.deployment.items :: lab.startTime <= p.value.startTime)
            else s' == s
  {
    if p :| p in s.deployment.items && p.value.startTime <= now {
      var i := IndexOf(s.deployment.items, p);
      assert i > 0 ==> Time(DEPLOYMENT, s.deployment.items[0]) <= Time(DEPLOYMENT, s.deployment.items[i]);
    }
    forall p | p in s.deployment.items ensures s.deployment.items[0].value.startTime <= p.value.startTime {
      var i := IndexOf(s.deployment.items, p);
      assert i > 0 ==> Time(DEPLOYMENT, s.deployment.items[0]) <= Time(DEPLOYMENT, s.deployment.items[i]);
    }
  }

  /** It destroys a lab exactly if the end of a queued lab has come, and then one that ends first. */
  lemma EarliestEndIsDestroyed(s: State, now: int)
    requires ValidState(s)
    ensures forall p | p in s.destruction.items :: p.value.endTime.Some?
    ensures var s' := Apply(s, DestroyDue(now));
            if exists p | p in s.destruction.items :: p.value.endTime.value <= now then
              && |s'.toDestroy| == |s.toDestroy| + 1 && s'.toDestroy[..|s.toDestroy|] == s.toDestroy
              && var lab := s'.toDestroy[|s.toDestroy|];
                 && lab.endTime.Some? && lab.endTime.value <= now
                 && (exists p | p in s.destruction.items :: p.value == lab)
                 && (forall p | p in s.destruction.items :: lab.endTime.value <= p.value.endTime.value)
            else s' == s
  {
    forall p | p in s.destruction.items ensures HasTime(DESTRUCTION, p) {
      var i := IndexOf(s.destruction.items, p);
    }
    forall p | p in s.destruction.items
      ensures s.destruction.items[0].value.endTime.value <= p.value.endTime.value
    {
      var i := IndexOf(s.destruction.items, p);
      assert i > 0 ==> Time(DESTRUCTION, s.destruction.items[0]) <= Time(DESTRUCTION, s.destruction.items[i]);
    }
  }

  /** Over any run, no lab is handed over before its start, or destroyed before its end. */
  lemma NothingComesEarly(steps: seq<Step>, k: nat)
    requires k < |steps|
    ensures var s, s' := After(steps[..k]), After(steps[..k + 1]);
            && |s.toDeploy| <= |s'.toDeploy| && |s.toDestroy| <= |s'.toDestroy|
            && (forall i | |s.toDeploy| <= i < |s'.toDeploy| ::
                  steps[k].DeployDue? && s'.toDeploy[i].startTime <= steps[k].now)
            && (forall i | |s.toDestroy| <= i < |s'.toDestroy| ::
                  && steps[k].DestroyDue? && s'.toDestroy[i].endTime.Some?
                  && s'.toDestroy[i].endTime.value <= steps[k].now)
  {
    hide AllTimed, Sorted, Scheduled, HandleDeployment, Rescheduled, Popped;
    Prefixes(steps, k);
    match steps[k]
    case DeployDue(now) => EarliestStartIsDeployed(After(steps[..k]), now);
    case DestroyDue(now) => EarliestEndIsDestroyed(After(steps[..k]), now);
    case Happens(_) =>
  }

  // ---------------------------------------------------------------------------------------------
  // What was scheduled stays scheduled
  // ---------------------------------------------------------------------------------------------

  predicate Holds(items: seq<Ptr<Lab>>, lab: Lab) {
    exists p | p in items :: p.value == lab
  }

  lemma InsertHolds(g: Getters<Lab>, q: Queue<Lab>, p: Ptr<Lab>, lab: Lab)
    requires AllTimed(g, q.items)
    ensures Holds(q.items, lab) ==> Holds(Scheduled(g, q, p).items, lab)
    ensures HasTime(g, p) ==> Holds(Scheduled(g, q, p).items, p.value)
  {
    hide CountBefore, PutIn, HasTime, Time;
    if HasTime(g, p) {
      var n := CountBefore(g, q.items, Time(g, p));
      assert Scheduled(g, q, p).items[n] == p;
      forall x ensures x in q.items ==> x in Scheduled(g, q, p).items {
        PutInHolds(q.items, n, p, x);
      }
    }
  }

  lemma DeleteHolds(g: Getters<Lab>, q: Queue<Lab>, uuid: string, lab: Lab)
    requires Valid(g, q) && lab.uuid != uuid && forall p: Ptr<Lab> :: Key(g, p) == p.value.uuid
    ensures Holds(q.items, lab) ==> Holds(Delete(q, uuid).items, lab)
  {
    hide TakeOut, Key, AllTimed, Sorted;
    if Holds(q.items, lab) && uuid in q.index {
      var p :| p in q.items && p.value == lab;
      assert Key(g, q.index[uuid]) == q.index[uuid].value.uuid;
      TakeOutHolds(q.items, IndexOf(q.items, q.index[uuid]), p);
    }
  }

  lemma PopHolds(g: Getters<Lab>, q: Queue<Lab>, now: int, lab: Lab)
    requires AllTimed(g, q.items) && Holds(q.items, lab)
    ensures Holds(Popped(g, q, now).items, lab) || (CanPop(g, q, now) && q.items[0].value == lab)
  {
    if CanPop(g, q, now) {
      assert q.items == [q.items[0]] + q.items[1..];
    }
  }

  /** The lab waits for its deployment, or was handed over after the first `from` ones. */
  predicate IsAwaited(s: State, lab: Lab, from: nat) {
    from <= |s.toDeploy| && (lab in s.toDeploy[from..] || Holds(s.deployment.items, lab))
  }

  predicate IsEnding(s: State, lab: Lab, from: nat) {
    from <= |s.toDestroy| && (lab in s.toDestroy[from..] || Holds(s.destruction.items, lab))
  }

  predicate SchedulesStart(step: Step, lab: Lab) {
    step.Happens? && (step.event.Created? || step.event.Moved?) && step.event.lab == lab
  }

  /** The step queues the lab for deployment again, or takes it out without deploying it. */
  predicate TouchesStart(step: Step, uuid: string) {
    step.Happens? && !step.event.Restored? && step.event.lab.uuid == uuid
  }

  lemma StartIsScheduled(s: State, step: Step, lab: Lab)
    requires ValidState(s) && SchedulesStart(step, lab)
    ensures IsAwaited(Apply(s, step), lab, |Apply(s, step).toDeploy|)
  {
    hide AllTimed, Sorted, Delete, Insert;
    match step.event
    case Created(_) => InsertHolds(DEPLOYMENT, s.deployment, Ptr(s.nextAddr, lab), lab);
    case Moved(_) =>
      DeleteKeepsValid(DEPLOYMENT, s.deployment, lab.uuid);
      InsertHolds(DEPLOYMENT, Delete(s.deployment, lab.uuid), Ptr(s.nextAddr, lab), lab);
  }

  lemma StepKeepsAwaited(s: State, step: Step, lab: Lab, from: nat)
    requires ValidState(s) && !TouchesStart(step, lab.uuid) && IsAwaited(s, lab, from)
    ensures IsAwaited(Apply(s, step), lab, from)
  {
    hide AllTimed, Sorted, Delete, Scheduled, Holds;
    match step
    case Happens(Created(other)) => InsertHolds(DEPLOYMENT, s.deployment, Ptr(s.nextAddr, other), lab);
    case Happens(Moved(other)) =>
      DeleteKeepsValid(DEPLOYMENT, s.deployment, other.uuid);
      DeleteHolds(DEPLOYMENT, s.deployment, other.uuid, lab);
      InsertHolds(DEPLOYMENT, Delete(s.deployment, other.uuid), Ptr(s.nextAddr, other), lab);
    case Happens(Deleted(other)) => DeleteHolds(DEPLOYMENT, s.deployment, other.uuid, lab);
    case Happens(ManuallyDeployed(other)) => DeleteHolds(DEPLOYMENT, s.deployment, other.uuid, lab);
    case Happens(Restored(_)) =>
    case DeployDue(now) => DeployingKeepsAwaited(s, now, lab, from);
    case DestroyDue(_) =>
  }

  lemma DeployingKeepsAwaited(s: State, now: int, lab: Lab, from: nat)
    requires ValidState(s) && IsAwaited(s, lab, from)
    ensures IsAwaited(AfterDeploying(s, now), lab, from)
  {
    hide AllTimed, Sorted, Scheduled, Holds, IsDue;
    if CanPop(DEPLOYMENT, s.deployment, now) {
      assert AfterDeploying(s, now).toDeploy[from..] == s.toDeploy[from..] + [s.deployment.items[0].value];
      if Holds(s.deployment.items, lab) {
        PopHolds(DEPLOYMENT, s.deployment, now, lab);
      }
    }
  }

  /** A lab that is created or moved waits for its deployment until it is handed over, whatever else happens, unless an
      event of the lab itself comes in between. */
  lemma {:induction false} StartsAreKept(steps: seq<Step>, j: nat, k: nat, lab: Lab)
    requires j < k <= |steps| && SchedulesStart(steps[j], lab)
    requires forall i | j < i < k :: !TouchesStart(steps[i], lab.uuid)
    ensures IsAwaited(After(steps[..k]), lab, |After(steps[..j + 1]).toDeploy|)
  {
    hide After, Apply, IsAwaited, Latest, ChangeOf;
    Prefixes(steps, k - 1);
    if k == j + 1 {
      StartIsScheduled(After(steps[..j]), steps[j], lab);
    } else {
      StartsAreKept(steps, j, k - 1, lab);
      StepKeepsAwaited(After(steps[..k - 1]), steps[k - 1], lab, |After(steps[..j + 1]).toDeploy|);
    }
  }

  lemma EndIsScheduled(s: State, step: Step, lab: Lab)
    requires ValidState(s) && ChangeOf(s, step) == Change(lab.uuid, Some(lab)) && lab.endTime.Some?
    ensures IsEnding(Apply(s, step), lab, |Apply(s, step).toDestroy|)
  {
    hide AllTimed, Sorted, Delete, Insert, HandleDeployment, Holds, IsDue;
    match step
    case Happens(Created(_)) => InsertHolds(DESTRUCTION, s.destruction, Ptr(s.nextAddr + 1, lab), lab);
    case Happens(Moved(_)) =>
      DeleteKeepsValid(DESTRUCTION, s.destruction, lab.uuid);
      InsertHolds(DESTRUCTION, Delete(s.destruction, lab.uuid), Ptr(s.nextAddr + 1, lab), lab);
    case Happens(ManuallyDeployed(_)) => InsertHolds(DESTRUCTION, s.destruction, Ptr(s.nextAddr, lab), lab);
    case Happens(Restored(_)) => InsertHolds(DESTRUCTION, s.destruction, Ptr(s.nextAddr, lab), lab);
    case DeployDue(_) => InsertHolds(DESTRUCTION, s.destruction, Ptr(s.nextAddr, lab), lab);
  }

  predicate TouchesEnd(s: State, step: Step, uuid: string)
    requires ValidState(s)
  {
    ChangeOf(s, step).Change? && ChangeOf(s, step).uuid == uuid
  }

  lemma EventKeepsEnding(s: State, event: Event, lab: Lab, from: nat)
    requires ValidState(s) && event.lab.uuid != lab.uuid && IsEnding(s, lab, from)
    ensures IsEnding(AfterEvent(s, event), lab, from)
  {
    hide AllTimed, Sorted, Delete, Scheduled, Holds, HandleDeployment;
    match event
    case Created(other) => InsertHolds(DESTRUCTION, s.destruction, Ptr(s.nextAddr + 1, other), lab);
    case Moved(other) =>
      DeleteKeepsValid(DESTRUCTION, s.destruction, other.uuid);
      DeleteHolds(DESTRUCTION, s.destruction, other.uuid, lab);
      InsertHolds(DESTRUCTION, Delete(s.destruction, other.uuid), Ptr(s.nextAddr + 1, other), lab);
    case Deleted(other) => DeleteHolds(DESTRUCTION, s.destruction, other.uuid, lab);
    case ManuallyDeployed(other) => InsertHolds(DESTRUCTION, s.destruction, Ptr(s.nextAddr, other), lab);
    case Restored(other) => InsertHolds(DESTRUCTION, s.destruction, Ptr(s.nextAddr, other), lab);
  }

  lemma StepKeepsEnding(s: State, step: Step, lab: Lab, from: nat)
    requires ValidState(s) && !TouchesEnd(s, step, lab.uuid) && IsEnding(s, lab, from)
    ensures IsEnding(Apply(s, step), lab, from)
  {
    hide AllTimed, Sorted, Scheduled, Holds, AfterEvent, IsDue;
    match step
    case Happens(event) => EventKeepsEnding(s, event, lab, from);
    case DeployDue(now) =>
      if CanPop(DEPLOYMENT, s.deployment, now) {
        InsertHolds(DESTRUCTION, s.destruction, Ptr(s.nextAddr, s.deployment.items[0].value), lab);
      }
    case DestroyDue(now) =>
      if CanPop(DESTRUCTION, s.destruction, now) {
        assert Apply(s, step).toDestroy[from..] == s.toDestroy[from..] + [s.destruction.items[0].value];
        if Holds(s.destruction.items, lab) {
          PopHolds(DESTRUCTION, s.destruction, now, lab);
        }
      }
  }

  /** A lab whose destruction is scheduled, by an event or because it was deployed, waits for it until it is handed
      over, unless its destruction is scheduled again or called off in between. */
  lemma {:induction false} EndsAreKept(steps: seq<Step>, j: nat, k: nat, lab: Lab)
    requires j < k <= |steps| && lab.endTime.Some?
    requires ChangeOf(After(steps[..j]), steps[j]) == Change(lab.uuid, Some(lab))
    requires forall i | j < i < k :: !TouchesEnd(After(steps[..i]), steps[i], lab.uuid)
    ensures IsEnding(After(steps[..k]), lab, |After(steps[..j + 1]).toDestroy|)
  {
    hide After, Apply, IsEnding, Latest, ChangeOf;
    Prefixes(steps, k - 1);
    if k == j + 1 {
      EndIsScheduled(After(steps[..j]), steps[j], lab);
    } else {
      EndsAreKept(steps, j, k - 1, lab);
      StepKeepsEnding(After(steps[..k - 1]), steps[k - 1], lab, |After(steps[..j + 1]).toDestroy|);
    }
  }

  // ---------------------------------------------------------------------------------------------
  // Who waits for a deployment
  // ---------------------------------------------------------------------------------------------

  /** The labs that wait for their deployment: created or moved, and since then neither deleted nor deployed, by hand or
      by Run. */
  function Waiting(steps: seq<Step>): map<string, Lab> {
    if steps == [] then map[]
    else
      var before := steps[..|steps| - 1];
      var waiting, handed, handedNow := Waiting(before), After(before).toDeploy, After(steps).toDeploy;
      match steps[|steps| - 1]
      case Happens(Created(lab)) => waiting[lab.uuid := lab]
      case Happens(Moved(lab)) => waiting[lab.uuid := lab]
      case Happens(Deleted(lab)) => waiting - {lab.uuid}
      case Happens(ManuallyDeployed(lab)) => waiting - {lab.uuid}
      case Happens(Restored(_)) => waiting
      case DeployDue(_) =>
        if |handed| < |handedNow| then waiting - {handedNow[|handed|].uuid} else waiting
      case DestroyDue(_) => waiting
  }

  /** The queue has one entry for each waiting lab and no others. */
  ghost predicate Queued(waiting: map<string, Lab>, q: Queue<Lab>) {
    && OnePerLab(q)
    && (forall uuid :: uuid in waiting <==> uuid in q.index)
    && (forall uuid | uuid in waiting :: uuid in q.index && q.index[uuid].value == waiting[uuid])
  }

  lemma EventIsADeploymentStep(s: State, event: Event)
    requires ValidState(s)
    ensures AfterEvent(s, event).deployment == HandleDeployment(s.deployment, event, s.nextAddr)
    ensures AfterEvent(s, event).toDeploy == s.toDeploy
  {
    hide AllTimed, Sorted, Scheduled, Rescheduled, Delete;
  }

  /** lab.created is only published for labs that do not wait. */
  ghost predicate CreatesAreNew(steps: seq<Step>) {
    forall k | 0 <= k < |steps| && steps[k].Happens? && steps[k].event.Created? ::
      steps[k].event.lab.uuid !in Waiting(steps[..k])
  }

  lemma EventKeepsQueued(waiting: map<string, Lab>, q: Queue<Lab>, event: Event, addr: nat)
    requires Valid(DEPLOYMENT, q) && Queued(waiting, q)
    requires event.Created? ==> event.lab.uuid !in waiting
    ensures Queued(match event
                   case Created(lab) => waiting[lab.uuid := lab]
                   case Moved(lab) => waiting[lab.uuid := lab]
                   case Deleted(lab) => waiting - {lab.uuid}
                   case ManuallyDeployed(lab) => waiting - {lab.uuid}
                   case Restored(_) => waiting,
                   HandleDeployment(q, event, addr))
  {
    hide OnePerLab, AllTimed, Sorted, PutIn, TakeOut, CountBefore, IndexOf;
    StepKeepsOnePerLab(q, Handle(event, addr));
  }

  lemma PopKeepsQueued(waiting: map<string, Lab>, q: Queue<Lab>, now: int)
    requires Valid(DEPLOYMENT, q) && Queued(waiting, q)
    ensures Queued(if CanPop(DEPLOYMENT, q, now) then waiting - {q.items[0].value.uuid} else waiting,
                   Popped(DEPLOYMENT, q, now))
  {
    hide OnePerLab, AllTimed, Sorted, IsDue;
    StepKeepsOnePerLab(q, Tick(now));
  }

  lemma StepKeepsQueued(steps: seq<Step>, k: nat)
    requires k < |steps| && Queued(Waiting(steps[..k]), After(steps[..k]).deployment)
    requires steps[k].Happens? && steps[k].event.Created? ==> steps[k].event.lab.uuid !in Waiting(steps[..k])
    ensures Queued(Waiting(steps[..k + 1]), After(steps[..k + 1]).deployment)
  {
    hide Queued, AllTimed, Sorted, Scheduled, Popped, HandleDeployment, IsDue, AfterEvent;
    var s := After(steps[..k]);
    Prefixes(steps, k);
    assert steps[..k + 1][..k] == steps[..k];
    match steps[k]
    case Happens(event) =>
      EventIsADeploymentStep(s, event);
      EventKeepsQueued(Waiting(steps[..k]), s.deployment, event, s.nextAddr);
    case DeployDue(now) => PopKeepsQueued(Waiting(steps[..k]), s.deployment, now);
    case DestroyDue(_) =>
  }

  /** As long as lab.created is only published for labs that do not wait, the deployment queue holds exactly the waiting
      labs, each once and as it was created or last moved. */
  lemma {:induction false} TheWaitingLabsAreQueued(steps: seq<Step>, k: nat)
    requires CreatesAreNew(steps) && k <= |steps|
    ensures forall lab :: Holds(After(steps[..k]).deployment.items, lab) <==>
                            lab.uuid in Waiting(steps[..k]) && Waiting(steps[..k])[lab.uuid] == lab
    ensures Queued(Waiting(steps[..k]), After(steps[..k]).deployment)
  {
    hide Apply;
    if k > 0 {
      TheWaitingLabsAreQueued(steps, k - 1);
      StepKeepsQueued(steps, k - 1);
    }
    var q, waiting := After(steps[..k]).deployment, Waiting(steps[..k]);
    forall lab ensures Holds(q.items, lab) <==> lab.uuid in waiting && waiting[lab.uuid] == lab {
      QueuedMeans(waiting, q, lab);
    }
  }

  lemma QueuedMeans(waiting: map<string, Lab>, q: Queue<Lab>, lab: Lab)
    requires Valid(DEPLOYMENT, q) && Queued(waiting, q)
    ensures Holds(q.items, lab) <==> lab.uuid in waiting && waiting[lab.uuid] == lab
  {
    if p :| p in q.items && p.value == lab {
      assert q.items[IndexOf(q.items, p)] == p;
    }
  }

  // ---------------------------------------------------------------------------------------------
  // Catching up
  // ---------------------------------------------------------------------------------------------

  /** How many of the items have started, and how many have ended. */
  function Started(items: seq<Ptr<Lab>>, now: int): nat {
    if items == [] then 0 else (if items[0].value.startTime <= now then 1 else 0) + Started(items[1..], now)
  }

  function Ended(items: seq<Ptr<Lab>>, now: int): nat {
    if items == [] then 0
    else
      var end := items[0].value.endTime;
      (if end.Some? && end.value <= now then 1 else 0) + Ended(items[1..], now)
  }

  lemma {:induction false} StartedIsDue(items: seq<Ptr<Lab>>, now: int)
    requires AllTimed(DEPLOYMENT, items)
    ensures DueCount(DEPLOYMENT, items, now) == Started(items, now)
  {
    if items != [] {
      StartedIsDue(items[1..], now);
    }
  }

  lemma {:induction false} EndedIsDue(items: seq<Ptr<Lab>>, now: int)
    requires AllTimed(DESTRUCTION, items)
    ensures DueCount(DESTRUCTION, items, now) == Ended(items, now)
  {
    if items != [] {
      assert HasTime(DESTRUCTION, items[0]);
      EndedIsDue(items[1..], now);
    }
  }

  /** Over any ticks, a lab that waits for its deployment keeps waiting until it is handed over. */
  lemma {:induction false} AwaitedLabsStay(s: State, clock: seq<int>, lab: Lab)
    requires ValidState(s) && Holds(s.deployment.items, lab)
    ensures IsAwaited(AfterTicks(s, clock), lab, |s.toDeploy|)
  {
    hide IsAwaited, AllTimed, Sorted, AfterDeploying, AfterDestroying, Holds;
    if clock == [] {
      StaysAwaited(s, s, lab, |s.toDeploy|);
    } else {
      var before, now := clock[..|clock| - 1], clock[|clock| - 1];
      AwaitedLabsStay(s, before, lab);
      var s1 := AfterTicks(s, before);
      DeployingKeepsValid(s1, now);
      DeployingKeepsAwaited(s1, now, lab, |s.toDeploy|);
      DestroyingLeavesDeployments(AfterDeploying(s1, now), now);
      StaysAwaited(AfterDeploying(s1, now), AfterTick(s1, now), lab, |s.toDeploy|);
    }
  }

  lemma StaysAwaited(s: State, s': State, lab: Lab, from: nat)
    requires s.deployment == s'.deployment && s.toDeploy == s'.toDeploy
    requires IsAwaited(s, lab, from) || (from == |s.toDeploy| && Holds(s.deployment.items, lab))
    ensures IsAwaited(s', lab, from)
  {
  }

  lemma DestroyingLeavesDeployments(s: State, now: int)
    requires ValidState(s)
    ensures AfterDestroying(s, now).deployment == s.deployment && AfterDestroying(s, now).toDeploy == s.toDeploy
  {
  }

  /** Over any ticks up to a time, only labs whose start has come by then are handed over. */
  lemma {:induction false} TicksDeployStartedLabs(s: State, clock: seq<int>, now: int)
    requires ValidState(s) && forall k | 0 <= k < |clock| :: clock[k] <= now
    ensures |s.toDeploy| <= |AfterTicks(s, clock).toDeploy|
    ensures forall i | |s.toDeploy| <= i < |AfterTicks(s, clock).toDeploy| ::
              AfterTicks(s, clock).toDeploy[i].startTime <= now
  {
    if clock != [] {
      hide AfterDestroying, AllTimed, Sorted;
      var before, at := clock[..|clock| - 1], clock[|clock| - 1];
      TicksDeployStartedLabs(s, before, now);
      var s1 := AfterTicks(s, before);
      EarliestStartIsDeployed(s1, at);
      DeployingKeepsValid(s1, at);
      DestroyingLeavesDeployments(AfterDeploying(s1, at), at);
    }
  }

  /** The same for the labs that are destroyed. */
  lemma {:induction false} TicksDestroyEndedLabs(s: State, clock: seq<int>, now: int)
    requires ValidState(s) && forall k | 0 <= k < |clock| :: clock[k] <= now
    ensures |s.toDestroy| <= |AfterTicks(s, clock).toDestroy|
    ensures forall i | |s.toDestroy| <= i < |AfterTicks(s, clock).toDestroy| ::
              var end := AfterTicks(s, clock).toDestroy[i].endTime; end.Some? && end.value <= now
  {
    if clock != [] {
      hide Scheduled, AllTimed, Sorted;
      var before, at := clock[..|clock| - 1], clock[|clock| - 1];
      TicksDestroyEndedLabs(s, before, now);
      var s1 := AfterTicks(s, before);
      DeployingKeepsValid(s1, at);
      EarliestEndIsDestroyed(AfterDeploying(s1, at), at);
    }
  }

  /** After as many ticks at one time as labs queued for deployment have started and labs queued for destruction have
      ended, every queued lab that has started is handed over, no lab that starts later is, and these still wait. */
  lemma StartedLabsAreDeployed(s: State, clock: seq<int>, now: int, lab: Lab)
    requires ValidState(s) && Holds(s.deployment.items, lab)
    requires forall k | 0 <= k < |clock| :: clock[k] == now
    requires |clock| >= Started(s.deployment.items, now) + Ended(s.destruction.items, now)
    ensures var s' := AfterTicks(s, clock);
            && |s.toDeploy| <= |s'.toDeploy|
            && (forall i | |s.toDeploy| <= i < |s'.toDeploy| :: s'.toDeploy[i].startTime <= now)
            && (forall p | p in s'.deployment.items :: p.value.startTime > now)
            && (lab.startTime <= now ==> lab in s'.toDeploy[|s.toDeploy|..])
            && (lab.startTime > now ==> Holds(s'.deployment.items, lab))
  {
    hide AllTimed, Sorted, AfterTicks, Backlog;
    StartedIsDue(s.deployment.items, now);
    EndedIsDue(s.destruction.items, now);
    TheBacklogIsWorkedOff(s, clock, now);
    AwaitedLabsStay(s, clock, lab);
    TicksDeployStartedLabs(s, clock, now);
    var s' := AfterTicks(s, clock);
    forall p | p in s'.deployment.items ensures p.value.startTime > now {
      NothingDueIsLeft(DEPLOYMENT, s'.deployment, now, p);
    }
  }

  /** And every queued lab that has ended is destroyed, while those that end later still wait for it. */
  lemma EndedLabsAreDestroyedInTime(s: State, clock: seq<int>, now: int, lab: Lab)
    requires ValidState(s) && Holds(s.destruction.items, lab)
    requires forall k | 0 <= k < |clock| :: clock[k] == now
    requires |clock| >= Started(s.deployment.items, now) + Ended(s.destruction.items, now)
    ensures lab.endTime.Some?
    ensures var s' := AfterTicks(s, clock);
            && |s.toDestroy| <= |s'.toDestroy|
            && (forall p | p in s'.destruction.items :: p.value.endTime.Some? && p.value.endTime.value > now)
            && (forall i | |s.toDestroy| <= i < |s'.toDestroy| ::
                  s'.toDestroy[i].endTime.Some? && s'.toDestroy[i].endTime.value <= now)
            && (lab.endTime.value <= now ==> lab in s'.toDestroy[|s.toDestroy|..])
            && (lab.endTime.value > now ==> Holds(s'.destruction.items, lab))
  {
    hide Sorted, AfterTicks;
    StartedIsDue(s.deployment.items, now);
    EndedIsDue(s.destruction.items, now);
    TheBacklogIsWorkedOff(s, clock, now);
    var q :| q in s.destruction.items && q.value == lab;
    assert HasTime(DESTRUCTION, s.destruction.items[IndexOf(s.destruction.items, q)]);
    var s' := AfterTicks(s, clock);
    forall p | p in s'.destruction.items ensures p.value.endTime.Some? && p.value.endTime.value > now {
      NothingDueIsLeft(DESTRUCTION, s'.destruction, now, p);
    }
    TicksDestroyEndedLabs(s, clock, now);
    DeployedLabsAreTracked(s, clock, lab);
    if lab.endTime.value <= now {
      EndedLabsAreDestroyed(s, clock, now, lab);
    }
  }

  // ---------------------------------------------------------------------------------------------
  // Copies
  // ---------------------------------------------------------------------------------------------

  /** No two entries of a queue are the same copy, and all of them were made before. */
  ghost predicate OwnCopies(items: seq<Ptr<Lab>>, nextAddr: nat) {
    && (forall i | 0 <= i < |items| :: items[i].addr < nextAddr)
    && (forall i, j | 0 <= i < j < |items| :: items[i].addr != items[j].addr)
  }

  ghost predicate Apart(a: seq<Ptr<Lab>>, b: seq<Ptr<Lab>>) {
    forall i, j | 0 <= i < |a| && 0 <= j < |b| :: a[i].addr != b[j].addr
  }

  /** What an operation may do to the entries of a queue: take some out, and put a copy in. */
  ghost predicate Follows(items: seq<Ptr<Lab>>, before: seq<Ptr<Lab>>, addr: nat) {
    forall i | 0 <= i < |items| :: items[i].addr == addr || exists j | 0 <= j < |before| :: before[j] == items[i]
  }

  lemma ScheduledCopies(g: Getters<Lab>, q: Queue<Lab>, p: Ptr<Lab>, nextAddr: nat)
    requires AllTimed(g, q.items) && OwnCopies(q.items, nextAddr) && p.addr >= nextAddr
    ensures OwnCopies(Scheduled(g, q, p).items, p.addr + 1)
    ensures Follows(Scheduled(g, q, p).items, q.items, p.addr)
  {
    hide PutIn, CountBefore, HasTime, Time;
  }

  lemma DeletedCopies(q: Queue<Lab>, uuid: string, nextAddr: nat, addr: nat)
    requires OwnCopies(q.items, nextAddr) && (uuid in q.index ==> q.index[uuid] in q.items)
    ensures OwnCopies(Delete(q, uuid).items, nextAddr)
    ensures Follows(Delete(q, uuid).items, q.items, addr)
  {
    hide TakeOut;
  }

  lemma RescheduledCopies(g: Getters<Lab>, q: Queue<Lab>, p: Ptr<Lab>, nextAddr: nat)
    requires Valid(g, q) && OwnCopies(q.items, nextAddr) && p.addr >= nextAddr
    ensures OwnCopies(Rescheduled(g, q, p).items, p.addr + 1)
    ensures Follows(Rescheduled(g, q, p).items, q.items, p.addr)
  {
    hide Delete, Scheduled, AllTimed, Sorted, Key;
    DeleteKeepsValid(g, q, Key(g, p));
    DeletedCopies(q, Key(g, p), nextAddr, p.addr);
    ScheduledCopies(g, Delete(q, Key(g, p)), p, nextAddr);
  }

  lemma PoppedCopies(g: Getters<Lab>, q: Queue<Lab>, now: int, nextAddr: nat, addr: nat)
    requires AllTimed(g, q.items) && OwnCopies(q.items, nextAddr)
    ensures OwnCopies(Popped(g, q, now).items, nextAddr)
    ensures Follows(Popped(g, q, now).items, q.items, addr)
  {
    hide IsDue;
  }

  ghost predicate NothingShared(s: State) {
    && OwnCopies(s.deployment.items, s.nextAddr)
    && OwnCopies(s.destruction.items, s.nextAddr)
    && Apart(s.deployment.items, s.destruction.items)
  }

  /** Whatever follows two queues without common copies, and takes on different new ones, has no common copies. */
  lemma StaysUnshared(s: State, s': State, a: nat, b: nat, upTo: nat, to: nat)
    requires NothingShared(s) && a != b && a >= s.nextAddr && b >= s.nextAddr
    requires upTo <= s'.nextAddr && to <= s'.nextAddr
    requires OwnCopies(s'.deployment.items, upTo) && OwnCopies(s'.destruction.items, to)
    requires Follows(s'.deployment.items, s.deployment.items, a)
    requires Follows(s'.destruction.items, s.destruction.items, b)
    ensures NothingShared(s')
  {
  }

  lemma Unchanged(items: seq<Ptr<Lab>>, addr: nat)
    ensures Follows(items, items, addr)
  {
  }

  lemma EventSharesNothing(s: State, event: Event)
    requires ValidState(s) && NothingShared(s)
    ensures NothingShared(AfterEvent(s, event))
  {
    hide OwnCopies, Apart, Follows, AllTimed, Sorted, Delete, Scheduled, Rescheduled;
    var s', n := AfterEvent(s, event), s.nextAddr;
    match event
    case Created(lab) =>
      ScheduledCopies(DEPLOYMENT, s.deployment, Ptr(n, lab), n);
      ScheduledCopies(DESTRUCTION, s.destruction, Ptr(n + 1, lab), n);
      StaysUnshared(s, s', n, n + 1, n + 1, n + 2);
    case Moved(lab) =>
      RescheduledCopies(DEPLOYMENT, s.deployment, Ptr(n, lab), n);
      RescheduledCopies(DESTRUCTION, s.destruction, Ptr(n + 1, lab), n);
      StaysUnshared(s, s', n, n + 1, n + 1, n + 2);
    case Deleted(lab) =>
      DeletedCopies(s.deployment, lab.uuid, n, n + 1);
      DeletedCopies(s.destruction, lab.uuid, n, n);
      StaysUnshared(s, s', n + 1, n, n, n);
    case ManuallyDeployed(lab) =>
      DeletedCopies(s.deployment, lab.uuid, n, n + 1);
      ScheduledCopies(DESTRUCTION, s.destruction, Ptr(n, lab), n);
      StaysUnshared(s, s', n + 1, n, n, n + 1);
    case Restored(lab) =>
      Unchanged(s.deployment.items, n + 1);
      ScheduledCopies(DESTRUCTION, s.destruction, Ptr(n, lab), n);
      StaysUnshared(s, s', n + 1, n, n, n + 1);
  }

  lemma StepSharesNothing(s: State, step: Step)
    requires ValidState(s) && NothingShared(s)
    ensures NothingShared(Apply(s, step))
  {
    hide OwnCopies, Apart, Follows, AllTimed, Sorted, Scheduled, Popped, IsDue, AfterEvent;
    var s', n := Apply(s, step), s.nextAddr;
    match step
    case Happens(event) => EventSharesNothing(s, event);
    case DeployDue(now) =>
      if CanPop(DEPLOYMENT, s.deployment, now) {
        PoppedCopies(DEPLOYMENT, s.deployment, now, n, n + 1);
        ScheduledCopies(DESTRUCTION, s.destruction, Ptr(n, s.deployment.items[0].value), n);
        StaysUnshared(s, s', n + 1, n, n, n + 1);
      }
    case DestroyDue(now) =>
      Unchanged(s.deployment.items, n + 1);
      PoppedCopies(DESTRUCTION, s.destruction, now, n, n);
      if CanPop(DESTRUCTION, s.destruction, now) {
        StaysUnshared(s, s', n + 1, n, n, n);
      }
  }

  /** Over any run, every entry of the two queues is a copy of its own, so no change of one reaches another. */
  lemma {:induction false} CopiesAreNotShared(steps: seq<Step>)
    ensures var s := After(steps);
            && (forall i, j | 0 <= i < j < |s.deployment.items| ::
                  s.deployment.items[i].addr != s.deployment.items[j].addr)
            && (forall i, j | 0 <= i < j < |s.destruction.items| ::
                  s.destruction.items[i].addr != s.destruction.items[j].addr)
            && (forall i, j | 0 <= i < |s.deployment.items| && 0 <= j < |s.destruction.items| ::
                  s.deployment.items[i].addr != s.destruction.items[j].addr)
    ensures NothingShared(After(steps))
  {
    hide Apply;
    if steps != [] {
      CopiesAreNotShared(steps[..|steps| - 1]);
      StepSharesNothing(After(steps[..|steps| - 1]), steps[|steps| - 1]);
    }
  }
}
