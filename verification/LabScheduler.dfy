/** The scheduler: two queues of labs, fed by lab events and emptied by the ticks of its Run loop. */
module LabScheduler {
  import opened Wrappers
  import opened Schedules

  /** The fields of a lab the scheduler looks at, times in Unix seconds. A lab without an end runs until it is
      destroyed. */
  datatype Lab = Lab(uuid: string, startTime: int, endTime: Option<int>)

  const DEPLOYMENT: Getters<Lab> := Getters((lab: Lab) => lab.uuid, (lab: Lab) => Some(lab.startTime))
  const DESTRUCTION: Getters<Lab> := Getters((lab: Lab) => lab.uuid, (lab: Lab) => lab.endTime)

  datatype Event =
    | Created(lab: Lab)
    | Moved(lab: Lab)
    | Deleted(lab: Lab)
    | ManuallyDeployed(lab: Lab)
    | Restored(lab: Lab)

  // ---------------------------------------------------------------------------------------------
  // The deployment queue on its own
  // ---------------------------------------------------------------------------------------------

  /** What reaches the deployment queue, in the order its lock is taken: handlers and the tick loop
      run on different goroutines, and none of their other steps touch this queue. A handler queues
      its own copy of the lab, which is what the address stands for. */
  datatype DeploymentStep =
    | Handle(event: Event, addr: nat)
    | Tick(now: int)

  function HandleDeployment(q: Queue<Lab>, event: Event, addr: nat): Queue<Lab>
    requires Valid(DEPLOYMENT, q)
  {
    match event
    case Created(lab) => Scheduled(DEPLOYMENT, q, Ptr(addr, lab))
    case Moved(lab) => Rescheduled(DEPLOYMENT, q, Ptr(addr, lab))
    case Deleted(lab) => Delete(q, lab.uuid)
    case ManuallyDeployed(lab) => Delete(q, lab.uuid)
    case Restored(_) => q
  }

  function AfterStep(q: Queue<Lab>, step: DeploymentStep): Queue<Lab>
    requires Valid(DEPLOYMENT, q)
  {
    match step
    case Handle(event, addr) => HandleDeployment(q, event, addr)
    case Tick(now) => Popped(DEPLOYMENT, q, now)
  }

  lemma StepKeepsValid(q: Queue<Lab>, step: DeploymentStep)
    requires Valid(DEPLOYMENT, q)
    ensures Valid(DEPLOYMENT, AfterStep(q, step))
  {
    match step
    case Handle(Created(lab), addr) => InsertKeepsValid(DEPLOYMENT, q, Ptr(addr, lab));
    case Handle(Moved(lab), addr) =>
      DeleteKeepsValid(DEPLOYMENT, q, lab.uuid);
      InsertKeepsValid(DEPLOYMENT, Delete(q, lab.uuid), Ptr(addr, lab));
    case Handle(Deleted(lab), _) => DeleteKeepsValid(DEPLOYMENT, q, lab.uuid);
    case Handle(ManuallyDeployed(lab), _) => DeleteKeepsValid(DEPLOYMENT, q, lab.uuid);
    case _ =>
  }

  function QueueAfter(steps: seq<DeploymentStep>): (q: Queue<Lab>)
    ensures Valid(DEPLOYMENT, q)
  {
    if steps == [] then Queue([], map[])
    else
      var q := QueueAfter(steps[..|steps| - 1]);
      StepKeepsValid(q, steps[|steps| - 1]);
      AfterStep(q, steps[|steps| - 1])
  }

  /** The step hands the lab to DeployLab. */
  predicate Deploys(q: Queue<Lab>, step: DeploymentStep, uuid: string)
    requires Valid(DEPLOYMENT, q)
  {
    step.Tick? && CanPop(DEPLOYMENT, q, step.now) && q.items[0].value.uuid == uuid
  }

  function Deployments(steps: seq<DeploymentStep>, uuid: string): nat {
    if steps == [] then 0
    else
      var before := steps[..|steps| - 1];
      Deployments(before, uuid) + if Deploys(QueueAfter(before), steps[|steps| - 1], uuid) then 1 else 0
  }

  /** The step puts the lab into the queue: its creation or a move. */
  predicate Queues(step: DeploymentStep, uuid: string) {
    step.Handle? && (step.event.Created? || step.event.Moved?) && step.event.lab.uuid == uuid
  }

  /** The step takes the lab out of the queue for good: it is deleted, destroyed or deployed by hand. */
  predicate Cancels(step: DeploymentStep, uuid: string) {
    step.Handle? && (step.event.Deleted? || step.event.ManuallyDeployed?) && step.event.lab.uuid == uuid
  }

  function Queueings(steps: seq<DeploymentStep>, uuid: string): nat {
    if steps == [] then 0
    else Queueings(steps[..|steps| - 1], uuid) + if Queues(steps[|steps| - 1], uuid) then 1 else 0
  }

  /** The queue has one entry per lab, and the map and the slice agree. */
  ghost predicate OnePerLab(q: Queue<Lab>) {
    && (forall i | 0 <= i < |q.items| ::
          q.items[i].value.uuid in q.index && q.index[q.items[i].value.uuid] == q.items[i])
    && (forall i, j | 0 <= i < j < |q.items| :: q.items[i].value.uuid != q.items[j].value.uuid)
  }

  /** lab.created is never published for a lab that is queued. */
  ghost predicate CreatesAreNew(steps: seq<DeploymentStep>) {
    steps == [] ||
    var before, step := steps[..|steps| - 1], steps[|steps| - 1];
    && CreatesAreNew(before)
    && (step.Handle? && step.event.Created? ==> step.event.lab.uuid !in QueueAfter(before).index)
  }

  /** A new entry at any place of the slice. */
  lemma PutInAndOnePerLab(q: Queue<Lab>, n: nat, p: Ptr<Lab>)
    requires OnePerLab(q) && n <= |q.items|
    requires p.value.uuid in q.index ==>
               q.index[p.value.uuid] in q.items && q.index[p.value.uuid].value.uuid == p.value.uuid
    ensures OnePerLab(Queue(PutIn(q.items, n, p), q.index[p.value.uuid := p])) <==> p.value.uuid !in q.index
  {
    hide PutIn;
    var items := PutIn(q.items, n, p);
    if p.value.uuid in q.index {
      var i := IndexOf(q.items, q.index[p.value.uuid]);
      assert items[if i < n then i else i + 1].value.uuid == items[n].value.uuid;
    }
  }

  lemma InsertAndOnePerLab(q: Queue<Lab>, p: Ptr<Lab>)
    requires Valid(DEPLOYMENT, q) && OnePerLab(q)
    ensures OnePerLab(Insert(DEPLOYMENT, q, p)) <==> p.value.uuid !in q.index
  {
    PutInAndOnePerLab(q, CountBefore(DEPLOYMENT, q.items, p.value.startTime), p);
  }

  lemma DeleteKeepsOnePerLab(q: Queue<Lab>, uuid: string)
    requires OnePerLab(q) && (uuid in q.index ==> q.index[uuid] in q.items && q.index[uuid].value.uuid == uuid)
    ensures OnePerLab(Delete(q, uuid)) && uuid !in Delete(q, uuid).index
  {
    if uuid in q.index {
      var n := IndexOf(q.items, q.index[uuid]);
      var items := Delete(q, uuid).items;
      assert forall i | 0 <= i < |items| :: items[i] == q.items[if i < n then i else i + 1];
    }
  }

  lemma PopKeepsOnePerLab(q: Queue<Lab>, now: int)
    requires Valid(DEPLOYMENT, q) && OnePerLab(q)
    ensures OnePerLab(Popped(DEPLOYMENT, q, now))
  {
    if CanPop(DEPLOYMENT, q, now) {
      forall i | 0 <= i < |q.items[1..]| ensures q.items[1..][i] == q.items[i + 1] {
      }
    }
  }

  /** The exact condition under which a step keeps the deployment queue at one entry per lab. */
  lemma StepKeepsOnePerLab(q: Queue<Lab>, step: DeploymentStep)
    requires Valid(DEPLOYMENT, q) && OnePerLab(q)
    ensures OnePerLab(AfterStep(q, step)) <==>
              (step.Handle? && step.event.Created? ==> step.event.lab.uuid !in q.index)
  {
    match step
    case Handle(Created(lab), addr) => InsertAndOnePerLab(q, Ptr(addr, lab));
    case Handle(Moved(lab), addr) =>
      DeleteKeepsValid(DEPLOYMENT, q, lab.uuid);
      DeleteKeepsOnePerLab(q, lab.uuid);
      InsertAndOnePerLab(Delete(q, lab.uuid), Ptr(addr, lab));
    case Handle(Deleted(lab), _) => DeleteKeepsOnePerLab(q, lab.uuid);
    case Handle(ManuallyDeployed(lab), _) => DeleteKeepsOnePerLab(q, lab.uuid);
    case Handle(Restored(_), _) =>
    case Tick(now) => PopKeepsOnePerLab(q, now);
  }

  /** As long as lab.created is only published for labs that are not queued, the deployment queue
      never holds two entries of one lab, and its map and slice agree. */
  lemma {:induction false} OneEntryPerLab(steps: seq<DeploymentStep>)
    requires CreatesAreNew(steps)
    ensures OnePerLab(QueueAfter(steps))
    ensures forall uuid :: uuid in QueueAfter(steps).index <==>
                             exists i | 0 <= i < |QueueAfter(steps).items| ::
                               QueueAfter(steps).items[i].value.uuid == uuid
  {
    if steps != [] {
      var last := |steps| - 1;
      OneEntryPerLab(steps[..last]);
      StepKeepsOnePerLab(QueueAfter(steps[..last]), steps[last]);
    }
    var q := QueueAfter(steps);
    forall uuid | uuid in q.index ensures exists i | 0 <= i < |q.items| :: q.items[i].value.uuid == uuid {
      var i := IndexOf(q.items, q.index[uuid]);
      assert q.items[i].value.uuid == uuid;
    }
  }

  /** What a step does to the presence of one lab. */
  lemma StepMovesLab(q: Queue<Lab>, step: DeploymentStep, uuid: string)
    requires Valid(DEPLOYMENT, q) && OnePerLab(q)
    requires step.Handle? && step.event.Created? ==> step.event.lab.uuid !in q.index
    ensures var q' := AfterStep(q, step);
            && (uuid in q'.index <==>
                  || Queues(step, uuid)
                  || (uuid in q.index && !Cancels(step, uuid) && !Deploys(q, step, uuid)))
            && (Deploys(q, step, uuid) ==> uuid in q.index)
  {
    hide PutIn, TakeOut, IndexOf, CountBefore, AllTimed, Sorted;
  }

  /** How many entries of a lab are queued. */
  function Count(items: seq<Ptr<Lab>>, uuid: string): nat {
    if items == [] then 0 else (if items[0].value.uuid == uuid then 1 else 0) + Count(items[1..], uuid)
  }

  lemma {:induction false} CountOfConcat(a: seq<Ptr<Lab>>, b: seq<Ptr<Lab>>, uuid: string)
    ensures Count(a + b, uuid) == Count(a, uuid) + Count(b, uuid)
  {
    if a == [] {
      assert a + b == b;
    } else {
      CountOfConcat(a[1..], b, uuid);
      assert (a + b)[1..] == a[1..] + b;
    }
  }

  lemma CountOfPutIn(items: seq<Ptr<Lab>>, n: nat, p: Ptr<Lab>, uuid: string)
    requires n <= |items|
    ensures Count(PutIn(items, n, p), uuid) == Count(items, uuid) + if p.value.uuid == uuid then 1 else 0
  {
    CountOfConcat(items[..n], items[n..], uuid);
    CountOfConcat(items[..n] + [p], items[n..], uuid);
    CountOfConcat(items[..n], [p], uuid);
    assert items == items[..n] + items[n..];
  }

  lemma CountOfTakeOut(items: seq<Ptr<Lab>>, n: nat, uuid: string)
    requires n < |items|
    ensures Count(TakeOut(items, n), uuid) <= Count(items, uuid)
  {
    CountOfConcat(items[..n], items[n + 1..], uuid);
    CountOfConcat(items[..n], items[n..], uuid);
    assert items == items[..n] + items[n..] && items[n..][1..] == items[n + 1..];
  }

  lemma CountOfDelete(q: Queue<Lab>, key: string, uuid: string)
    requires Valid(DEPLOYMENT, q)
    ensures Count(Delete(q, key).items, uuid) <= Count(q.items, uuid)
  {
    hide TakeOut, Count;
    if key in q.index {
      CountOfTakeOut(q.items, IndexOf(q.items, q.index[key]), uuid);
    }
  }

  lemma CountOfInsert(q: Queue<Lab>, p: Ptr<Lab>, uuid: string)
    requires Valid(DEPLOYMENT, q)
    ensures Count(Insert(DEPLOYMENT, q, p).items, uuid) == Count(q.items, uuid) + if p.value.uuid == uuid then 1 else 0
  {
    hide PutIn, Count;
    CountOfPutIn(q.items, CountBefore(DEPLOYMENT, q.items, Time(DEPLOYMENT, p)), p, uuid);
  }

  lemma StepPaysForDeployments(q: Queue<Lab>, step: DeploymentStep, uuid: string)
    requires Valid(DEPLOYMENT, q)
    ensures Count(AfterStep(q, step).items, uuid) + (if Deploys(q, step, uuid) then 1 else 0)
            <= Count(q.items, uuid) + if Queues(step, uuid) then 1 else 0
  {
    hide Insert, Delete;
    match step
    case Handle(Created(lab), addr) => CountOfInsert(q, Ptr(addr, lab), uuid);
    case Handle(Moved(lab), addr) =>
      DeleteKeepsValid(DEPLOYMENT, q, lab.uuid);
      CountOfDelete(q, lab.uuid, uuid);
      CountOfInsert(Delete(q, lab.uuid), Ptr(addr, lab), uuid);
    case Handle(Deleted(lab), _) => CountOfDelete(q, lab.uuid, uuid);
    case Handle(ManuallyDeployed(lab), _) => CountOfDelete(q, lab.uuid, uuid);
    case Handle(Restored(_), _) =>
    case Tick(_) =>
  }

  /** Run hands a lab to DeployLab at most once for every time the lab is created or moved, less the entries of the
      lab that are still queued. */
  lemma {:induction false} DeployedAtMostOncePerQueueing(steps: seq<DeploymentStep>, uuid: string)
    ensures Deployments(steps, uuid) + Count(QueueAfter(steps).items, uuid) <= Queueings(steps, uuid)
  {
    hide AfterStep, Deploys, Queues;
    if steps != [] {
      var last := |steps| - 1;
      DeployedAtMostOncePerQueueing(steps[..last], uuid);
      StepPaysForDeployments(QueueAfter(steps[..last]), steps[last], uuid);
    }
  }

  lemma DeploymentsOfLast(steps: seq<DeploymentStep>, uuid: string)
    requires steps != [] && CreatesAreNew(steps)
    ensures var before, step := steps[..|steps| - 1], steps[|steps| - 1];
            && CreatesAreNew(before)
            && (uuid in QueueAfter(steps).index <==>
                  || Queues(step, uuid)
                  || (&& uuid in QueueAfter(before).index && !Cancels(step, uuid)
                      && !Deploys(QueueAfter(before), step, uuid)))
            && (uuid !in QueueAfter(before).index || Cancels(step, uuid) ==>
                  Deployments(steps, uuid) == Deployments(before, uuid))
  {
    OneEntryPerLab(steps[..|steps| - 1]);
    StepMovesLab(QueueAfter(steps[..|steps| - 1]), steps[|steps| - 1], uuid);
  }

  /** A lab that was not queued, or is taken out, is neither queued nor deployed by a step that does not queue it. */
  lemma LastStepLeavesOut(steps: seq<DeploymentStep>, uuid: string)
    requires steps != [] && CreatesAreNew(steps)
    requires Cancels(steps[|steps| - 1], uuid)
             || (uuid !in QueueAfter(steps[..|steps| - 1]).index && !Queues(steps[|steps| - 1], uuid))
    ensures CreatesAreNew(steps[..|steps| - 1]) && uuid !in QueueAfter(steps).index
    ensures Deployments(steps, uuid) == Deployments(steps[..|steps| - 1], uuid)
  {
    DeploymentsOfLast(steps, uuid);
  }

  /** After a lab is deleted or deployed by hand, Run does not deploy it until it is created or moved again. */
  lemma {:induction false} NeverDeployedOnceCancelled(steps: seq<DeploymentStep>, k: nat, uuid: string)
    requires CreatesAreNew(steps) && k < |steps| && Cancels(steps[k], uuid)
    requires forall j | k < j < |steps| :: !Queues(steps[j], uuid)
    ensures uuid !in QueueAfter(steps).index
    ensures Deployments(steps, uuid) == Deployments(steps[..k], uuid)
    decreases |steps|
  {
    var last := |steps| - 1;
    if k < last {
      NeverDeployedOnceCancelled(steps[..last], k, uuid);
      assert steps[..last][..k] == steps[..k];
    }
    LastStepLeavesOut(steps, uuid);
  }

  // ---------------------------------------------------------------------------------------------
  // Both queues
  // ---------------------------------------------------------------------------------------------

  /** `toDeploy` and `toDestroy` are the labs Run has handed to DeployLab and DestroyLab so far.
      Addresses from `nextAddr` on are free for copies. */
  datatype State = State(
    deployment: Queue<Lab>,
    destruction: Queue<Lab>,
    nextAddr: nat,
    toDeploy: seq<Lab>,
    toDestroy: seq<Lab>)

  ghost predicate ValidState(s: State) {
    Valid(DEPLOYMENT, s.deployment) && Valid(DESTRUCTION, s.destruction)
  }

  lemma ScheduledKeepsValid(q: Queue<Lab>, p: Ptr<Lab>)
    requires Valid(DESTRUCTION, q)
    ensures Valid(DESTRUCTION, Scheduled(DESTRUCTION, q, p))
  {
    if HasTime(DESTRUCTION, p) {
      InsertKeepsValid(DESTRUCTION, q, p);
    }
  }

  /** An event's handler, which updates the deployment queue first. */
  function AfterEvent(s: State, event: Event): State
    requires ValidState(s)
  {
    var deployment := HandleDeployment(s.deployment, event, s.nextAddr);
    match event
    case Created(lab) =>
      s.(deployment := deployment,
         destruction := Scheduled(DESTRUCTION, s.destruction, Ptr(s.nextAddr + 1, lab)),
         nextAddr := s.nextAddr + 2)
    case Moved(lab) =>
      s.(deployment := deployment,
         destruction := Rescheduled(DESTRUCTION, s.destruction, Ptr(s.nextAddr + 1, lab)),
         nextAddr := s.nextAddr + 2)
    case Deleted(lab) => s.(deployment := deployment, destruction := Delete(s.destruction, lab.uuid))
    case ManuallyDeployed(lab) =>
      s.(deployment := deployment,
         destruction := Scheduled(DESTRUCTION, s.destruction, Ptr(s.nextAddr, lab)),
         nextAddr := s.nextAddr + 1)
    case Restored(lab) =>
      s.(destruction := Scheduled(DESTRUCTION, s.destruction, Ptr(s.nextAddr, lab)), nextAddr := s.nextAddr + 1)
  }

  /** The first half of a tick: deploy a due lab and schedule its destruction. */
  function AfterDeploying(s: State, now: int): State
    requires ValidState(s)
  {
    if !CanPop(DEPLOYMENT, s.deployment, now) then s
    else
      var lab := s.deployment.items[0].value;
      State(Popped(DEPLOYMENT, s.deployment, now),
            Scheduled(DESTRUCTION, s.destruction, Ptr(s.nextAddr, lab)),
            s.nextAddr + 1,
            s.toDeploy + [lab],
            s.toDestroy)
  }

  /** The second half: destroy a due lab. */
  function AfterDestroying(s: State, now: int): State
    requires ValidState(s)
  {
    if !CanPop(DESTRUCTION, s.destruction, now) then s
    else s.(destruction := Popped(DESTRUCTION, s.destruction, now),
            toDestroy := s.toDestroy + [s.destruction.items[0].value])
  }

  lemma DeployingKeepsValid(s: State, now: int)
    requires ValidState(s)
    ensures ValidState(AfterDeploying(s, now))
  {
    if CanPop(DEPLOYMENT, s.deployment, now) {
      PopKeepsValid(DEPLOYMENT, s.deployment, now);
      ScheduledKeepsValid(s.destruction, Ptr(s.nextAddr, s.deployment.items[0].value));
    }
  }

  lemma DestroyingKeepsValid(s: State, now: int)
    requires ValidState(s)
    ensures ValidState(AfterDestroying(s, now))
  {
    PopKeepsValid(DESTRUCTION, s.destruction, now);
  }

  function AfterTick(s: State, now: int): (s': State)
    requires ValidState(s)
    ensures ValidState(s')
  {
    DeployingKeepsValid(s, now);
    DestroyingKeepsValid(AfterDeploying(s, now), now);
    AfterDestroying(AfterDeploying(s, now), now)
  }

  /** Ticks at the given times. */
  function AfterTicks(s: State, clock: seq<int>): (s': State)
    requires ValidState(s)
    ensures ValidState(s')
  {
    if clock == [] then s else AfterTick(AfterTicks(s, clock[..|clock| - 1]), clock[|clock| - 1])
  }

  /** A tick is one step of the deployment queue, and what it hands to DeployLab is what that step deploys. */
  lemma TickIsADeploymentStep(s: State, now: int, uuid: string)
    requires ValidState(s)
    ensures AfterTick(s, now).deployment == AfterStep(s.deployment, Tick(now))
    ensures AfterTick(s, now).toDeploy ==
              s.toDeploy + if CanPop(DEPLOYMENT, s.deployment, now) then [s.deployment.items[0].value] else []
    ensures Deploys(s.deployment, Tick(now), uuid) <==>
              |AfterTick(s, now).toDeploy| > |s.toDeploy| && AfterTick(s, now).toDeploy[|s.toDeploy|].uuid == uuid
  {
  }

  class Scheduler {
    const deploymentSchedule: Schedule<Lab>
    const destructionSchedule: Schedule<Lab>
    var nextAddr: nat
    var toDeploy: seq<Lab>
    var toDestroy: seq<Lab>

    ghost function Repr(): set<object> {
      {this, deploymentSchedule, destructionSchedule}
    }

    ghost predicate IsValid()
      reads Repr()
    {
      && deploymentSchedule != destructionSchedule
      && deploymentSchedule.getters == DEPLOYMENT && deploymentSchedule.IsValid()
      && destructionSchedule.getters == DESTRUCTION && destructionSchedule.IsValid()
    }

    ghost function Value(): State
      reads Repr()
    {
      State(deploymentSchedule.Value(), destructionSchedule.Value(), nextAddr, toDeploy, toDestroy)
    }

    constructor ()
      ensures IsValid() && fresh(Repr())
      ensures Value() == State(Queue([], map[]), Queue([], map[]), 0, [], [])
    {
      deploymentSchedule := new Schedule<Lab>(DEPLOYMENT);
      destructionSchedule := new Schedule<Lab>(DESTRUCTION);
      nextAddr, toDeploy, toDestroy := 0, [], [];
    }

    /** A copy of a lab, which the queues share with no one. */
    method CopyLab(original: Lab) returns (copied: Ptr<Lab>)
      modifies `nextAddr
      ensures copied == Ptr(old(nextAddr), original) && nextAddr == old(nextAddr) + 1
    {
      copied := Ptr(nextAddr, original);
      nextAddr := nextAddr + 1;
    }

    method OnLabCreated(lab: Lab)
      requires IsValid()
      modifies Repr()
      ensures IsValid() && Value() == AfterEvent(old(Value()), Created(lab))
    {
      var copied := CopyLab(lab);
      deploymentSchedule.Schedule(copied);
      copied := CopyLab(lab);
      destructionSchedule.Schedule(copied);
    }

    method OnLabDeleted(lab: Lab)
      requires IsValid()
      modifies Repr()
      ensures IsValid() && Value() == AfterEvent(old(Value()), Deleted(lab))
    {
      deploymentSchedule.Remove(lab.uuid);
      destructionSchedule.Remove(lab.uuid);
    }

    method OnLabMoved(lab: Lab)
      requires IsValid()
      modifies Repr()
      ensures IsValid() && Value() == AfterEvent(old(Value()), Moved(lab))
    {
      hide Delete, Insert, Scheduled, Valid;
      var copied := CopyLab(lab);
      deploymentSchedule.Reschedule(copied);
      copied := CopyLab(lab);
      destructionSchedule.Reschedule(copied);
    }

    method OnLabManuallyDeployed(lab: Lab)
      requires IsValid()
      modifies Repr()
      ensures IsValid() && Value() == AfterEvent(old(Value()), ManuallyDeployed(lab))
    {
      deploymentSchedule.Remove(lab.uuid);
      var copied := CopyLab(lab);
      destructionSchedule.Schedule(copied);
    }

    method OnLabRestored(lab: Lab)
      requires IsValid()
      modifies Repr()
      ensures IsValid() && Value() == AfterEvent(old(Value()), Restored(lab))
    {
      var copied := CopyLab(lab);
      destructionSchedule.Schedule(copied);
    }

    /** One pass of the loop. Handing a lab to a service is recorded instead of done. */
    method TickOnce(now: int)
      requires IsValid()
      modifies Repr()
      ensures IsValid() && Value() == AfterTick(old(Value()), now)
    {
      var dueLab := deploymentSchedule.TryPopAt(now);
      if dueLab.Some? {
        toDeploy := toDeploy + [dueLab.value.value];
        var copied := CopyLab(dueLab.value.value);
        destructionSchedule.Schedule(copied);
      }
      dueLab := destructionSchedule.TryPopAt(now);
      if dueLab.Some? {
        toDestroy := toDestroy + [dueLab.value.value];
      }
    }

    /** The Run loop, for as many passes as the clock has readings. */
    method Run(clock: seq<int>)
      requires IsValid()
      modifies Repr()
      ensures IsValid() && Value() == AfterTicks(old(Value()), clock)
    {
      for n := 0 to |clock|
        invariant IsValid() && Value() == AfterTicks(old(Value()), clock[..n])
      {
        TickOnce(clock[n]);
        assert clock[..n + 1][..n] == clock[..n];
      }
      assert clock[..|clock|] == clock;
    }
  }

  // ---------------------------------------------------------------------------------------------
  // Catching up
  // ---------------------------------------------------------------------------------------------

  /** How many queued items are due. */
  function DueCount(g: Getters<Lab>, items: seq<Ptr<Lab>>, now: int): nat
    requires AllTimed(g, items)
  {
    if items == [] then 0 else (if IsDue(g, items[0], now) then 1 else 0) + DueCount(g, items[1..], now)
  }

  lemma {:induction false} DueCountOfConcat(g: Getters<Lab>, a: seq<Ptr<Lab>>, b: seq<Ptr<Lab>>, now: int)
    requires AllTimed(g, a) && AllTimed(g, b)
    ensures AllTimed(g, a + b) && DueCount(g, a + b, now) == DueCount(g, a, now) + DueCount(g, b, now)
  {
    if a == [] {
      assert a + b == b;
    } else {
      DueCountOfConcat(g, a[1..], b, now);
      assert (a + b)[1..] == a[1..] + b;
    }
  }

  lemma DueCountOfInsert(g: Getters<Lab>, q: Queue<Lab>, p: Ptr<Lab>, now: int)
    requires Valid(g, q) && HasTime(g, p)
    ensures AllTimed(g, Insert(g, q, p).items)
    ensures DueCount(g, Insert(g, q, p).items, now) == DueCount(g, q.items, now) + if IsDue(g, p, now) then 1 else 0
  {
    var n := CountBefore(g, q.items, Time(g, p));
    DueCountOfConcat(g, q.items[..n], q.items[n..], now);
    DueCountOfConcat(g, q.items[..n], [p], now);
    DueCountOfConcat(g, q.items[..n] + [p], q.items[n..], now);
    assert q.items == q.items[..n] + q.items[n..];
  }

  lemma {:induction false} DueItemsComeFirst(g: Getters<Lab>, items: seq<Ptr<Lab>>, now: int)
    requires AllTimed(g, items) && Sorted(g, items)
    ensures DueCount(g, items, now) > 0 <==> |items| > 0 && IsDue(g, items[0], now)
  {
    if |items| > 1 {
      assert Time(g, items[0]) <= Time(g, items[1]);
      DueItemsComeFirst(g, items[1..], now);
    }
  }

  function Backlog(s: State, now: int): nat
    requires ValidState(s)
  {
    DueCount(DEPLOYMENT, s.deployment.items, now) + DueCount(DESTRUCTION, s.destruction.items, now)
  }

  lemma DeployingAndTheBacklog(s: State, now: int)
    requires ValidState(s)
    ensures ValidState(AfterDeploying(s, now))
    ensures Backlog(AfterDeploying(s, now), now) <= Backlog(s, now)
    ensures DueCount(DEPLOYMENT, AfterDeploying(s, now).deployment.items, now) ==
              if CanPop(DEPLOYMENT, s.deployment, now) then DueCount(DEPLOYMENT, s.deployment.items, now) - 1 else 0
    ensures Backlog(s, now) > 0 && Backlog(AfterDeploying(s, now), now) == Backlog(s, now) ==>
              DueCount(DESTRUCTION, AfterDeploying(s, now).destruction.items, now) > 0
  {
    DeployingKeepsValid(s, now);
    DueItemsComeFirst(DEPLOYMENT, s.deployment.items, now);
    if CanPop(DEPLOYMENT, s.deployment, now) {
      var p := Ptr(s.nextAddr, s.deployment.items[0].value);
      if HasTime(DESTRUCTION, p) {
        DueCountOfInsert(DESTRUCTION, s.destruction, p, now);
      }
    }
  }

  lemma DestroyingAndTheBacklog(s: State, now: int)
    requires ValidState(s)
    ensures ValidState(AfterDestroying(s, now))
    ensures var due := DueCount(DESTRUCTION, s.destruction.items, now);
            Backlog(AfterDestroying(s, now), now) == Backlog(s, now) - if due > 0 then 1 else 0
  {
    DestroyingKeepsValid(s, now);
    DueItemsComeFirst(DESTRUCTION, s.destruction.items, now);
  }

  /** Every tick works off at least one due item, although it may make the destruction of the lab it deploys due. */
  lemma TickLowersTheBacklog(s: State, now: int)
    requires ValidState(s)
    ensures Backlog(AfterTick(s, now), now) <= Backlog(s, now)
    ensures Backlog(s, now) > 0 ==> Backlog(AfterTick(s, now), now) < Backlog(s, now)
  {
    DeployingAndTheBacklog(s, now);
    DestroyingAndTheBacklog(AfterDeploying(s, now), now);
  }

  /** At a fixed time and without further events, D due deployments and X due destructions are
      worked off in at most D + X ticks, with nothing due left in either queue. */
  lemma {:induction false} TheBacklogIsWorkedOff(s: State, clock: seq<int>, now: int)
    requires ValidState(s)
    requires forall k | 0 <= k < |clock| :: clock[k] == now
    ensures Backlog(AfterTicks(s, clock), now) <= if |clock| >= Backlog(s, now) then 0 else Backlog(s, now) - |clock|
    ensures |clock| >= DueCount(DEPLOYMENT, s.deployment.items, now)
                       + DueCount(DESTRUCTION, s.destruction.items, now) ==>
              && !CanPop(DEPLOYMENT, AfterTicks(s, clock).deployment, now)
              && !CanPop(DESTRUCTION, AfterTicks(s, clock).destruction, now)
  {
    if clock != [] {
      var before := clock[..|clock| - 1];
      TheBacklogIsWorkedOff(s, before, now);
      TickLowersTheBacklog(AfterTicks(s, before), now);
    }
    DueItemsComeFirst(DEPLOYMENT, AfterTicks(s, clock).deployment.items, now);
    DueItemsComeFirst(DESTRUCTION, AfterTicks(s, clock).destruction.items, now);
  }

  // ---------------------------------------------------------------------------------------------
  // Nothing is skipped
  // ---------------------------------------------------------------------------------------------

  /** A lab that waits for its destruction, or was handed to DestroyLab after the first `from` ones. */
  ghost predicate IsTracked(s: State, lab: Lab, from: nat)
    requires from <= |s.toDestroy|
  {
    lab in s.toDestroy[from..] || exists p | p in s.destruction.items :: p.value == lab
  }

  lemma DeployingTracks(s: State, now: int, lab: Lab, from: nat)
    requires ValidState(s) && from <= |s.toDestroy|
    ensures var s' := AfterDeploying(s, now);
            && s'.toDestroy == s.toDestroy
            && (IsTracked(s, lab, from) ==> IsTracked(s', lab, from))
            && (CanPop(DEPLOYMENT, s.deployment, now) && s.deployment.items[0].value == lab && lab.endTime.Some? ==>
                  IsTracked(s', lab, from))
  {
    if CanPop(DEPLOYMENT, s.deployment, now) && s.deployment.items[0].value.endTime.Some? {
      var p := Ptr(s.nextAddr, s.deployment.items[0].value);
      var n := CountBefore(DESTRUCTION, s.destruction.items, Time(DESTRUCTION, p));
      var s' := AfterDeploying(s, now);
      assert s'.destruction.items[n] == p;
      forall q | q in s.destruction.items ensures q in s'.destruction.items {
        assert s.destruction.items == s.destruction.items[..n] + s.destruction.items[n..];
      }
    }
  }

  lemma DestroyingTracks(s: State, now: int, lab: Lab, from: nat)
    requires ValidState(s) && from <= |s.toDestroy|
    ensures var s' := AfterDestroying(s, now);
            && from <= |s.toDestroy| <= |s'.toDestroy| && s'.toDeploy == s.toDeploy
            && (IsTracked(s, lab, from) ==> IsTracked(s', lab, from))
  {
    var s' := AfterDestroying(s, now);
    if CanPop(DESTRUCTION, s.destruction, now) {
      var head := s.destruction.items[0];
      assert s'.toDestroy[from..] == s.toDestroy[from..] + [head.value];
      assert s.destruction.items == [head] + s'.destruction.items;
    }
  }

  /** Over any ticks, a lab that waits for its destruction keeps waiting until it is handed to DestroyLab, and a
      lab that is deployed and has an end waits for its destruction from then on. */
  lemma {:induction false} DeployedLabsAreTracked(s: State, clock: seq<int>, lab: Lab)
    requires ValidState(s)
    ensures var s' := AfterTicks(s, clock);
            && |s.toDestroy| <= |s'.toDestroy| && |s.toDeploy| <= |s'.toDeploy|
            && (IsTracked(s, lab, |s.toDestroy|) || (lab in s'.toDeploy[|s.toDeploy|..] && lab.endTime.Some?)
                ==> IsTracked(s', lab, |s.toDestroy|))
  {
    hide IsTracked, ValidState, AfterDestroying;
    if clock != [] {
      var (before, now, from) := (clock[..|clock| - 1], clock[|clock| - 1], |s.toDestroy|);
      DeployedLabsAreTracked(s, before, lab);
      var s1 := AfterTicks(s, before);
      var s2 := AfterDeploying(s1, now);
      DeployingKeepsValid(s1, now);
      DeployingTracks(s1, now, lab, from);
      DestroyingTracks(s2, now, lab, from);
      if CanPop(DEPLOYMENT, s1.deployment, now) {
        assert s2.toDeploy[|s.toDeploy|..] == s1.toDeploy[|s.toDeploy|..] + [s1.deployment.items[0].value];
      }
    }
  }

  lemma NothingDueIsLeft(g: Getters<Lab>, q: Queue<Lab>, now: int, p: Ptr<Lab>)
    requires Valid(g, q) && !CanPop(g, q, now) && p in q.items
    ensures HasTime(g, p) && !IsDue(g, p, now)
  {
    var i := IndexOf(q.items, p);
    assert i > 0 ==> Time(g, q.items[0]) <= Time(g, q.items[i]);
  }

  /** After as many ticks at one time as there are due items, every lab that waited for its destruction or was
      deployed meanwhile, and whose end has come, has been handed to DestroyLab. */
  lemma EndedLabsAreDestroyed(s: State, clock: seq<int>, now: int, lab: Lab)
    requires ValidState(s) && (forall k | 0 <= k < |clock| :: clock[k] == now) && |clock| >= Backlog(s, now)
    requires lab.endTime.Some? && lab.endTime.value <= now
    ensures var s' := AfterTicks(s, clock);
            && |s.toDestroy| <= |s'.toDestroy| && |s.toDeploy| <= |s'.toDeploy|
            && ((exists p | p in s.destruction.items :: p.value == lab) || lab in s'.toDeploy[|s.toDeploy|..]
                ==> lab in s'.toDestroy[|s.toDestroy|..])
  {
    DeployedLabsAreTracked(s, clock, lab);
    TheBacklogIsWorkedOff(s, clock, now);
    var s' := AfterTicks(s, clock);
    forall p | p in s'.destruction.items ensures p.value != lab {
      NothingDueIsLeft(DESTRUCTION, s'.destruction, now, p);
    }
  }
}
