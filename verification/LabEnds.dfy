/** When the scheduler destroys labs. The destruction queue can hold several entries of a lab, of which the map
    knows one, so a lab may be destroyed at an end that it was not scheduled with last. */
module LabEnds {
  import opened Wrappers
  import opened Schedules
  import opened LabScheduler

  /** What reaches the destruction queue, in the order its lock is taken: an event, or half a tick. */
  datatype Step = Happens(event: Event) | DeployDue(now: int) | DestroyDue(now: int)

  lemma EventKeepsValid(s: State, event: Event)
    requires ValidState(s)
    ensures ValidState(AfterEvent(s, event))
  {
    hide AllTimed, Sorted, Scheduled, Delete, HandleDeployment;
    StepKeepsValid(s.deployment, Handle(event, s.nextAddr));
    match event
    case Created(lab) => ScheduledKeepsValid(s.destruction, Ptr(s.nextAddr + 1, lab));
    case Moved(lab) =>
      DeleteKeepsValid(DESTRUCTION, s.destruction, lab.uuid);
      ScheduledKeepsValid(Delete(s.destruction, lab.uuid), Ptr(s.nextAddr + 1, lab));
    case Deleted(lab) => DeleteKeepsValid(DESTRUCTION, s.destruction, lab.uuid);
    case ManuallyDeployed(lab) => ScheduledKeepsValid(s.destruction, Ptr(s.nextAddr, lab));
    case Restored(lab) => ScheduledKeepsValid(s.destruction, Ptr(s.nextAddr, lab));
  }

  function Apply(s: State, step: Step): (s': State)
    requires ValidState(s)
    ensures ValidState(s')
  {
    match step
    case Happens(event) =>
      EventKeepsValid(s, event);
      AfterEvent(s, event)
    case DeployDue(now) =>
      DeployingKeepsValid(s, now);
      AfterDeploying(s, now)
    case DestroyDue(now) =>
      DestroyingKeepsValid(s, now);
      AfterDestroying(s, now)
  }

  const START := State(Queue([], map[]), Queue([], map[]), 0, [], [])

  function After(steps: seq<Step>): (s: State)
    ensures ValidState(s)
  {
    if steps == [] then START else Apply(After(steps[..|steps| - 1]), steps[|steps| - 1])
  }

  // ---------------------------------------------------------------------------------------------
  // What labs were last scheduled with
  // ---------------------------------------------------------------------------------------------

  /** Which lab's destruction the step schedules or calls off. */
  datatype Change = NoChange | Change(uuid: string, lab: Option<Lab>)

  function ChangeOf(s: State, step: Step): Change
    requires ValidState(s)
  {
    match step
    case Happens(Deleted(lab)) => Change(lab.uuid, None)
    case Happens(event) => Change(event.lab.uuid, Some(event.lab))
    case DeployDue(now) =>
      if CanPop(DEPLOYMENT, s.deployment, now)
      then Change(s.deployment.items[0].value.uuid, Some(s.deployment.items[0].value))
      else NoChange
    case DestroyDue(_) => NoChange
  }

  function Changed(latest: map<string, Lab>, change: Change): map<string, Lab> {
    match change
    case NoChange => latest
    case Change(uuid, None) => latest - {uuid}
    case Change(uuid, Some(lab)) => latest[uuid := lab]
  }

  /** The labs as their destruction was last scheduled, without those it was called off for. */
  function Latest(steps: seq<Step>): map<string, Lab> {
    if steps == [] then map[]
    else
      var before := steps[..|steps| - 1];
      Changed(Latest(before), ChangeOf(After(before), steps[|steps| - 1]))
  }

  /** Whatever is queued is queued as it was last scheduled. */
  ghost predicate IsLatest(latest: map<string, Lab>, items: seq<Ptr<Lab>>) {
    forall i | 0 <= i < |items| :: items[i].value.uuid in latest && latest[items[i].value.uuid] == items[i].value
  }

  /** The step takes entry i out of the destruction queue: the one the map holds for a lab that is moved or deleted. */
  predicate TakesOut(s: State, step: Step, i: nat)
    requires ValidState(s)
  {
    && step.Happens? && (step.event.Moved? || step.event.Deleted?)
    && step.event.lab.uuid in s.destruction.index
    && i == IndexOf(s.destruction.items, s.destruction.index[step.event.lab.uuid])
  }

  /** The step schedules or calls off the destruction of a lab, and another entry of the lab, with other times,
      stays queued. */
  ghost predicate LeavesStale(s: State, step: Step)
    requires ValidState(s)
  {
    var change := ChangeOf(s, step);
    change.Change? &&
    exists i | 0 <= i < |s.destruction.items| ::
      && s.destruction.items[i].value.uuid == change.uuid && !TakesOut(s, step, i)
      && change.lab != Some(s.destruction.items[i].value)
  }

  // ---------------------------------------------------------------------------------------------
  // One step
  // ---------------------------------------------------------------------------------------------

  ghost predicate Agree(items: seq<Ptr<Lab>>, change: Change) {
    change.Change? ==>
      forall i | 0 <= i < |items| && items[i].value.uuid == change.uuid :: change.lab == Some(items[i].value)
  }

  lemma ChangeKeepsLatest(latest: map<string, Lab>, items: seq<Ptr<Lab>>, change: Change)
    requires IsLatest(latest, items)
    ensures IsLatest(Changed(latest, change), items) <==> Agree(items, change)
  {
    if IsLatest(Changed(latest, change), items) {
      assert Agree(items, change);
    } else {
      var i :| 0 <= i < |items|
               && !(items[i].value.uuid in Changed(latest, change)
                    && Changed(latest, change)[items[i].value.uuid] == items[i].value);
      assert items[i].value.uuid in latest && latest[items[i].value.uuid] == items[i].value;
    }
  }

  lemma PutInAndLatest(latest: map<string, Lab>, items: seq<Ptr<Lab>>, n: nat, p: Ptr<Lab>)
    requires n <= |items| && p.value.uuid in latest && latest[p.value.uuid] == p.value
    ensures IsLatest(latest, PutIn(items, n, p)) <==> IsLatest(latest, items)
  {
    hide PutIn;
    var r := PutIn(items, n, p);
    if IsLatest(latest, r) {
      forall i | 0 <= i < |items|
        ensures items[i].value.uuid in latest && latest[items[i].value.uuid] == items[i].value
      {
        assert r[if i < n then i else i + 1] == items[i];
      }
    }
  }

  lemma ScheduledAndLatest(latest: map<string, Lab>, q: Queue<Lab>, p: Ptr<Lab>)
    requires Valid(DESTRUCTION, q) && p.value.uuid in latest && latest[p.value.uuid] == p.value
    ensures IsLatest(latest, Scheduled(DESTRUCTION, q, p).items) <==> IsLatest(latest, q.items)
  {
    hide PutIn, IsLatest;
    if HasTime(DESTRUCTION, p) {
      PutInAndLatest(latest, q.items, CountBefore(DESTRUCTION, q.items, Time(DESTRUCTION, p)), p);
    }
  }

  lemma PoppedAndLatest(latest: map<string, Lab>, q: Queue<Lab>, now: int)
    requires Valid(DESTRUCTION, q) && IsLatest(latest, q.items)
    ensures IsLatest(latest, Popped(DESTRUCTION, q, now).items)
  {
  }

  /** What a step leaves in the destruction queue of what was there. */
  function Kept(s: State, step: Step): seq<Ptr<Lab>>
    requires ValidState(s)
  {
    if step.Happens? && (step.event.Moved? || step.event.Deleted?) then Delete(s.destruction, step.event.lab.uuid).items
    else s.destruction.items
  }

  lemma KeptIsLatest(latest: map<string, Lab>, s: State, step: Step)
    requires ValidState(s) && IsLatest(latest, s.destruction.items)
    ensures IsLatest(latest, Kept(s, step))
    ensures Agree(Kept(s, step), ChangeOf(s, step)) <==> !LeavesStale(s, step)
  {
    hide Valid, TakeOut, ChangeOf;
    var items, kept, change := s.destruction.items, Kept(s, step), ChangeOf(s, step);
    if step.Happens? && (step.event.Moved? || step.event.Deleted?) && step.event.lab.uuid in s.destruction.index {
      KeyIsQueued(s, step.event.lab.uuid);
      var n := IndexOf(items, s.destruction.index[step.event.lab.uuid]);
      assert kept == TakeOut(items, n);
      forall i | 0 <= i < |items| && i != n ensures items[i] == kept[if i < n then i else i - 1] {
      }
    } else {
      assert kept == items;
    }
  }

  lemma KeyIsQueued(s: State, uuid: string)
    requires ValidState(s) && uuid in s.destruction.index
    ensures s.destruction.index[uuid] in s.destruction.items
  {
  }

  /** The exact condition under which a step leaves every entry as its lab was last scheduled. */
  lemma StepKeepsLatest(latest: map<string, Lab>, s: State, step: Step)
    requires ValidState(s) && IsLatest(latest, s.destruction.items)
    ensures IsLatest(Changed(latest, ChangeOf(s, step)), Apply(s, step).destruction.items) <==> !LeavesStale(s, step)
  {
    hide IsLatest, Agree, LeavesStale, AllTimed, Sorted, Scheduled, Delete, HandleDeployment, Popped;
    var change := ChangeOf(s, step);
    var latest' := Changed(latest, change);
    KeptIsLatest(latest, s, step);
    ChangeKeepsLatest(latest, Kept(s, step), change);
    match step
    case Happens(Created(lab)) => ScheduledAndLatest(latest', s.destruction, Ptr(s.nextAddr + 1, lab));
    case Happens(Moved(lab)) =>
      DeleteKeepsValid(DESTRUCTION, s.destruction, lab.uuid);
      ScheduledAndLatest(latest', Delete(s.destruction, lab.uuid), Ptr(s.nextAddr + 1, lab));
    case Happens(Deleted(_)) =>
    case Happens(ManuallyDeployed(lab)) => ScheduledAndLatest(latest', s.destruction, Ptr(s.nextAddr, lab));
    case Happens(Restored(lab)) => ScheduledAndLatest(latest', s.destruction, Ptr(s.nextAddr, lab));
    case DeployDue(now) =>
      if change.Change? {
        ScheduledAndLatest(latest', s.destruction, Ptr(s.nextAddr, s.deployment.items[0].value));
      }
    case DestroyDue(now) => PoppedAndLatest(latest, s.destruction, now);
  }

  // ---------------------------------------------------------------------------------------------
  // Whole runs
  // ---------------------------------------------------------------------------------------------

  lemma Prefixes(steps: seq<Step>, k: nat)
    requires k < |steps|
    ensures After(steps[..k + 1]) == Apply(After(steps[..k]), steps[k])
    ensures Latest(steps[..k + 1]) == Changed(Latest(steps[..k]), ChangeOf(After(steps[..k]), steps[k]))
  {
    assert steps[..k + 1][..k] == steps[..k];
  }

  lemma {:induction false} LatestUnlessStale(steps: seq<Step>, k: nat)
    requires k <= |steps| && forall j | 0 <= j < k :: !LeavesStale(After(steps[..j]), steps[j])
    ensures IsLatest(Latest(steps[..k]), After(steps[..k]).destruction.items)
  {
    hide LeavesStale, IsLatest, Apply, ChangeOf;
    if k == 0 {
      assert IsLatest(map[], []) by { NothingIsLatest(); }
    } else {
      LatestUnlessStale(steps, k - 1);
      Prefixes(steps, k - 1);
      StepKeepsLatest(Latest(steps[..k - 1]), After(steps[..k - 1]), steps[k - 1]);
    }
  }

  lemma NothingIsLatest()
    ensures IsLatest(map[], [])
  {
  }

  /** Over a whole run, every destruction is always queued as it was last scheduled, exactly if no step schedules or
      calls off the destruction of a lab while another entry of the lab, with other times, stays queued. */
  lemma EndsAreLatestExactlyIfNoneIsLeft(steps: seq<Step>)
    ensures (forall k | 0 <= k <= |steps| :: IsLatest(Latest(steps[..k]), After(steps[..k]).destruction.items))
            <==> (forall k | 0 <= k < |steps| :: !LeavesStale(After(steps[..k]), steps[k]))
  {
    hide LeavesStale, IsLatest, Apply, ChangeOf;
    if forall k | 0 <= k < |steps| :: !LeavesStale(After(steps[..k]), steps[k]) {
      forall k | 0 <= k <= |steps| ensures IsLatest(Latest(steps[..k]), After(steps[..k]).destruction.items) {
        LatestUnlessStale(steps, k);
      }
    }
    if forall k | 0 <= k <= |steps| :: IsLatest(Latest(steps[..k]), After(steps[..k]).destruction.items) {
      forall k | 0 <= k < |steps| ensures !LeavesStale(After(steps[..k]), steps[k]) {
        assert IsLatest(Latest(steps[..k + 1]), After(steps[..k + 1]).destruction.items);
        Prefixes(steps, k);
        StepKeepsLatest(Latest(steps[..k]), After(steps[..k]), steps[k]);
      }
    }
  }

  /** In such a run, a lab is only handed to DestroyLab as it was last scheduled, and once that end has come. */
  lemma LabsAreDestroyedAtTheirLatestEnd(steps: seq<Step>, k: nat)
    requires k < |steps| && steps[k].DestroyDue?
    requires forall j | 0 <= j < k :: !LeavesStale(After(steps[..j]), steps[j])
    ensures var s, s' := After(steps[..k]), After(steps[..k + 1]);
            || s'.toDestroy == s.toDestroy
            || (&& |s'.toDestroy| == |s.toDestroy| + 1
                && var lab := s'.toDestroy[|s.toDestroy|];
                   && lab.uuid in Latest(steps[..k]) && Latest(steps[..k])[lab.uuid] == lab
                   && lab.endTime.Some? && lab.endTime.value <= steps[k].now)
  {
    LatestUnlessStale(steps, k);
    Prefixes(steps, k);
  }

  lemma DeletingCallsOff(s: State, step: Step)
    requires ValidState(s) && step.Happens? && step.event.Deleted?
    ensures ChangeOf(s, step) == Change(step.event.lab.uuid, None)
  {
  }

  /** In such a run, a lab that is deleted is not handed to DestroyLab until it is scheduled again. */
  lemma {:induction false} DeletedLabsStayOut(steps: seq<Step>, d: nat, k: nat)
    requires d < k <= |steps| && steps[d].Happens? && steps[d].event.Deleted?
    requires forall j | 0 <= j < k :: !LeavesStale(After(steps[..j]), steps[j])
    requires forall j | d < j < k ::
               var change := ChangeOf(After(steps[..j]), steps[j]);
               change.NoChange? || change.uuid != steps[d].event.lab.uuid
    ensures steps[d].event.lab.uuid !in Latest(steps[..k])
    ensures forall i | 0 <= i < |After(steps[..k]).destruction.items| ::
              After(steps[..k]).destruction.items[i].value.uuid != steps[d].event.lab.uuid
  {
    hide LeavesStale, Apply, After, Latest, ChangeOf;
    Prefixes(steps, k - 1);
    if k > d + 1 {
      DeletedLabsStayOut(steps, d, k - 1);
    } else {
      DeletingCallsOff(After(steps[..d]), steps[d]);
    }
    LatestUnlessStale(steps, k);
  }

  // ---------------------------------------------------------------------------------------------
  // A run that destroys a lab too early
  // ---------------------------------------------------------------------------------------------

  /** A lab is created and deployed when it is due, destroyed by hand, given a later end, and deployed again. */
  function EndedTooEarly(first: Lab, later: Lab, start: int, end: int): seq<Step> {
    [Happens(Created(first)), DeployDue(start), Happens(Deleted(first)),
     Happens(Moved(later)), DeployDue(start), DestroyDue(end)]
  }

  /** A queue that maps the lab of p to p. */
  function QueueOf(items: seq<Ptr<Lab>>, p: Ptr<Lab>): Queue<Lab> {
    Queue(items, map[p.value.uuid := p])
  }

  const EMPTY: Queue<Lab> := Queue([], map[])

  /** Where an item goes in a queue of at most two. */
  lemma InsertIntoShort(g: Getters<Lab>, items: seq<Ptr<Lab>>, index: map<string, Ptr<Lab>>, p: Ptr<Lab>)
    requires AllTimed(g, items) && HasTime(g, p) && |items| <= 2
    ensures |items| == 0 ==> Insert(g, Queue(items, index), p) == Queue([p], index[Key(g, p) := p])
    ensures |items| > 0 && Time(g, items[0]) >= Time(g, p) ==>
              Insert(g, Queue(items, index), p) == Queue([p] + items, index[Key(g, p) := p])
    ensures |items| == 1 && Time(g, items[0]) < Time(g, p) ==>
              Insert(g, Queue(items, index), p) == Queue(items + [p], index[Key(g, p) := p])
    ensures |items| == 2 && Time(g, items[0]) < Time(g, p) <= Time(g, items[1]) ==>
              Insert(g, Queue(items, index), p) == Queue([items[0], p, items[1]], index[Key(g, p) := p])
  {
    hide HasTime, Time, Key;
    var n := CountBefore(g, items, Time(g, p));
    assert n <= 2;
    if n == 0 {
      assert PutIn(items, 0, p) == [p] + items;
    } else if n == |items| {
      PutInAtTheEnd(items, p);
    } else {
      assert PutIn(items, 1, p) == [items[0], p, items[1]];
    }
  }

  lemma FirstIsCreated(lab: Lab)
    requires lab.endTime.Some?
    ensures Apply(START, Happens(Created(lab))) ==
              State(QueueOf([Ptr(0, lab)], Ptr(0, lab)), QueueOf([Ptr(1, lab)], Ptr(1, lab)), 2, [], [])
  {
    hide Insert;
    InsertIntoShort(DEPLOYMENT, [], map[], Ptr(0, lab));
    InsertIntoShort(DESTRUCTION, [], map[], Ptr(1, lab));
  }

  lemma FirstIsDeployed(lab: Lab, now: int)
    requires lab.endTime.Some? && lab.startTime <= now
    ensures var s := State(QueueOf([Ptr(0, lab)], Ptr(0, lab)), QueueOf([Ptr(1, lab)], Ptr(1, lab)), 2, [], []);
            && ValidState(s)
            && Apply(s, DeployDue(now)) == State(EMPTY, QueueOf([Ptr(2, lab), Ptr(1, lab)], Ptr(2, lab)), 3, [lab], [])
  {
    hide Insert;
    InsertIntoShort(DESTRUCTION, [Ptr(1, lab)], map[lab.uuid := Ptr(1, lab)], Ptr(2, lab));
    assert [Ptr(2, lab)] + [Ptr(1, lab)] == [Ptr(2, lab), Ptr(1, lab)];
  }

  /** One entry stays behind, which the map does not know. */
  lemma FirstIsDeleted(lab: Lab)
    requires lab.endTime.Some?
    ensures var s := State(EMPTY, QueueOf([Ptr(2, lab), Ptr(1, lab)], Ptr(2, lab)), 3, [lab], []);
            && ValidState(s)
            && Apply(s, Happens(Deleted(lab))) == State(EMPTY, Queue([Ptr(1, lab)], map[]), 3, [lab], [])
  {
  }

  lemma LaterIsMoved(first: Lab, later: Lab)
    requires first.endTime.Some? && later.endTime.Some? && first.endTime.value < later.endTime.value
    ensures var s := State(EMPTY, Queue([Ptr(1, first)], map[]), 3, [first], []);
            && ValidState(s)
            && Apply(s, Happens(Moved(later))) ==
                 State(QueueOf([Ptr(3, later)], Ptr(3, later)), QueueOf([Ptr(1, first), Ptr(4, later)], Ptr(4, later)),
                       5, [first], [])
  {
    hide Insert;
    InsertIntoShort(DEPLOYMENT, [], map[], Ptr(3, later));
    InsertIntoShort(DESTRUCTION, [Ptr(1, first)], map[], Ptr(4, later));
    assert [Ptr(1, first)] + [Ptr(4, later)] == [Ptr(1, first), Ptr(4, later)];
  }

  lemma LaterIsDeployed(first: Lab, later: Lab, now: int)
    requires first.endTime.Some? && later.endTime.Some? && first.endTime.value < later.endTime.value
    requires later.startTime <= now
    ensures var s := State(QueueOf([Ptr(3, later)], Ptr(3, later)),
                           QueueOf([Ptr(1, first), Ptr(4, later)], Ptr(4, later)), 5, [first], []);
            && ValidState(s)
            && Apply(s, DeployDue(now)) ==
                 State(EMPTY, QueueOf([Ptr(1, first), Ptr(5, later), Ptr(4, later)], Ptr(5, later)),
                       6, [first, later], [])
  {
    hide Insert;
    InsertIntoShort(DESTRUCTION, [Ptr(1, first), Ptr(4, later)], map[later.uuid := Ptr(4, later)], Ptr(5, later));
  }

  lemma FirstIsDestroyed(first: Lab, later: Lab)
    requires first.endTime.Some? && later.endTime.Some? && first.endTime.value < later.endTime.value
    ensures var s := State(EMPTY, QueueOf([Ptr(1, first), Ptr(5, later), Ptr(4, later)], Ptr(5, later)),
                           6, [first, later], []);
            && ValidState(s)
            && Apply(s, DestroyDue(first.endTime.value)).toDestroy == [first]
            && Apply(s, DestroyDue(first.endTime.value)).toDeploy == [first, later]
  {
  }

  lemma RunOfSix(steps: seq<Step>)
    requires |steps| == 6
    ensures After(steps[..4]) == Apply(Apply(Apply(Apply(START, steps[0]), steps[1]), steps[2]), steps[3])
    ensures After(steps) == Apply(Apply(After(steps[..4]), steps[4]), steps[5])
    ensures steps[4].DeployDue? && steps[5].DestroyDue? ==>
              Latest(steps) == Changed(Latest(steps[..4]), ChangeOf(After(steps[..4]), steps[4]))
  {
    hide Apply;
    assert After(steps[..0]) == START;
    Prefixes(steps, 0);
    Prefixes(steps, 1);
    Prefixes(steps, 2);
    Prefixes(steps, 3);
    Prefixes(steps, 4);
    Prefixes(steps, 5);
    assert steps[..6] == steps;
  }

  /** The lab is destroyed at its first end, although it was last scheduled with a later one, and is running. */
  lemma ALabCanEndTooEarly(first: Lab, later: Lab, start: int)
    requires first.uuid == later.uuid && first.startTime <= start && later.startTime <= start
    requires first.endTime.Some? && later.endTime.Some? && first.endTime.value < later.endTime.value
    ensures var steps := EndedTooEarly(first, later, start, first.endTime.value);
            && After(steps).toDeploy == [first, later] && After(steps).toDestroy == [first]
            && later.uuid in Latest(steps) && Latest(steps)[later.uuid] == later
  {
    hide Apply, ValidState;
    var steps := EndedTooEarly(first, later, start, first.endTime.value);
    RunOfSix(steps);
    FirstIsCreated(first);
    FirstIsDeployed(first, start);
    FirstIsDeleted(first);
    LaterIsMoved(first, later);
    LaterIsDeployed(first, later, start);
    FirstIsDestroyed(first, later);
  }
}
