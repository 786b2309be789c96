/** What holds over whole runs of queue operations: nothing is lost or made up, and popping follows
    a priority list ordered by time, with the latest insertion first among equal times. */
module ScheduleRuns {
  import opened Wrappers
  import opened Schedules

  datatype Op<T> = Schedule(item: Ptr<T>) | Reschedule(item: Ptr<T>) | Remove(key: string) | TryPopAt(now: int)

  ghost function Apply<T>(g: Getters<T>, q: Queue<T>, op: Op<T>): Queue<T>
    requires Valid(g, q)
  {
    match op
    case Schedule(p) => Scheduled(g, q, p)
    case Reschedule(p) => Rescheduled(g, q, p)
    case Remove(key) => Delete(q, key)
    case TryPopAt(now) => Popped(g, q, now)
  }

  lemma ApplyKeepsValid<T>(g: Getters<T>, q: Queue<T>, op: Op<T>)
    requires Valid(g, q)
    ensures Valid(g, Apply(g, q, op))
  {
    match op
    case Schedule(p) => if HasTime(g, p) { InsertKeepsValid(g, q, p); }
    case Reschedule(p) =>
      DeleteKeepsValid(g, q, Key(g, p));
      if HasTime(g, p) {
        InsertKeepsValid(g, Delete(q, Key(g, p)), p);
      }
    case Remove(key) => DeleteKeepsValid(g, q, key);
    case TryPopAt(now) =>
  }

  ghost function Run<T>(g: Getters<T>, ops: seq<Op<T>>): (q: Queue<T>)
    ensures Valid(g, q)
  {
    if ops == [] then Queue([], map[])
    else
      var q := Run(g, ops[..|ops| - 1]);
      ApplyKeepsValid(g, q, ops[|ops| - 1]);
      Apply(g, q, ops[|ops| - 1])
  }

  /** Over any run, duplicates included: the slice is sorted by second, nothing in it lacks a time,
      and every mapped item is in the slice under its key, so Remove always finds what it looks for. */
  lemma EveryRunIsValid<T>(g: Getters<T>, ops: seq<Op<T>>, key: string)
    ensures var q := Run(g, ops);
            && (forall i | 0 <= i < |q.items| :: HasTime(g, q.items[i]))
            && (forall i, j | 0 <= i < j < |q.items| :: Time(g, q.items[i]) <= Time(g, q.items[j]))
            && (key in q.index ==> Key(g, q.index[key]) == key && IndexOf(q.items, q.index[key]) < |q.items|)
  {
  }

  // ---------------------------------------------------------------------------------------------
  // Conservation
  // ---------------------------------------------------------------------------------------------

  /** The items an operation puts in, takes out by popping, and takes out by key. */
  ghost function Inserts<T>(g: Getters<T>, op: Op<T>): multiset<Ptr<T>> {
    if (op.Schedule? || op.Reschedule?) && HasTime(g, op.item) then multiset{op.item} else multiset{}
  }

  ghost function Pops<T>(g: Getters<T>, q: Queue<T>, op: Op<T>): multiset<Ptr<T>>
    requires Valid(g, q)
  {
    if op.TryPopAt? && CanPop(g, q, op.now) then multiset{q.items[0]} else multiset{}
  }

  ghost function Removes<T>(g: Getters<T>, q: Queue<T>, op: Op<T>): multiset<Ptr<T>> {
    if op.Remove? && op.key in q.index then multiset{q.index[op.key]}
    else if op.Reschedule? && Key(g, op.item) in q.index then multiset{q.index[Key(g, op.item)]}
    else multiset{}
  }

  ghost function TotalInserted<T>(g: Getters<T>, ops: seq<Op<T>>): multiset<Ptr<T>> {
    if ops == [] then multiset{}
    else TotalInserted(g, ops[..|ops| - 1]) + Inserts(g, ops[|ops| - 1])
  }

  ghost function TotalPopped<T>(g: Getters<T>, ops: seq<Op<T>>): multiset<Ptr<T>> {
    if ops == [] then multiset{}
    else TotalPopped(g, ops[..|ops| - 1]) + Pops(g, Run(g, ops[..|ops| - 1]), ops[|ops| - 1])
  }

  ghost function TotalRemoved<T>(g: Getters<T>, ops: seq<Op<T>>): multiset<Ptr<T>> {
    if ops == [] then multiset{}
    else TotalRemoved(g, ops[..|ops| - 1]) + Removes(g, Run(g, ops[..|ops| - 1]), ops[|ops| - 1])
  }

  lemma PutInAdds<X>(items: seq<X>, n: nat, p: X)
    requires n <= |items|
    ensures multiset(PutIn(items, n, p)) == multiset(items) + multiset{p}
  {
    assert items == items[..n] + items[n..];
  }

  lemma TakeOutSubtracts<X>(items: seq<X>, n: nat)
    requires n < |items|
    ensures multiset(TakeOut(items, n)) + multiset{items[n]} == multiset(items)
  {
    assert items == items[..n] + [items[n]] + items[n + 1..];
  }

  lemma InsertAdds<T>(g: Getters<T>, q: Queue<T>, p: Ptr<T>)
    requires AllTimed(g, q.items) && HasTime(g, p)
    ensures multiset(Insert(g, q, p).items) == multiset(q.items) + multiset{p}
  {
    hide PutIn, CountBefore, HasTime, Time;
    PutInAdds(q.items, CountBefore(g, q.items, Time(g, p)), p);
  }

  lemma DeleteSubtracts<T>(q: Queue<T>, key: string)
    requires key in q.index && q.index[key] in q.items
    ensures multiset(Delete(q, key).items) + multiset{q.index[key]} == multiset(q.items)
  {
    hide TakeOut;
    TakeOutSubtracts(q.items, IndexOf(q.items, q.index[key]));
  }

  lemma PopSubtracts<T>(g: Getters<T>, q: Queue<T>, now: int)
    requires Valid(g, q) && CanPop(g, q, now)
    ensures multiset(Popped(g, q, now).items) + multiset{q.items[0]} == multiset(q.items)
  {
    assert q.items == [q.items[0]] + q.items[1..];
  }

  lemma ScheduleConserves<T>(g: Getters<T>, q: Queue<T>, p: Ptr<T>)
    requires Valid(g, q)
    ensures multiset(Scheduled(g, q, p).items) == multiset(q.items) + Inserts(g, Schedule(p))
  {
    if HasTime(g, p) {
      InsertAdds(g, q, p);
    }
  }

  lemma RemoveConserves<T>(g: Getters<T>, q: Queue<T>, key: string)
    requires Valid(g, q)
    ensures multiset(Delete(q, key).items) + Removes(g, q, Remove(key)) == multiset(q.items)
  {
    if key in q.index {
      DeleteSubtracts(q, key);
    }
  }

  lemma RescheduleConserves<T>(g: Getters<T>, q: Queue<T>, p: Ptr<T>)
    requires Valid(g, q)
    ensures multiset(Rescheduled(g, q, p).items) + Removes(g, q, Reschedule(p)) ==
              multiset(q.items) + Inserts(g, Reschedule(p))
  {
    hide AllTimed, Sorted, Scheduled, Delete;
    DeleteKeepsValid(g, q, Key(g, p));
    var q' := Delete(q, Key(g, p));
    RemoveConserves(g, q, Key(g, p));
    ScheduleConserves(g, q', p);
    assert Inserts(g, Schedule(p)) == Inserts(g, Reschedule(p));
    assert Removes(g, q, Remove(Key(g, p))) == Removes(g, q, Reschedule(p));
  }

  lemma PopConserves<T>(g: Getters<T>, q: Queue<T>, now: int)
    requires Valid(g, q)
    ensures multiset(Popped(g, q, now).items) + Pops(g, q, TryPopAt(now)) == multiset(q.items)
  {
    if CanPop(g, q, now) {
      PopSubtracts(g, q, now);
    }
  }

  lemma NoneOf<T>(g: Getters<T>, q: Queue<T>, op: Op<T>)
    requires Valid(g, q)
    ensures !op.TryPopAt? ==> Pops(g, q, op) == multiset{}
    ensures op.Schedule? || op.TryPopAt? ==> Removes(g, q, op) == multiset{}
    ensures op.Remove? || op.TryPopAt? ==> Inserts(g, op) == multiset{}
  {
  }

  lemma ApplyConserves<T>(g: Getters<T>, q: Queue<T>, op: Op<T>)
    requires Valid(g, q)
    ensures multiset(Apply(g, q, op).items) + Pops(g, q, op) + Removes(g, q, op) == multiset(q.items) + Inserts(g, op)
  {
    hide Valid, Scheduled, Rescheduled, Delete, Popped, Pops, Removes, Inserts;
    NoneOf(g, q, op);
    match op
    case Schedule(p) => ScheduleConserves(g, q, p);
    case Reschedule(p) => RescheduleConserves(g, q, p);
    case Remove(key) => RemoveConserves(g, q, key);
    case TryPopAt(now) => PopConserves(g, q, now);
  }

  lemma Rebalance<X>(inserted: multiset<X>, popped: multiset<X>, removed: multiset<X>, queued: multiset<X>,
                     inserts: multiset<X>, pops: multiset<X>, removes: multiset<X>, queued': multiset<X>)
    requires inserted == popped + removed + queued
    requires queued' + pops + removes == queued + inserts
    ensures inserted + inserts == (popped + pops) + (removed + removes) + queued'
  {
    forall x | x in inserted + inserts + popped + pops + removed + removes + queued'
      ensures (inserted + inserts)[x] == ((popped + pops) + (removed + removes) + queued')[x]
    {
      assert inserted[x] == (popped + removed + queued)[x];
      assert (queued' + pops + removes)[x] == (queued + inserts)[x];
    }
  }

  /** Everything ever inserted was popped, was removed, or is still queued, as often as it was inserted. */
  lemma {:induction false} NothingIsLostOrMadeUp<T>(g: Getters<T>, ops: seq<Op<T>>)
    ensures TotalInserted(g, ops) == TotalPopped(g, ops) + TotalRemoved(g, ops) + multiset(Run(g, ops).items)
  {
    if ops != [] {
      var before, op := ops[..|ops| - 1], ops[|ops| - 1];
      var q := Run(g, before);
      NothingIsLostOrMadeUp(g, before);
      ApplyConserves(g, q, op);
      Rebalance(TotalInserted(g, before), TotalPopped(g, before), TotalRemoved(g, before), multiset(q.items),
                Inserts(g, op), Pops(g, q, op), Removes(g, q, op), multiset(Run(g, ops).items));
    }
  }

  // ---------------------------------------------------------------------------------------------
  // Refinement of a priority list
  // ---------------------------------------------------------------------------------------------

  /** A queue whose items carry the number of their insertion. */
  datatype Stamped<T> = Stamped(queue: Queue<T>, stamps: seq<nat>, next: nat)

  /** An item of the priority list, with the number of its insertion. */
  datatype Entry<T> = Entry(item: Ptr<T>, stamp: nat)

  /** Earlier times come first, and later insertions among equal times. */
  predicate Precedes<T>(g: Getters<T>, e: Entry<T>, f: Entry<T>)
    requires HasTime(g, e.item) && HasTime(g, f.item)
  {
    Time(g, e.item) < Time(g, f.item) || (Time(g, e.item) == Time(g, f.item) && e.stamp > f.stamp)
  }

  ghost function Entries<T>(s: Stamped<T>): seq<Entry<T>>
    requires |s.stamps| == |s.queue.items|
  {
    seq(|s.stamps|, i requires 0 <= i < |s.stamps| => Entry(s.queue.items[i], s.stamps[i]))
  }

  ghost predicate InOrder<T>(g: Getters<T>, list: seq<Entry<T>>) {
    && (forall i | 0 <= i < |list| :: HasTime(g, list[i].item))
    && (forall i, j | 0 <= i < j < |list| :: Precedes(g, list[i], list[j]))
  }

  /** The slice is the priority list written down in order. */
  ghost predicate StampedOk<T>(g: Getters<T>, s: Stamped<T>) {
    && Valid(g, s.queue)
    && |s.stamps| == |s.queue.items|
    && (forall i | 0 <= i < |s.stamps| :: s.stamps[i] < s.next)
    && InOrder(g, Entries(s))
  }

  ghost function StampedInsert<T>(g: Getters<T>, s: Stamped<T>, p: Ptr<T>): Stamped<T>
    requires Valid(g, s.queue) && |s.stamps| == |s.queue.items|
  {
    if !HasTime(g, p) then s
    else
      var n := CountBefore(g, s.queue.items, Time(g, p));
      Stamped(Insert(g, s.queue, p), PutIn(s.stamps, n, s.next), s.next + 1)
  }

  ghost function StampedDelete<T>(s: Stamped<T>, key: string): Stamped<T>
    requires |s.stamps| == |s.queue.items| && (key in s.queue.index ==> s.queue.index[key] in s.queue.items)
  {
    if key !in s.queue.index then s
    else
      var n := IndexOf(s.queue.items, s.queue.index[key]);
      Stamped(Delete(s.queue, key), TakeOut(s.stamps, n), s.next)
  }

  ghost function StampedPop<T>(g: Getters<T>, s: Stamped<T>, now: int): Stamped<T>
    requires Valid(g, s.queue) && |s.stamps| == |s.queue.items|
  {
    if CanPop(g, s.queue, now) then Stamped(Popped(g, s.queue, now), s.stamps[1..], s.next) else s
  }

  lemma PutInStaysInOrder<T>(g: Getters<T>, list: seq<Entry<T>>, n: nat, e: Entry<T>)
    requires InOrder(g, list) && n <= |list| && HasTime(g, e.item)
    requires forall i | 0 <= i < n :: Precedes(g, list[i], e)
    requires forall i | n <= i < |list| :: Precedes(g, e, list[i])
    ensures InOrder(g, PutIn(list, n, e))
  {
    hide PutIn, Precedes, HasTime;
  }

  lemma TakeOutStaysInOrder<T>(g: Getters<T>, list: seq<Entry<T>>, n: nat)
    requires InOrder(g, list) && n < |list|
    ensures InOrder(g, TakeOut(list, n))
  {
    hide TakeOut, Precedes, HasTime;
  }

  lemma InsertAddsEntry<T>(g: Getters<T>, s: Stamped<T>, p: Ptr<T>)
    requires StampedOk(g, s) && HasTime(g, p)
    ensures StampedOk(g, StampedInsert(g, s, p))
    ensures multiset(Entries(StampedInsert(g, s, p))) == multiset(Entries(s)) + multiset{Entry(p, s.next)}
  {
    hide InOrder, PutIn, CountBefore, HasTime, Time, Precedes;
    InsertKeepsValid(g, s.queue, p);
    var n := CountBefore(g, s.queue.items, Time(g, p));
    var (list, e) := (Entries(s), Entry(p, s.next));
    NewEntryFits(g, s, p, n);
    PutInStaysInOrder(g, list, n, e);
    PutInAdds(list, n, e);
    assert Entries(StampedInsert(g, s, p)) == PutIn(list, n, e);
  }

  /** The newest entry comes after all earlier times and before the older entries of its own. */
  lemma NewEntryFits<T>(g: Getters<T>, s: Stamped<T>, p: Ptr<T>, n: nat)
    requires StampedOk(g, s) && HasTime(g, p) && n == CountBefore(g, s.queue.items, Time(g, p))
    ensures forall i | 0 <= i < n :: Precedes(g, Entries(s)[i], Entry(p, s.next))
    ensures forall i | n <= i < |Entries(s)| :: Precedes(g, Entry(p, s.next), Entries(s)[i])
  {
    forall i | n <= i < |Entries(s)| ensures Precedes(g, Entry(p, s.next), Entries(s)[i]) {
      assert i > n ==> Precedes(g, Entries(s)[n], Entries(s)[i]);
    }
  }

  lemma EntriesWithout<T>(before: Stamped<T>, after: Stamped<T>, n: nat)
    requires |before.stamps| == |before.queue.items| && n < |before.stamps|
    requires after.queue.items == TakeOut(before.queue.items, n)
    requires after.stamps == TakeOut(before.stamps, n)
    ensures Entries(after) == TakeOut(Entries(before), n)
  {
  }

  /** Taking one entry out of a priority list. */
  lemma CutKeepsStamped<T>(g: Getters<T>, before: Stamped<T>, after: Stamped<T>, n: nat)
    requires StampedOk(g, before) && Valid(g, after.queue) && n < |before.stamps|
    requires after.queue.items == TakeOut(before.queue.items, n)
    requires after.stamps == TakeOut(before.stamps, n) && after.next == before.next
    ensures StampedOk(g, after)
    ensures multiset(Entries(after)) + multiset{Entries(before)[n]} == multiset(Entries(before))
  {
    EntriesWithout(before, after, n);
    TakeOutStaysInOrder(g, Entries(before), n);
    TakeOutSubtracts(Entries(before), n);
  }

  lemma DeleteKeepsStamped<T>(g: Getters<T>, s: Stamped<T>, key: string)
    requires StampedOk(g, s) && key in s.queue.index
    ensures StampedOk(g, StampedDelete(s, key))
    ensures var n := IndexOf(s.queue.items, s.queue.index[key]);
            && n < |Entries(s)|
            && multiset(Entries(StampedDelete(s, key))) + multiset{Entries(s)[n]} == multiset(Entries(s))
  {
    DeleteKeepsValid(g, s.queue, key);
    CutKeepsStamped(g, s, StampedDelete(s, key), IndexOf(s.queue.items, s.queue.index[key]));
  }

  lemma PopKeepsStamped<T>(g: Getters<T>, s: Stamped<T>, now: int)
    requires StampedOk(g, s) && CanPop(g, s.queue, now)
    ensures StampedOk(g, StampedPop(g, s, now))
    ensures multiset(Entries(StampedPop(g, s, now))) + multiset{Entries(s)[0]} == multiset(Entries(s))
  {
    PopKeepsValid(g, s.queue, now);
    CutKeepsStamped(g, s, StampedPop(g, s, now), 0);
  }

  ghost function StampedApply<T>(g: Getters<T>, s: Stamped<T>, op: Op<T>): Stamped<T>
    requires StampedOk(g, s)
  {
    match op
    case Schedule(p) => StampedInsert(g, s, p)
    case Reschedule(p) =>
      DeleteKeepsValid(g, s.queue, Key(g, p));
      StampedInsert(g, StampedDelete(s, Key(g, p)), p)
    case Remove(key) => StampedDelete(s, key)
    case TryPopAt(now) => StampedPop(g, s, now)
  }

  lemma ApplyKeepsStamped<T>(g: Getters<T>, s: Stamped<T>, op: Op<T>)
    requires StampedOk(g, s)
    ensures StampedOk(g, StampedApply(g, s, op))
    ensures StampedApply(g, s, op).queue == Apply(g, s.queue, op)
  {
    match op
    case Schedule(p) => if HasTime(g, p) { InsertAddsEntry(g, s, p); }
    case Reschedule(p) =>
      if Key(g, p) in s.queue.index {
        DeleteKeepsStamped(g, s, Key(g, p));
      }
      if HasTime(g, p) {
        InsertAddsEntry(g, StampedDelete(s, Key(g, p)), p);
      }
    case Remove(key) => if key in s.queue.index { DeleteKeepsStamped(g, s, key); }
    case TryPopAt(now) => if CanPop(g, s.queue, now) { PopKeepsStamped(g, s, now); }
  }

  /** The run, with every insertion numbered. */
  ghost function StampedRun<T>(g: Getters<T>, ops: seq<Op<T>>): (s: Stamped<T>)
    ensures StampedOk(g, s)
    ensures s.queue == Run(g, ops)
  {
    if ops == [] then Stamped(Queue([], map[]), [], 0)
    else
      var s := StampedRun(g, ops[..|ops| - 1]);
      ApplyKeepsStamped(g, s, ops[|ops| - 1]);
      StampedApply(g, s, ops[|ops| - 1])
  }

  /** The entry a priority list pops: it precedes every other one. */
  ghost predicate Leads<T>(g: Getters<T>, list: multiset<Entry<T>>, e: Entry<T>) {
    && e in list && list[e] == 1 && HasTime(g, e.item)
    && forall f | f in list && f != e :: HasTime(g, f.item) && Precedes(g, e, f)
  }

  lemma FirstEntryLeads<T>(g: Getters<T>, s: Stamped<T>)
    requires StampedOk(g, s) && |s.stamps| > 0
    ensures Leads(g, multiset(Entries(s)), Entries(s)[0])
  {
    var entries := Entries(s);
    assert entries == [entries[0]] + entries[1..];
    forall f | f in entries[1..] ensures HasTime(g, f.item) && Precedes(g, entries[0], f) {
      var i :| 0 <= i < |entries[1..]| && entries[1..][i] == f;
      assert entries[i + 1] == f;
    }
    assert entries[0] !in entries[1..];
  }

  lemma NothingDueIsHidden<T>(g: Getters<T>, s: Stamped<T>, now: int, e: Entry<T>)
    requires StampedOk(g, s) && e in multiset(Entries(s)) && HasTime(g, e.item) && IsDue(g, e.item, now)
    ensures CanPop(g, s.queue, now)
  {
    var i :| 0 <= i < |Entries(s)| && Entries(s)[i] == e;
    assert i > 0 ==> Time(g, s.queue.items[0]) <= Time(g, s.queue.items[i]);
  }

  /** After any run, TryPopAt takes the leading entry of the priority list of everything queued if it
      is due, that is the most recently inserted one of the earliest second, and nothing else; and it
      returns nothing exactly when nothing queued is due. */
  lemma PopTakesTheLeadingEntry<T>(g: Getters<T>, ops: seq<Op<T>>, now: int)
    ensures var s := StampedRun(g, ops);
            var list := multiset(Entries(s));
            && s.queue == Run(g, ops)
            && (CanPop(g, s.queue, now) <==> exists e :: e in list && HasTime(g, e.item) && IsDue(g, e.item, now))
            && (CanPop(g, s.queue, now) ==>
                  && Leads(g, list, Entries(s)[0])
                  && Entries(s)[0].item == s.queue.items[0]
                  && multiset(Entries(StampedPop(g, s, now))) + multiset{Entries(s)[0]} == list)
  {
    var s := StampedRun(g, ops);
    if CanPop(g, s.queue, now) {
      FirstEntryLeads(g, s);
      PopKeepsStamped(g, s, now);
      assert Entries(s)[0] in multiset(Entries(s));
    }
    forall e | e in multiset(Entries(s)) && HasTime(g, e.item) && IsDue(g, e.item, now)
      ensures CanPop(g, s.queue, now)
    {
      NothingDueIsHidden(g, s, now, e);
    }
  }

  // ---------------------------------------------------------------------------------------------
  // Draining
  // ---------------------------------------------------------------------------------------------

  /** What popping returns until it returns nothing, at one point in time. */
  ghost function Drain<T>(g: Getters<T>, q: Queue<T>, now: int): seq<Ptr<T>>
    requires Valid(g, q)
    decreases |q.items|
  {
    if CanPop(g, q, now) then [q.items[0]] + Drain(g, Popped(g, q, now), now) else []
  }

  ghost function Due<T>(g: Getters<T>, items: seq<Ptr<T>>, now: int): seq<Ptr<T>>
    requires AllTimed(g, items)
  {
    if items == [] then []
    else if IsDue(g, items[0], now) then [items[0]] + Due(g, items[1..], now)
    else Due(g, items[1..], now)
  }

  lemma {:induction false} NothingIsDueAfterTheFirstLate<T>(g: Getters<T>, items: seq<Ptr<T>>, now: int)
    requires AllTimed(g, items) && Sorted(g, items) && (items != [] ==> !IsDue(g, items[0], now))
    ensures Due(g, items, now) == []
  {
    if items != [] {
      if |items| > 1 {
        assert Time(g, items[0]) <= Time(g, items[1]);
      }
      NothingIsDueAfterTheFirstLate(g, items[1..], now);
    }
  }

  /** Popping until nothing comes back yields exactly the due items, in the order of the slice and so
      in nondecreasing order of time. */
  lemma {:induction false} DrainYieldsTheDueItems<T>(g: Getters<T>, q: Queue<T>, now: int)
    requires Valid(g, q)
    ensures Drain(g, q, now) == Due(g, q.items, now)
    ensures forall i | 0 <= i < |Drain(g, q, now)| :: Drain(g, q, now)[i] in q.items && HasTime(g, Drain(g, q, now)[i])
    ensures forall i, j | 0 <= i < j < |Drain(g, q, now)| ::
              Time(g, Drain(g, q, now)[i]) <= Time(g, Drain(g, q, now)[j])
    decreases |q.items|
  {
    if CanPop(g, q, now) {
      DrainYieldsTheDueItems(g, Popped(g, q, now), now);
      var rest := Drain(g, Popped(g, q, now), now);
      forall j | 0 <= j < |rest| ensures Time(g, q.items[0]) <= Time(g, rest[j]) {
        assert rest[j] in q.items[1..];
      }
    } else {
      NothingIsDueAfterTheFirstLate(g, q.items, now);
    }
  }
}
