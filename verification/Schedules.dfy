/** The time-ordered queue the scheduler is built on: a slice sorted by Unix second next to a map
    from keys to items. */
module Schedules {
  import opened Wrappers

  /** A pointer to an item that does not change while it is queued. Two pointers to equal items
      are told apart by their address. */
  datatype Ptr<+T> = Ptr(addr: nat, value: T)

  /** How an item's key and time, in Unix seconds, are read. */
  datatype Getters<!T> = Getters(key: T -> string, time: T -> Option<int>)

  datatype Queue<T> = Queue(items: seq<Ptr<T>>, index: map<string, Ptr<T>>)

  function Key<T>(g: Getters<T>, p: Ptr<T>): string {
    g.key(p.value)
  }

  predicate HasTime<T>(g: Getters<T>, p: Ptr<T>) {
    g.time(p.value).Some?
  }

  function Time<T>(g: Getters<T>, p: Ptr<T>): int
    requires HasTime(g, p)
  {
    g.time(p.value).value
  }

  predicate IsDue<T>(g: Getters<T>, p: Ptr<T>, now: int)
    requires HasTime(g, p)
  {
    Time(g, p) <= now
  }

  // ---------------------------------------------------------------------------------------------
  // What holds between operations
  // ---------------------------------------------------------------------------------------------

  ghost predicate AllTimed<T>(g: Getters<T>, items: seq<Ptr<T>>) {
    forall i | 0 <= i < |items| :: HasTime(g, items[i])
  }

  ghost predicate Sorted<T>(g: Getters<T>, items: seq<Ptr<T>>)
    requires AllTimed(g, items)
  {
    forall i, j | 0 <= i < j < |items| :: Time(g, items[i]) <= Time(g, items[j])
  }

  /** The slice is sorted, nothing in it lacks a time, and what the map holds is in the slice under its key. */
  ghost predicate Valid<T>(g: Getters<T>, q: Queue<T>) {
    && AllTimed(g, q.items)
    && Sorted(g, q.items)
    && forall key | key in q.index :: q.index[key] in q.items && Key(g, q.index[key]) == key
  }

  // ---------------------------------------------------------------------------------------------
  // The operations on values
  // ---------------------------------------------------------------------------------------------

  /** The number of leading items before the given time. In a sorted slice this is where an item of that time goes. */
  function CountBefore<T>(g: Getters<T>, items: seq<Ptr<T>>, time: int): (n: nat)
    requires AllTimed(g, items)
    ensures n <= |items|
    ensures forall i | 0 <= i < n :: Time(g, items[i]) < time
    ensures n < |items| ==> Time(g, items[n]) >= time
  {
    if items == [] || Time(g, items[0]) >= time then 0 else 1 + CountBefore(g, items[1..], time)
  }

  /** The list with p put in at place n. */
  function PutIn<X>(items: seq<X>, n: nat, p: X): (r: seq<X>)
    requires n <= |items|
    ensures |r| == |items| + 1 && r[n] == p
    ensures forall i | 0 <= i < n :: r[i] == items[i]
    ensures forall i | n < i < |r| :: r[i] == items[i - 1]
  {
    items[..n] + [p] + items[n..]
  }

  /** Putting an item in by repeating the one at its place and then overwriting the first copy. */
  lemma PutInByOverwriting<X>(items: seq<X>, n: nat, p: X)
    requires n < |items|
    ensures (items[..n + 1] + items[n..])[n := p] == PutIn(items, n, p)
  {
  }

  lemma PutInAtTheEnd<X>(items: seq<X>, p: X)
    ensures PutIn(items, |items|, p) == items + [p]
  {
  }

  /** The list without the item at place n. */
  function TakeOut<X>(items: seq<X>, n: nat): (r: seq<X>)
    requires n < |items|
    ensures |r| == |items| - 1
    ensures forall i | 0 <= i < n :: r[i] == items[i]
    ensures forall i | n <= i < |r| :: r[i] == items[i + 1]
  {
    items[..n] + items[n + 1..]
  }

  function Insert<T>(g: Getters<T>, q: Queue<T>, p: Ptr<T>): Queue<T>
    requires AllTimed(g, q.items) && HasTime(g, p)
  {
    var n := CountBefore(g, q.items, Time(g, p));
    Queue(PutIn(q.items, n, p), q.index[Key(g, p) := p])
  }

  function IndexOf<T(==)>(items: seq<Ptr<T>>, p: Ptr<T>): (n: nat)
    ensures n <= |items|
    ensures n < |items| <==> p in items
    ensures n < |items| ==> items[n] == p
    ensures forall i | 0 <= i < n :: items[i] != p
  {
    if items == [] || items[0] == p then 0 else 1 + IndexOf(items[1..], p)
  }

  function Delete<T(==)>(q: Queue<T>, key: string): Queue<T>
    requires key in q.index ==> q.index[key] in q.items
  {
    if key !in q.index then q
    else
      var n := IndexOf(q.items, q.index[key]);
      Queue(TakeOut(q.items, n), q.index - {key})
  }

  function Scheduled<T>(g: Getters<T>, q: Queue<T>, p: Ptr<T>): Queue<T>
    requires AllTimed(g, q.items)
  {
    if HasTime(g, p) then Insert(g, q, p) else q
  }

  function Rescheduled<T(==)>(g: Getters<T>, q: Queue<T>, p: Ptr<T>): Queue<T>
    requires Valid(g, q)
  {
    DeleteKeepsValid(g, q, Key(g, p));
    Scheduled(g, Delete(q, Key(g, p)), p)
  }

  predicate CanPop<T>(g: Getters<T>, q: Queue<T>, now: int)
    requires AllTimed(g, q.items)
  {
    |q.items| > 0 && IsDue(g, q.items[0], now)
  }

  function Popped<T>(g: Getters<T>, q: Queue<T>, now: int): Queue<T>
    requires AllTimed(g, q.items)
  {
    if CanPop(g, q, now) then Queue(q.items[1..], q.index - {Key(g, q.items[0])}) else q
  }

  lemma PutInHolds<X>(items: seq<X>, n: nat, p: X, x: X)
    requires n <= |items|
    ensures x in PutIn(items, n, p) <==> x == p || x in items
  {
    hide PutIn;
    var r := PutIn(items, n, p);
    assert r[n] == p;
    if x in items {
      var i :| 0 <= i < |items| && items[i] == x;
      assert r[if i < n then i else i + 1] == x;
    }
  }

  lemma TakeOutHolds<X>(items: seq<X>, n: nat, x: X)
    requires n < |items| && x in items && x != items[n]
    ensures x in TakeOut(items, n)
  {
    hide TakeOut;
    var i :| 0 <= i < |items| && items[i] == x;
    assert TakeOut(items, n)[if i < n then i else i - 1] == x;
  }

  lemma PutInStaysSorted<T>(g: Getters<T>, items: seq<Ptr<T>>, p: Ptr<T>)
    requires AllTimed(g, items) && Sorted(g, items) && HasTime(g, p)
    ensures var r := PutIn(items, CountBefore(g, items, Time(g, p)), p); AllTimed(g, r) && Sorted(g, r)
  {
    hide PutIn, CountBefore, HasTime, Time;
    var n := CountBefore(g, items, Time(g, p));
    var r := PutIn(items, n, p);
    forall i, j | 0 <= i < j < |r| ensures Time(g, r[i]) <= Time(g, r[j]) {
      if i == n {
        assert Time(g, items[n]) <= Time(g, items[j - 1]);
      }
    }
  }

  lemma TakeOutStaysSorted<T>(g: Getters<T>, items: seq<Ptr<T>>, n: nat)
    requires AllTimed(g, items) && Sorted(g, items) && n < |items|
    ensures AllTimed(g, TakeOut(items, n)) && Sorted(g, TakeOut(items, n))
  {
    hide TakeOut, HasTime, Time;
  }

  lemma InsertKeepsValid<T>(g: Getters<T>, q: Queue<T>, p: Ptr<T>)
    requires Valid(g, q) && HasTime(g, p)
    ensures Valid(g, Insert(g, q, p))
  {
    hide AllTimed, Sorted, PutIn, CountBefore, HasTime, Time, Key;
    PutInStaysSorted(g, q.items, p);
    var q' := Insert(g, q, p);
    forall key | key in q'.index ensures q'.index[key] in q'.items && Key(g, q'.index[key]) == key {
      PutInHolds(q.items, CountBefore(g, q.items, Time(g, p)), p, q'.index[key]);
    }
  }

  lemma DeleteKeepsValid<T>(g: Getters<T>, q: Queue<T>, key: string)
    requires Valid(g, q)
    ensures Valid(g, Delete(q, key))
  {
    hide AllTimed, Sorted, TakeOut, Key;
    if key in q.index {
      var n := IndexOf(q.items, q.index[key]);
      TakeOutStaysSorted(g, q.items, n);
      var q' := Delete(q, key);
      forall other | other in q'.index ensures q'.index[other] in q'.items && Key(g, q'.index[other]) == other {
        TakeOutHolds(q.items, n, q'.index[other]);
      }
    }
  }

  lemma PopKeepsValid<T>(g: Getters<T>, q: Queue<T>, now: int)
    requires Valid(g, q)
    ensures Valid(g, Popped(g, q, now))
  {
  }

  // ---------------------------------------------------------------------------------------------
  // The class
  // ---------------------------------------------------------------------------------------------

  class Schedule<T(==)> {
    var schedule: seq<Ptr<T>>
    var scheduleMap: map<string, Ptr<T>>
    const getters: Getters<T>

    ghost function Value(): Queue<T>
      reads this
    {
      Queue(schedule, scheduleMap)
    }

    ghost predicate IsValid()
      reads this
    {
      Valid(getters, Value())
    }

    constructor (getters: Getters<T>)
      ensures IsValid() && this.getters == getters && Value() == Queue([], map[])
    {
      this.getters := getters;
      schedule := [];
      scheduleMap := map[];
    }

    /** Skips items without a time. An entry with the same key is not replaced in the slice. */
    method Schedule(item: Ptr<T>)
      requires IsValid()
      modifies this
      ensures IsValid() && Value() == Scheduled(getters, old(Value()), item)
    {
      if getters.time(item.value).None? {
        return;
      }
      InsertItem(getters.key(item.value), item);
    }

    method Reschedule(item: Ptr<T>)
      requires IsValid()
      modifies this
      ensures IsValid() && Value() == Rescheduled(getters, old(Value()), item)
    {
      var key := getters.key(item.value);
      if key in scheduleMap {
        RemoveItem(key);
      }
      if getters.time(item.value).None? {
        return;
      }
      InsertItem(key, item);
    }

    method Remove(key: string)
      requires IsValid()
      modifies this
      ensures IsValid() && Value() == Delete(old(Value()), key)
    {
      RemoveItem(key);
    }

    method TryPopAt(now: int) returns (r: Option<Ptr<T>>)
      requires IsValid()
      modifies this
      ensures IsValid() && Value() == Popped(getters, old(Value()), now)
      ensures r == if CanPop(getters, old(Value()), now) then Some(old(schedule)[0]) else None
    {
      if |schedule| > 0 && getters.time(schedule[0].value).value <= now {
        var item := schedule[0];
        schedule := schedule[1..];
        scheduleMap := scheduleMap - {getters.key(item.value)};
        return Some(item);
      }
      return None;
    }

    method RemoveItem(key: string)
      requires IsValid()
      modifies this
      ensures IsValid() && Value() == Delete(old(Value()), key)
    {
      if key in scheduleMap {
        var item := scheduleMap[key];
        DeleteKeepsValid(getters, Value(), key);
        var itemIndex := Index(item);
        scheduleMap := scheduleMap - {key};
        schedule := schedule[..itemIndex] + schedule[itemIndex + 1..];
      }
    }

    /** Where an item is in the slice. It never has to report that it is missing. */
    method Index(item: Ptr<T>) returns (n: nat)
      requires item in schedule
      ensures n == IndexOf(schedule, item) && n < |schedule|
    {
      n := 0;
      while schedule[n] != item
        invariant n < |schedule|
        invariant IndexOf(schedule, item) == n + IndexOf(schedule[n..], item)
        decreases |schedule| - n
      {
        assert schedule[n..][1..] == schedule[n + 1..];
        n := n + 1;
      }
    }

    /** The binary search for the first item that is not before the given time. */
    method Search(time: int) returns (n: nat)
      requires IsValid()
      ensures n == CountBefore(getters, schedule, time)
    {
      var i, j := 0, |schedule|;
      while i < j
        invariant 0 <= i <= j <= |schedule|
        invariant i <= CountBefore(getters, schedule, time) <= j
      {
        var h := (i + j) / 2;
        if !(getters.time(schedule[h].value).value >= time) {
          i := h + 1;
        } else {
          j := h;
        }
      }
      n := i;
    }

    method InsertItem(key: string, item: Ptr<T>)
      requires IsValid() && HasTime(getters, item) && key == Key(getters, item)
      modifies this
      ensures IsValid() && Value() == Insert(getters, old(Value()), item)
    {
      hide AllTimed, Sorted, PutIn;
      InsertKeepsValid(getters, Value(), item);
      var insertIndex := Search(getters.time(item.value).value);
      if insertIndex == |schedule| {
        PutInAtTheEnd(schedule, item);
        schedule := schedule + [item];
        scheduleMap := scheduleMap[key := item];
        return;
      }
      PutInByOverwriting(schedule, insertIndex, item);
      // Make room by repeating the item at the insertion point, then overwrite its first copy
      schedule := schedule[..insertIndex + 1] + schedule[insertIndex..];
      schedule := schedule[insertIndex := item];
      scheduleMap := scheduleMap[key := item];
    }
  }
}
