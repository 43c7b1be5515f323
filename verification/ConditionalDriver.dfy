/**
 * The execution limit of the conditional profiling driver: a counter per profile that is created by a grant, counts
 * to three and is removed by a sweep once it has expired. Times are readings of one nondecreasing clock.
 */
module ConditionalDriver {

  const EXECUTION_LIMIT_PER_HOUR: nat := 3
  const HOUR: int := 3_600_000_000_000

  datatype Count = Count(cnt: nat, expireAt: int)

  /** A granted execution; `position` is the counter after it, so 1 marks the first of a window. */
  datatype Grant = Grant(time: int, position: nat)

  type Limits = map<int, Count>

  /** The two atomic actions on the counters, each with the time it happens. */
  datatype Event = Expire(id: int, time: int) | Check(id: int, time: int)

  function ExpireOne(limits: Limits, id: int, now: int): Limits {
    if id in limits && limits[id].expireAt < now then limits - {id} else limits
  }

  predicate Grants(limits: Limits, id: int) {
    id !in limits || limits[id].cnt < EXECUTION_LIMIT_PER_HOUR
  }

  function CheckOne(limits: Limits, id: int, now: int): Limits {
    if id !in limits then limits[id := Count(1, now + HOUR)]
    else if limits[id].cnt >= EXECUTION_LIMIT_PER_HOUR then limits
    else limits[id := limits[id].(cnt := limits[id].cnt + 1)]
  }

  function After(limits: Limits, e: Event): Limits {
    match e
    case Expire(id, now) => ExpireOne(limits, id, now)
    case Check(id, now) => CheckOne(limits, id, now)
  }

  function Run(events: seq<Event>): Limits {
    if events == [] then map[] else After(Run(events[..|events| - 1]), events[|events| - 1])
  }

  /** The grants one profile got over a run. */
  function GrantsOf(id: int, events: seq<Event>): seq<Grant> {
    if events == [] then []
    else
      var before, e := events[..|events| - 1], events[|events| - 1];
      if e.Check? && e.id == id && Grants(Run(before), id)
      then GrantsOf(id, before) + [Grant(e.time, CheckOne(Run(before), id, e.time)[id].cnt)]
      else GrantsOf(id, before)
  }

  lemma RunSnoc(events: seq<Event>, e: Event)
    ensures Run(events + [e]) == After(Run(events), e)
  {
    assert (events + [e])[..|events|] == events;
  }

  predicate Nondecreasing(events: seq<Event>) {
    forall i, j | 0 <= i <= j < |events| :: events[i].time <= events[j].time
  }

  // ----- the driver

  /** A profile in the current settings: whether its condition is met and whether it names a known profile type. */
  datatype Profile = Profile(id: int, met: bool, known: bool)

  /** A task put into the channel, and when it was granted. */
  datatype Task = Task(id: int, time: int)

  class Driver {
    var cntLimit: Limits
    var sent: seq<Task>         // the tasks put into the channel
    ghost var events: seq<Event>

    ghost predicate Valid()
      reads this
    {
      cntLimit == Run(events) && Backed(sent, events)
    }

    constructor ()
      ensures Valid() && events == [] && sent == []
    {
      cntLimit, sent, events := map[], [], [];
    }

    /** `removeExpired`: visits the keys in the order `keys`; `clock[i]` is the time read for `keys[i]`. */
    method RemoveExpired(keys: seq<int>, clock: seq<int>)
      requires Valid() && |clock| == |keys|
      modifies this
      ensures Valid() && sent == old(sent)
      ensures events == old(events) + SweepEvents(keys, clock)
    {
      hide Backed, Run;
      var i := 0;
      while i < |keys|
        invariant 0 <= i <= |keys| && Valid() && sent == old(sent)
        invariant events == old(events) + seq(i, k requires 0 <= k < i => Expire(keys[k], clock[k]))
      {
        var k := keys[i];
        if k in cntLimit && cntLimit[k].expireAt < clock[i] {
          cntLimit := cntLimit - {k};
        }
        RunSnoc(events, Expire(k, clock[i]));
        BackedMore(sent, events, Expire(k, clock[i]));
        events := events + [Expire(k, clock[i])];
        i := i + 1;
      }
    }

    /** `checkExecutionLimit` */
    method CheckExecutionLimit(id: int, now: int) returns (granted: bool)
      requires Valid()
      modifies this
      ensures Valid() && sent == old(sent) && Backed(sent, old(events))
      ensures events == old(events) + [Check(id, now)]
      ensures granted == Grants(old(cntLimit), id)
      ensures cntLimit == CheckOne(old(cntLimit), id, now)
    {
      hide Backed, Run;
      RunSnoc(events, Check(id, now));
      BackedMore(sent, events, Check(id, now));
      events := events + [Check(id, now)];
      if id in cntLimit {
        var limit := cntLimit[id];
        if limit.cnt >= EXECUTION_LIMIT_PER_HOUR {
          return false;
        }
        cntLimit := cntLimit[id := limit.(cnt := limit.cnt + 1)];
        return true;
      }
      cntLimit := cntLimit[id := Count(1, now + HOUR)];
      return true;
    }

    /**
     * One tick of the loop in `Start`, after the sweep: the profiles in the order Go iterates them, the time of each
     * check, and whether the task channel has room.
     */
    method CheckProfiles(profiles: seq<Profile>, clock: seq<int>, room: seq<bool>)
      requires Valid() && |clock| == |room| == |profiles|
      modifies this
      ensures Valid() && old(events) <= events
      ensures old(sent) <= sent && events == old(events) + Checks(profiles, clock)
      ensures (cntLimit, sent) == Tick(old(cntLimit), old(sent), profiles, clock, room)
      ensures forall k | |old(events)| <= k < |events| :: events[k].Check? && events[k].time in clock
    {
      hide Backed, Run, GrantsOf;
      var i := 0;
      while i < |profiles|
        invariant 0 <= i <= |profiles| && Valid() && old(events) <= events && old(sent) <= sent
        invariant Tick(cntLimit, sent, profiles[i..], clock[i..], room[i..])
               == Tick(old(cntLimit), old(sent), profiles, clock, room)
        invariant events + Checks(profiles[i..], clock[i..]) == old(events) + Checks(profiles, clock)
        invariant forall k | |old(events)| <= k < |events| :: events[k].Check? && events[k].time in clock
      {
        var p := profiles[i];
        if p.met {
          ghost var before := events;
          var granted := CheckExecutionLimit(p.id, clock[i]);
          if granted && p.known && room[i] {
            BackedSend(sent, before, p.id, clock[i]);
            sent := sent + [Task(p.id, clock[i])];
          }
        }
        i := i + 1;
      }
    }

    /** The body of the loop in `Start` for one tick. */
    method OnTick(keys: seq<int>, sweep: seq<int>, profiles: seq<Profile>, clock: seq<int>, room: seq<bool>)
      requires Valid() && |sweep| == |keys| && |clock| == |room| == |profiles|
      modifies this
      ensures Valid() && old(events) <= events && old(sent) <= sent
      ensures var swept := old(events) + SweepEvents(keys, sweep);
              && events == swept + Checks(profiles, clock)
              && (cntLimit, sent) == Tick(Run(swept), old(sent), profiles, clock, room)
    {
      RemoveExpired(keys, sweep);
      CheckProfiles(profiles, clock, room);
    }

    /** The loop in `Start` over a run of ticks. */
    method RunLoop(ticks: seq<TickInput>)
      requires Valid() && events == [] && sent == [] && AllMatching(ticks)
      modifies this
      ensures Valid() && events == DriverEvents(ticks) && sent == DriverSent(ticks)
    {
      hide Backed, Run, Checks, Tick;
      var n := 0;
      while n < |ticks|
        invariant 0 <= n <= |ticks| && Valid() && events == DriverEvents(ticks[..n]) && sent == DriverSent(ticks[..n])
      {
        var t := ticks[n];
        OnTick(t.keys, t.sweep, t.profiles, t.clock, t.room);
        assert ticks[..n + 1][..n] == ticks[..n];
        n := n + 1;
      }
      assert ticks[..n] == ticks;
    }
  }

  /** The keys a sweep visits, each with the time read for it. */
  function SweepEvents(keys: seq<int>, clock: seq<int>): seq<Event>
    requires |clock| == |keys|
  {
    seq(|keys|, i requires 0 <= i < |keys| => Expire(keys[i], clock[i]))
  }

  /** The profiles that are checked: those whose condition is met. */
  function Checks(profiles: seq<Profile>, clock: seq<int>): seq<Event>
    requires |clock| == |profiles|
    decreases |profiles|
  {
    if profiles == [] then []
    else (if profiles[0].met then [Check(profiles[0].id, clock[0])] else []) + Checks(profiles[1..], clock[1..])
  }

  /** The counters and the sent tasks after the profiles are checked one by one. */
  function Tick(limits: Limits, sent: seq<Task>, profiles: seq<Profile>, clock: seq<int>, room: seq<bool>)
      : (Limits, seq<Task>)
    requires |clock| == |room| == |profiles|
    decreases |profiles|
  {
    if profiles == [] then (limits, sent)
    else
      var p := profiles[0];
      var limits' := if p.met then CheckOne(limits, p.id, clock[0]) else limits;
      var send := p.met && Grants(limits, p.id) && p.known && room[0];
      Tick(limits', if send then sent + [Task(p.id, clock[0])] else sent, profiles[1..], clock[1..], room[1..])
  }

  /** How many tasks of a profile were granted in the closed hour that starts at `from` and sent. */
  function TasksInHour(id: int, tasks: seq<Task>, from: int): nat {
    if tasks == [] then 0
    else
      var last := tasks[|tasks| - 1];
      TasksInHour(id, tasks[..|tasks| - 1], from) + (if last.id == id && from <= last.time <= from + HOUR then 1 else 0)
  }

  /** In no hour were more tasks of a profile sent than granted. */
  ghost predicate Backed(sent: seq<Task>, events: seq<Event>) {
    forall id, from :: TasksInHour(id, sent, from) <= InHour(GrantsOf(id, events), from)
  }

  lemma GrantsSnoc(id: int, events: seq<Event>, e: Event, from: int)
    ensures InHour(GrantsOf(id, events + [e]), from)
         == InHour(GrantsOf(id, events), from)
            + (if e.Check? && e.id == id && Grants(Run(events), id) && from <= e.time <= from + HOUR then 1 else 0)
  {
    hide Run;
    assert (events + [e])[..|events|] == events;
    var g := GrantsOf(id, events);
    if e.Check? && e.id == id && Grants(Run(events), id) {
      var x := Grant(e.time, CheckOne(Run(events), id, e.time)[id].cnt);
      assert (g + [x])[..|g|] == g;
    }
  }

  lemma BackedMore(sent: seq<Task>, events: seq<Event>, e: Event)
    requires Backed(sent, events)
    ensures Backed(sent, events + [e])
  {
    hide Run, GrantsOf, InHour, TasksInHour, Grants;
    forall id, from ensures TasksInHour(id, sent, from) <= InHour(GrantsOf(id, events + [e]), from) {
      GrantsSnoc(id, events, e, from);
    }
  }

  lemma BackedSend(sent: seq<Task>, events: seq<Event>, id: int, now: int)
    requires Backed(sent, events) && Grants(Run(events), id)
    ensures Backed(sent + [Task(id, now)], events + [Check(id, now)])
  {
    hide Run, GrantsOf, InHour, Grants;
    var more := sent + [Task(id, now)];
    assert more[..|sent|] == sent;
    forall other, from
      ensures TasksInHour(other, more, from) <= InHour(GrantsOf(other, events + [Check(id, now)]), from)
    {
      GrantsSnoc(other, events, Check(id, now), from);
    }
  }

  // ----- which tasks are sent

  /** A profile's task is sent if its condition is met, its type known, the execution granted and there is room. */
  lemma OneTask(limits: Limits, sent: seq<Task>, p: Profile, now: int, room: bool)
    ensures Tick(limits, sent, [p], [now], [room]).1
         == sent + (if p.met && p.known && room && (p.id !in limits || limits[p.id].cnt < 3) then [Task(p.id, now)]
                    else [])
  {
    assert [p][1..] == [] && [now][1..] == [] && [room][1..] == [];
  }

  /** The profiles of a tick are handled one after the other. */
  lemma {:induction false} TickOneByOne(limits: Limits, sent: seq<Task>, profiles: seq<Profile>, clock: seq<int>,
                                        room: seq<bool>, n: nat)
    requires |clock| == |room| == |profiles| && n <= |profiles|
    ensures var (limits', sent') := Tick(limits, sent, profiles[..n], clock[..n], room[..n]);
            Tick(limits, sent, profiles, clock, room) == Tick(limits', sent', profiles[n..], clock[n..], room[n..])
    decreases n
  {
    if n == 0 {
      assert profiles[0..] == profiles && clock[0..] == clock && room[0..] == room;
    } else {
      var p := profiles[0];
      assert profiles[..n][1..] == profiles[1..][..n - 1] && profiles[n..] == profiles[1..][n - 1..];
      assert clock[..n][1..] == clock[1..][..n - 1] && clock[n..] == clock[1..][n - 1..];
      assert room[..n][1..] == room[1..][..n - 1] && room[n..] == room[1..][n - 1..];
      var send := p.met && Grants(limits, p.id) && p.known && room[0];
      TickOneByOne(if p.met then CheckOne(limits, p.id, clock[0]) else limits,
                   if send then sent + [Task(p.id, clock[0])] else sent, profiles[1..], clock[1..], room[1..], n - 1);
    }
  }

  /** The inputs of one call of `OnTick`. */
  datatype TickInput = TickInput(
    keys: seq<int>, sweep: seq<int>, profiles: seq<Profile>, clock: seq<int>, room: seq<bool>)

  predicate Matching(t: TickInput) {
    |t.sweep| == |t.keys| && |t.clock| == |t.room| == |t.profiles|
  }

  predicate AllMatching(ticks: seq<TickInput>) {
    forall i | 0 <= i < |ticks| :: Matching(ticks[i])
  }

  /** The events of a driver over a run of ticks. */
  function DriverEvents(ticks: seq<TickInput>): seq<Event>
    requires AllMatching(ticks)
  {
    if ticks == [] then []
    else
      var n := |ticks| - 1;
      DriverEvents(ticks[..n]) + SweepEvents(ticks[n].keys, ticks[n].sweep) + Checks(ticks[n].profiles, ticks[n].clock)
  }

  /** The tasks it has sent. */
  function DriverSent(ticks: seq<TickInput>): seq<Task>
    requires AllMatching(ticks)
  {
    if ticks == [] then []
    else
      var n := |ticks| - 1;
      var limits := Run(DriverEvents(ticks[..n]) + SweepEvents(ticks[n].keys, ticks[n].sweep));
      Tick(limits, DriverSent(ticks[..n]), ticks[n].profiles, ticks[n].clock, ticks[n].room).1
  }

  /** The executions of a profile granted within the hour in one tick and not sent: unknown type or a full channel. */
  function LostInTick(limits: Limits, profiles: seq<Profile>, clock: seq<int>, room: seq<bool>, id: int, from: int): nat
    requires |clock| == |room| == |profiles|
    decreases |profiles|
  {
    if profiles == [] then 0
    else
      var p := profiles[0];
      var lost := p.met && p.id == id && Grants(limits, id) && !(p.known && room[0]);
      (if lost && from <= clock[0] <= from + HOUR then 1 else 0)
      + LostInTick(if p.met then CheckOne(limits, p.id, clock[0]) else limits, profiles[1..], clock[1..], room[1..],
                   id, from)
  }

  function Lost(ticks: seq<TickInput>, id: int, from: int): nat
    requires AllMatching(ticks)
  {
    if ticks == [] then 0
    else
      var n := |ticks| - 1;
      var limits := Run(DriverEvents(ticks[..n]) + SweepEvents(ticks[n].keys, ticks[n].sweep));
      Lost(ticks[..n], id, from) + LostInTick(limits, ticks[n].profiles, ticks[n].clock, ticks[n].room, id, from)
  }

  lemma TasksSnoc(id: int, tasks: seq<Task>, task: Task, from: int)
    ensures TasksInHour(id, tasks + [task], from)
         == TasksInHour(id, tasks, from) + (if task.id == id && from <= task.time <= from + HOUR then 1 else 0)
  {
    assert (tasks + [task])[..|tasks|] == tasks;
  }

  lemma {:induction false} TickAccounts(events: seq<Event>, sent: seq<Task>, profiles: seq<Profile>, clock: seq<int>,
                                        room: seq<bool>, id: int, from: int)
    requires |clock| == |room| == |profiles|
    ensures TasksInHour(id, Tick(Run(events), sent, profiles, clock, room).1, from)
            + LostInTick(Run(events), profiles, clock, room, id, from) + InHour(GrantsOf(id, events), from)
         == TasksInHour(id, sent, from) + InHour(GrantsOf(id, events + Checks(profiles, clock)), from)
    decreases |profiles|
  {
    hide Run, GrantsOf, InHour, TasksInHour, Grants, CheckOne;
    if profiles == [] {
      assert events + Checks(profiles, clock) == events;
    } else {
      var p := profiles[0];
      var check := if p.met then [Check(p.id, clock[0])] else [];
      var send := p.met && Grants(Run(events), p.id) && p.known && room[0];
      var task := if send then [Task(p.id, clock[0])] else [];
      assert events + Checks(profiles, clock) == events + check + Checks(profiles[1..], clock[1..]);
      assert sent + [] == sent && events + [] == events;
      if p.met {
        RunSnoc(events, Check(p.id, clock[0]));
        GrantsSnoc(id, events, Check(p.id, clock[0]), from);
      }
      TasksSnoc(id, sent, Task(p.id, clock[0]), from);
      TickAccounts(events + check, sent + task, profiles[1..], clock[1..], room[1..], id, from);
    }
  }

  lemma {:induction false} SweepGrantsNothing(id: int, events: seq<Event>, more: seq<Event>, from: int)
    requires forall i | 0 <= i < |more| :: more[i].Expire?
    ensures InHour(GrantsOf(id, events + more), from) == InHour(GrantsOf(id, events), from)
    decreases |more|
  {
    hide GrantsOf, InHour;
    if more == [] {
      assert events + more == events;
    } else {
      var n := |more| - 1;
      SweepGrantsNothing(id, events, more[..n], from);
      GrantsSnoc(id, events + more[..n], more[n], from);
      assert events + more == events + more[..n] + [more[n]];
    }
  }

  /**
   * Over every run of a driver and for every hour: each execution granted to a profile is a task sent or was lost to
   * an unknown type or a full channel.
   */
  lemma {:induction false} GrantsAccounted(ticks: seq<TickInput>, id: int, from: int)
    requires AllMatching(ticks)
    ensures TasksInHour(id, DriverSent(ticks), from) + Lost(ticks, id, from)
         == InHour(GrantsOf(id, DriverEvents(ticks)), from)
    decreases |ticks|
  {
    hide Run, GrantsOf, InHour, TasksInHour, Tick, LostInTick, Checks;
    if ticks == [] {
      Nothing(id, from);
    } else {
      var n := |ticks| - 1;
      var t, before := ticks[n], DriverEvents(ticks[..n]);
      GrantsAccounted(ticks[..n], id, from);
      SweepGrantsNothing(id, before, SweepEvents(t.keys, t.sweep), from);
      TickAccounts(before + SweepEvents(t.keys, t.sweep), DriverSent(ticks[..n]), t.profiles, t.clock, t.room, id,
                   from);
    }
  }

  lemma Nothing(id: int, from: int)
    ensures TasksInHour(id, [], from) == 0 && InHour(GrantsOf(id, []), from) == 0
  {
  }

  /** Every profile that is checked has a known type, and the channel has room. */
  predicate Open(t: TickInput) {
    && (forall i | 0 <= i < |t.profiles| && t.profiles[i].met :: t.profiles[i].known)
    && forall i | 0 <= i < |t.room| :: t.room[i]
  }

  lemma {:induction false} NoneLostInTick(limits: Limits, profiles: seq<Profile>, clock: seq<int>, room: seq<bool>,
                                          id: int, from: int)
    requires |clock| == |room| == |profiles|
    requires forall i | 0 <= i < |profiles| && profiles[i].met :: profiles[i].known
    requires forall i | 0 <= i < |room| :: room[i]
    ensures LostInTick(limits, profiles, clock, room, id, from) == 0
    decreases |profiles|
  {
    hide Grants, CheckOne;
    if profiles != [] {
      NoneLostInTick(if profiles[0].met then CheckOne(limits, profiles[0].id, clock[0]) else limits, profiles[1..],
                     clock[1..], room[1..], id, from);
    }
  }

  /** When types are known and the channel has room, every granted execution is sent. */
  lemma {:induction false} AllGrantsSent(ticks: seq<TickInput>, id: int, from: int)
    requires AllMatching(ticks) && forall i | 0 <= i < |ticks| :: Open(ticks[i])
    ensures TasksInHour(id, DriverSent(ticks), from) == InHour(GrantsOf(id, DriverEvents(ticks)), from)
  {
    GrantsAccounted(ticks, id, from);
    NoneLost(ticks, id, from);
  }

  lemma {:induction false} NoneLost(ticks: seq<TickInput>, id: int, from: int)
    requires AllMatching(ticks) && forall i | 0 <= i < |ticks| :: Open(ticks[i])
    ensures Lost(ticks, id, from) == 0
    decreases |ticks|
  {
    hide Run, LostInTick;
    if ticks != [] {
      var n := |ticks| - 1;
      NoneLost(ticks[..n], id, from);
      assert Open(ticks[n]);
      var limits := Run(DriverEvents(ticks[..n]) + SweepEvents(ticks[n].keys, ticks[n].sweep));
      NoneLostInTick(limits, ticks[n].profiles, ticks[n].clock, ticks[n].room, id, from);
    }
  }

  // ----- windows

  /** Positions count 1, 2, 3 and start again at 1. */
  predicate Positions(g: seq<Grant>) {
    && (g != [] ==> g[0].position == 1)
    && (forall i | 0 <= i < |g| :: 1 <= g[i].position <= EXECUTION_LIMIT_PER_HOUR)
    && forall i | 0 < i < |g| :: g[i].position == 1 || g[i].position == g[i - 1].position + 1
  }

  predicate InOrder(g: seq<Grant>) {
    forall i, j | 0 <= i <= j < |g| :: g[i].time <= g[j].time
  }

  /** Windows start more than an hour apart. */
  predicate StartsApart(g: seq<Grant>) {
    forall i, j | 0 <= i < j < |g| && g[i].position == g[j].position == 1 :: g[j].time - g[i].time > HOUR
  }

  /** How the counter of a profile, or its absence, reflects the grants so far. */
  predicate CounterTells(limits: Limits, id: int, g: seq<Grant>, now: int) {
    if id in limits then
      && g != [] && limits[id].cnt == g[|g| - 1].position
      && (forall i | 0 <= i < |g| && g[i].position == 1 :: g[i].time + HOUR <= limits[id].expireAt)
    else
      forall i | 0 <= i < |g| && g[i].position == 1 :: g[i].time + HOUR < now
  }

  predicate WindowInvariant(limits: Limits, id: int, g: seq<Grant>, now: int) {
    && Positions(g) && InOrder(g) && StartsApart(g) && CounterTells(limits, id, g, now)
    && forall i | 0 <= i < |g| :: g[i].time <= now
  }

  lemma FirstGrant(limits: Limits, id: int, g: seq<Grant>, now: int)
    requires WindowInvariant(limits, id, g, now) && id !in limits
    ensures WindowInvariant(CheckOne(limits, id, now), id, g + [Grant(now, 1)], now)
  {
  }

  lemma LaterGrant(limits: Limits, id: int, g: seq<Grant>, now: int)
    requires WindowInvariant(limits, id, g, now) && id in limits && limits[id].cnt < EXECUTION_LIMIT_PER_HOUR
    ensures WindowInvariant(CheckOne(limits, id, now), id, g + [Grant(now, limits[id].cnt + 1)], now)
  {
    var g' := g + [Grant(now, limits[id].cnt + 1)];
    assert forall i | 0 <= i < |g| :: g'[i] == g[i];
    assert g'[|g|].position != 1;
  }

  lemma NoGrant(limits: Limits, id: int, g: seq<Grant>, e: Event)
    requires WindowInvariant(limits, id, g, e.time)
    requires e.Check? ==> e.id != id || !Grants(limits, id)
    ensures WindowInvariant(After(limits, e), id, g, e.time)
  {
  }

  /** What holds of one profile over every run with a nondecreasing clock. */
  lemma {:induction false} WindowsKept(id: int, events: seq<Event>, now: int)
    requires Nondecreasing(events) && (events != [] ==> events[|events| - 1].time <= now)
    ensures WindowInvariant(Run(events), id, GrantsOf(id, events), now)
    decreases |events|
  {
    if events != [] {
      var before, e := events[..|events| - 1], events[|events| - 1];
      var limits, g := Run(before), GrantsOf(id, before);
      WindowsKept(id, before, e.time);
      if e.Check? && e.id == id && Grants(limits, id) {
        if id in limits {
          LaterGrant(limits, id, g, e.time);
        } else {
          FirstGrant(limits, id, g, e.time);
        }
      } else {
        NoGrant(limits, id, g, e);
      }
      Later(Run(events), id, GrantsOf(id, events), e.time, now);
    }
  }

  lemma Later(limits: Limits, id: int, g: seq<Grant>, now: int, later: int)
    requires WindowInvariant(limits, id, g, now) && now <= later
    ensures WindowInvariant(limits, id, g, later)
  {
  }

  /** Of three consecutive grants, one starts a window. */
  lemma StartAmongThree(g: seq<Grant>, i: nat) returns (x: nat)
    requires Positions(g) && i + 2 < |g|
    ensures i <= x <= i + 2 && g[x].position == 1
  {
    if g[i].position == 1 {
      x := i;
    } else if g[i + 1].position == 1 {
      x := i + 1;
    } else {
      x := i + 2;
    }
  }

  /** Any six consecutive grants of a profile span more than an hour. */
  lemma SixSpanAnHour(id: int, events: seq<Event>, i: nat)
    requires Nondecreasing(events) && i + 5 < |GrantsOf(id, events)|
    ensures var g := GrantsOf(id, events); g[i + 5].time - g[i].time > HOUR
  {
    WindowsKept(id, events, events[|events| - 1].time);
    var g := GrantsOf(id, events);
    var x := StartAmongThree(g, i);
    var y := StartAmongThree(g, x + 1);
    assert g[i].time <= g[x].time && g[y].time <= g[i + 5].time;
  }

  /** The documented limit, three an hour, holds for every hour that begins with the first grant of a window. */
  lemma ThreeFromWindowStart(id: int, events: seq<Event>, i: nat)
    requires Nondecreasing(events) && i + 3 < |GrantsOf(id, events)|
    requires GrantsOf(id, events)[i].position == 1
    ensures var g := GrantsOf(id, events); g[i + 3].time - g[i].time > HOUR
  {
    WindowsKept(id, events, events[|events| - 1].time);
    var g := GrantsOf(id, events);
    var y := StartAmongThree(g, i + 1);
    assert g[y].time <= g[i + 3].time;
  }

  /** How many grants fall into the closed hour that starts at `from`. */
  function InHour(g: seq<Grant>, from: int): nat {
    if g == [] then 0
    else InHour(g[..|g| - 1], from) + (if from <= g[|g| - 1].time <= from + HOUR then 1 else 0)
  }

  /** Grants before the hour do not count. */
  lemma {:induction false} CountFrom(g: seq<Grant>, from: int, k: nat)
    requires k <= |g| && forall i | 0 <= i < k :: g[i].time < from
    ensures InHour(g, from) <= |g| - k
    decreases |g|
  {
    if g != [] {
      CountFrom(g[..|g| - 1], from, if k == |g| then k - 1 else k);
    }
  }

  lemma FirstFrom(g: seq<Grant>, from: int) returns (k: nat)
    requires g != [] && g[|g| - 1].time >= from && InOrder(g)
    ensures k < |g| && g[k].time >= from && forall i | 0 <= i < k :: g[i].time < from
  {
    k := |g| - 1;
    while k > 0 && g[k - 1].time >= from
      invariant k < |g| && g[k].time >= from
    {
      k := k - 1;
    }
  }

  lemma FarApart(g: seq<Grant>, k: nat, n: nat, limit: nat)
    requires InOrder(g) && k + limit <= n < |g|
    requires forall i | 0 <= i && i + limit < |g| :: g[i + limit].time - g[i].time > HOUR
    ensures g[n].time - g[k].time > HOUR
  {
    assert g[k + limit].time <= g[n].time;
  }

  /** When grants `limit` places apart are more than an hour apart, an hour holds at most `limit`. */
  lemma {:induction false} InHourBound(g: seq<Grant>, from: int, limit: nat)
    requires InOrder(g)
    requires forall i | 0 <= i && i + limit < |g| :: g[i + limit].time - g[i].time > HOUR
    ensures InHour(g, from) <= limit
    decreases |g|
  {
    if g != [] {
      var n := |g| - 1;
      if from <= g[n].time <= from + HOUR {
        var k := FirstFrom(g, from);
        CountFrom(g, from, k);
        if k + limit <= n {
          FarApart(g, k, n, limit);
        }
      } else {
        InHourBound(g[..n], from, limit);
      }
    }
  }

  /** Over every run, any closed hour holds at most five grants of one profile. */
  lemma FiveAnHour(id: int, events: seq<Event>, from: int)
    requires Nondecreasing(events)
    ensures InHour(GrantsOf(id, events), from) <= 5
  {
    var g := GrantsOf(id, events);
    WindowsKept(id, events, if events == [] then 0 else events[|events| - 1].time);
    forall i | 0 <= i && i + 5 < |g| ensures g[i + 5].time - g[i].time > HOUR {
      SixSpanAnHour(id, events, i);
    }
    InHourBound(g, from, 5);
  }

  /** So at most five tasks of one profile granted in that hour are sent, whatever the channel and the settings do. */
  lemma FiveTasksAnHour(d: Driver, id: int, from: int)
    requires d.Valid() && Nondecreasing(d.events)
    ensures TasksInHour(id, d.sent, from) <= 5
  {
    FiveAnHour(id, d.events, from);
  }

  /** Grants between two that fall into an hour all count. */
  lemma {:induction false} CountBetween(g: seq<Grant>, from: int, i: nat, n: nat)
    requires InOrder(g) && i <= n <= |g|
    requires i < n ==> from <= g[i].time && g[n - 1].time <= from + HOUR
    ensures InHour(g, from) >= n - i
    decreases |g|
  {
    if i < n {
      var m := |g| - 1;
      if n <= m {
        CountBetween(g[..m], from, i, n);
      } else {
        assert g[i].time <= g[m].time;
        assert i < m ==> g[m - 1].time <= g[m].time;
        CountBetween(g[..m], from, i, n - 1);
      }
    }
  }

  /** No hour has more than `limit` grants exactly when grants `limit` places apart are more than an hour apart. */
  lemma LimitIff(g: seq<Grant>, limit: nat)
    requires InOrder(g)
    ensures (forall from :: InHour(g, from) <= limit)
       <==> forall i | 0 <= i && i + limit < |g| :: g[i + limit].time - g[i].time > HOUR
  {
    hide InHour;
    if forall i | 0 <= i && i + limit < |g| :: g[i + limit].time - g[i].time > HOUR {
      forall from ensures InHour(g, from) <= limit {
        InHourBound(g, from, limit);
      }
    } else {
      var i :| 0 <= i && i + limit < |g| && g[i + limit].time - g[i].time <= HOUR;
      CountBetween(g, g[i].time, i, i + limit + 1);
    }
  }

  /**
   * When the documented limit holds: every hour has at most three grants of a profile if and only if no grant other
   * than the first of its window is followed by three more within an hour.
   */
  lemma ThreeAnHourIff(id: int, events: seq<Event>)
    requires Nondecreasing(events)
    ensures (forall from :: InHour(GrantsOf(id, events), from) <= 3)
       <==> var g := GrantsOf(id, events);
            forall i | 0 <= i && i + 3 < |g| && g[i].position != 1 :: g[i + 3].time - g[i].time > HOUR
  {
    var g := GrantsOf(id, events);
    WindowsKept(id, events, if events == [] then 0 else events[|events| - 1].time);
    LimitIff(g, 3);
    hide GrantsOf, InHour, Run, InOrder, Positions, StartsApart, CounterTells, Nondecreasing;
    forall i | 0 <= i && i + 3 < |g| && g[i].position == 1 ensures g[i + 3].time - g[i].time > HOUR {
      ThreeFromWindowStart(id, events, i);
    }
  }

  function Bonus(limits: Limits, e: Event): nat {
    if e.Check? && e.id == 1 && Grants(limits, 1) && HOUR <= e.time <= 2 * HOUR then 1 else 0
  }

  /** One more event for profile 1, and the grants of its second hour. */
  lemma Replay(events: seq<Event>, e: Event, limits: Limits, h: nat)
    requires Run(events) == limits && InHour(GrantsOf(1, events), HOUR) == h
    ensures Run(events + [e]) == After(limits, e)
    ensures InHour(GrantsOf(1, events + [e]), HOUR) == h + Bonus(limits, e)
  {
    hide Run, GrantsOf, InHour;
    RunSnoc(events, e);
    GrantsSnoc(1, events, e, HOUR);
  }

  /** A run that ends at `now` with these counters and `h` grants in the second hour. */
  predicate Reaches(events: seq<Event>, limits: Limits, h: nat, now: int) {
    && Nondecreasing(events) && Run(events) == limits && InHour(GrantsOf(1, events), HOUR) == h
    && forall i | 0 <= i < |events| :: events[i].time <= now
  }

  lemma ReachMore(events: seq<Event>, limits: Limits, h: nat, now: int, e: Event)
    requires Reaches(events, limits, h, now) && now <= e.time
    ensures Reaches(events + [e], After(limits, e), h + Bonus(limits, e), e.time)
  {
    hide Run, GrantsOf, InHour;
    Replay(events, e, limits, h);
  }

  /** The time of the `n`th tick. */
  function Minutes(n: nat): int {
    n * 60_000_000_000
  }

  lemma MinutesGrow(m: nat, n: nat)
    requires m <= n
    ensures Minutes(m) <= Minutes(n)
  {
  }

  /**
   * The events of profile 1 in the first `n` ticks of a driver, one a minute: each sweeps and then, if the condition is
   * met at that minute, checks the profile once.
   */
  function Ticks(met: set<int>, n: nat): seq<Event> {
    if n == 0 then []
    else
      var swept := Ticks(met, n - 1) + [Expire(1, Minutes(n))];
      if n in met then swept + [Check(1, Minutes(n))] else swept
  }

  /** These are the events of `OnTick` for this profile. */
  lemma TickEvents(met: set<int>, n: nat, known: bool)
    ensures Ticks(met, n + 1)
         == Ticks(met, n) + [Expire(1, Minutes(n + 1))]
            + Checks([Profile(1, n + 1 in met, known)], [Minutes(n + 1)])
  {
    var profile := Profile(1, n + 1 in met, known);
    assert [profile][1..] == [] && [Minutes(n + 1)][1..] == [];
    assert Checks([], []) == [];
  }

  /** The counters after one more tick. */
  function TickLimits(met: set<int>, limits: Limits, n: nat): Limits {
    var swept := ExpireOne(limits, 1, Minutes(n));
    if n in met then CheckOne(swept, 1, Minutes(n)) else swept
  }

  /** Whether that tick grants in the second hour. */
  function TickBonus(met: set<int>, limits: Limits, n: nat): nat {
    if n in met then Bonus(ExpireOne(limits, 1, Minutes(n)), Check(1, Minutes(n))) else 0
  }

  lemma TickMore(met: set<int>, limits: Limits, h: nat, n: nat)
    requires Reaches(Ticks(met, n), limits, h, Minutes(n))
    ensures Reaches(Ticks(met, n + 1), TickLimits(met, limits, n + 1), h + TickBonus(met, limits, n + 1),
                    Minutes(n + 1))
  {
    hide Reaches, ExpireOne, CheckOne;
    var sweep, check := Expire(1, Minutes(n + 1)), Check(1, Minutes(n + 1));
    ReachMore(Ticks(met, n), limits, h, Minutes(n), sweep);
    if n + 1 in met {
      ReachMore(Ticks(met, n) + [sweep], After(limits, sweep), h, Minutes(n + 1), check);
    }
  }

  lemma IdleTick(met: set<int>, limits: Limits, n: nat)
    requires n !in met && (1 in limits ==> Minutes(n) <= limits[1].expireAt)
    ensures TickLimits(met, limits, n) == limits && TickBonus(met, limits, n) == 0
  {
  }

  /** Ticks that neither meet the condition nor find the counter expired change nothing. */
  lemma {:induction false} IdleTicks(met: set<int>, limits: Limits, h: nat, from: nat, upTo: nat)
    requires from <= upTo && Reaches(Ticks(met, from), limits, h, Minutes(from))
    requires forall n | from < n <= upTo :: n !in met
    requires 1 in limits ==> Minutes(upTo) <= limits[1].expireAt
    ensures Reaches(Ticks(met, upTo), limits, h, Minutes(upTo))
    decreases upTo
  {
    hide Reaches, Ticks, TickLimits, TickBonus, Minutes;
    if from < upTo {
      MinutesGrow(upTo - 1, upTo);
      IdleTicks(met, limits, h, from, upTo - 1);
      IdleTick(met, limits, upTo);
      TickMore(met, limits, h, upTo - 1);
    }
  }

  lemma NoTicks(met: set<int>)
    ensures Reaches(Ticks(met, 0), map[], 0, 0)
  {
  }

  /** The minutes at which the condition is met: one early in the first window and five around its end. */
  const MET: set<int> := {2, 60, 61, 63, 64, 65}

  /** The first window is opened in minute 2 and used up in minutes 60 and 61; in minute 62 it has not expired yet. */
  lemma FirstWindow()
    ensures Reaches(Ticks(MET, 62), map[1 := Count(3, Minutes(62))], 2, Minutes(62))
  {
    hide Reaches, Ticks;
    NoTicks(MET);
    IdleTicks(MET, map[], 0, 0, 1);
    TickMore(MET, map[], 0, 1);
    IdleTicks(MET, map[1 := Count(1, Minutes(62))], 0, 2, 59);
    TickMore(MET, map[1 := Count(1, Minutes(62))], 0, 59);
    assert TickLimits(MET, map[1 := Count(1, Minutes(62))], 60) == map[1 := Count(2, Minutes(62))];
    TickMore(MET, map[1 := Count(2, Minutes(62))], 1, 60);
    assert TickLimits(MET, map[1 := Count(2, Minutes(62))], 61) == map[1 := Count(3, Minutes(62))];
    IdleTicks(MET, map[1 := Count(3, Minutes(62))], 2, 61, 62);
  }

  lemma SecondWindow()
    ensures Reaches(Ticks(MET, 65), map[1 := Count(3, Minutes(123))], 5, Minutes(65))
  {
    hide Reaches, Ticks;
    FirstWindow();
    TickMore(MET, map[1 := Count(3, Minutes(62))], 2, 62);
    assert TickLimits(MET, map[1 := Count(3, Minutes(62))], 63) == map[1 := Count(1, Minutes(123))];
    TickMore(MET, map[1 := Count(1, Minutes(123))], 3, 63);
    assert TickLimits(MET, map[1 := Count(1, Minutes(123))], 64) == map[1 := Count(2, Minutes(123))];
    TickMore(MET, map[1 := Count(2, Minutes(123))], 4, 64);
    assert TickLimits(MET, map[1 := Count(2, Minutes(123))], 65) == map[1 := Count(3, Minutes(123))];
  }

  /**
   * Five are reached by a driver that ticks every minute: two late grants of one window and three of the next, so
   * "3 per hour" is not a bound.
   */
  lemma FiveReached()
    ensures Nondecreasing(Ticks(MET, 65)) && InHour(GrantsOf(1, Ticks(MET, 65)), HOUR) == 5
  {
    hide Ticks, Run, GrantsOf, InHour;
    SecondWindow();
  }
}
