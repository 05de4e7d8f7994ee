/** Which series will get an arena: one greedy pass instead of replaying the launcher (cs2/arena-forecast.ts). */
module ArenaForecast {
  import opened Cs2Types
  import opened NextSeries

  const MIN := 60000

  datatype Forecast = Running | Expected | Unlikely | Unknown | Ended | NoArena

  function ExpectedSeriesDurationMs(format: nat): nat {
    if format == 3 then 240 * MIN else if format == 5 then 360 * MIN else 90 * MIN * format
  }

  /** When the single slot frees; None while nothing holds it. */
  type FreeAt = Option<int>

  function Later(t: int, freeAt: FreeAt): int {
    if freeAt.Some? && freeAt.value > t then freeAt.value else t
  }

  /** The slot's next end if the series is run at the first chance. */
  function EndOf(c: Candidate, freeAt: FreeAt): int {
    Later(c.start, freeAt) + ExpectedSeriesDurationMs(c.format)
  }

  predicate HoldsSlot(c: Candidate, running: Option<Uuid>) {
    c.status.Active? && (c.hasArena || running == Some(c.seriesId))
  }

  /** The running series hold the slot until their expected end, or now if they run long. */
  function SlotFreeAt(cs: seq<Candidate>, now: int, running: Option<Uuid>): FreeAt {
    if cs == [] then None
    else
      var last, before := cs[|cs| - 1], SlotFreeAt(cs[..|cs| - 1], now, running);
      if HoldsSlot(last, running) then
        Some(Later(Later(last.start + ExpectedSeriesDurationMs(last.format), Some(now)), before))
      else before
  }

  // ----- the launcher's order, with the id as the last tie-break

  predicate Before(a: Candidate, b: Candidate) {
    CompareLaunchOrder(a, b) < 0 || (CompareLaunchOrder(a, b) == 0 && a.seriesId <= b.seriesId)
  }

  function Insert(c: Candidate, sorted: seq<Candidate>): seq<Candidate> {
    if sorted == [] || Before(c, sorted[0]) then [c] + sorted else [sorted[0]] + Insert(c, sorted[1..])
  }

  function Sort(cs: seq<Candidate>): seq<Candidate> {
    if cs == [] then [] else Insert(cs[0], Sort(cs[1..]))
  }

  function Waiting(cs: seq<Candidate>, taken: set<Uuid>): seq<Candidate> {
    if cs == [] then []
    else (if cs[0].seriesId in taken then [] else [cs[0]]) + Waiting(cs[1..], taken)
  }

  function RunningIds(cs: seq<Candidate>, running: Option<Uuid>): set<Uuid> {
    set c | c in cs && HoldsSlot(c, running) :: c.seriesId
  }

  function Queue(cs: seq<Candidate>, now: int, running: Option<Uuid>): seq<Candidate> {
    Sort(Eligible(Waiting(cs, RunningIds(cs, running)), now))
  }

  /** The launcher still takes a series whose start passed up to 30 minutes before the slot frees. */
  predicate StillInTime(c: Candidate, freeAt: FreeAt) {
    freeAt.None? || c.start + LATE_START_WINDOW_MS >= freeAt.value
  }

  /** The one-pass forecast: the queue's series that get the slot, in order. */
  function Greedy(queue: seq<Candidate>, freeAt: FreeAt): seq<Candidate> {
    if queue == [] then []
    else if StillInTime(queue[0], freeAt) then [queue[0]] + Greedy(queue[1..], Some(EndOf(queue[0], freeAt)))
    else Greedy(queue[1..], freeAt)
  }

  // ----- the launcher, replayed

  function Without(cs: seq<Candidate>, c: Candidate): seq<Candidate>
    requires c in cs
    ensures |Without(cs, c)| == |cs| - 1
  {
    if cs[0] == c then cs[1..] else [cs[0]] + Without(cs[1..], c)
  }

  /** What the launcher takes at time `t`, with the id in place of the random draw. */
  function Taken(cs: seq<Candidate>, t: int): (taken: Option<Candidate>)
    ensures taken.Some? ==> taken.value in cs
  {
    LauncherTakesTheFirst(cs, t, id => id);
    var choice := SelectNextSeries(cs, t, id => id);
    if choice.NoSeries? then None else Some(choice.series)
  }

  /** Each time the slot is expected to free, the launcher takes its choice among those not launched yet. */
  function Replay(cs: seq<Candidate>, freeAt: FreeAt, now: int): seq<Candidate>
    decreases |cs|
  {
    var taken := Taken(cs, Later(now, freeAt));
    if taken.None? then []
    else [taken.value] + Replay(Without(cs, taken.value), Some(EndOf(taken.value, freeAt)), now)
  }

  // ----- the two agree

  ghost predicate Sorted(cs: seq<Candidate>) {
    forall i, j | 0 <= i < j < |cs| :: Before(cs[i], cs[j])
  }

  ghost predicate DistinctIds(cs: seq<Candidate>) {
    forall i, j | 0 <= i < j < |cs| :: cs[i].seriesId != cs[j].seriesId
  }

  lemma {:induction false} InsertMembers(c: Candidate, sorted: seq<Candidate>)
    ensures forall d :: d in Insert(c, sorted) <==> d == c || d in sorted
    ensures multiset(Insert(c, sorted)) == multiset(sorted) + multiset{c}
  {
    if sorted != [] && !Before(c, sorted[0]) {
      InsertMembers(c, sorted[1..]);
      assert sorted == [sorted[0]] + sorted[1..];
    }
  }

  lemma {:induction false} InsertMeans(c: Candidate, sorted: seq<Candidate>)
    requires Sorted(sorted)
    ensures Sorted(Insert(c, sorted))
    ensures forall d :: d in Insert(c, sorted) <==> d == c || d in sorted
    ensures multiset(Insert(c, sorted)) == multiset(sorted) + multiset{c}
  {
    InsertMembers(c, sorted);
    if sorted != [] && !Before(c, sorted[0]) {
      InsertMeans(c, sorted[1..]);
      var inserted := Insert(c, sorted[1..]);
      forall i | 0 <= i < |inserted| ensures Before(sorted[0], inserted[i]) {
        assert inserted[i] in inserted;
        if inserted[i] != c {
          var k :| 0 <= k < |sorted[1..]| && sorted[1..][k] == inserted[i];
          assert sorted[k + 1] == inserted[i];
        }
      }
    } else if sorted != [] {
      forall i | 0 <= i < |sorted| ensures Before(c, sorted[i]) {
        if i > 0 { assert Before(sorted[0], sorted[i]); }
      }
    }
  }

  lemma {:induction false} SortMeans(cs: seq<Candidate>)
    ensures Sorted(Sort(cs)) && multiset(Sort(cs)) == multiset(cs)
    ensures forall d :: d in Sort(cs) <==> d in cs
  {
    if cs != [] {
      SortMeans(cs[1..]);
      InsertMeans(cs[0], Sort(cs[1..]));
      assert cs == [cs[0]] + cs[1..];
    }
  }

  lemma {:induction false} WithoutMeans(cs: seq<Candidate>, c: Candidate)
    requires c in cs && DistinctIds(cs)
    ensures DistinctIds(Without(cs, c))
    ensures forall d :: d in Without(cs, c) <==> d in cs && d != c
  {
    if cs[0] != c {
      WithoutMeans(cs[1..], c);
      var rest := Without(cs[1..], c);
      forall i | 0 <= i < |rest| ensures rest[i].seriesId != cs[0].seriesId {
        assert rest[i] in rest;
        var k :| 0 <= k < |cs[1..]| && cs[1..][k] == rest[i];
      }
    } else {
      assert forall d :: d in cs <==> d == c || d in cs[1..];
      assert forall i | 0 <= i < |cs[1..]| :: cs[1..][i] == cs[i + 1] != c;
    }
  }

  lemma SameIdSameSeries(cs: seq<Candidate>, a: Candidate, b: Candidate)
    requires DistinctIds(cs) && a in cs && b in cs && a.seriesId == b.seriesId
    ensures a == b
  {
    var i :| 0 <= i < |cs| && cs[i] == a;
    var j :| 0 <= j < |cs| && cs[j] == b;
  }

  /** At any time the launcher takes the queue's head if that is still in time, given that the queue covers all in time. */
  lemma {:induction false} HeadIsTaken(queue: seq<Candidate>, cs: seq<Candidate>, t: int)
    requires queue != [] && Sorted(queue) && DistinctIds(cs)
    requires queue[0] in cs && IsLaunchCandidate(queue[0], t)
    requires forall c | c in cs && IsLaunchCandidate(c, t) :: c in queue
    ensures Taken(cs, t) == Some(queue[0])
  {
    LauncherTakesTheFirst(cs, t, id => id);
    var taken := Taken(cs, t).value;
    var k :| 0 <= k < |queue| && queue[k] == taken;
    assert Before(queue[0], taken) || k == 0;
    assert !GoesFirst(queue[0], taken, id => id);
    SameIdSameSeries(cs, queue[0], taken);
  }

  lemma {:induction false} GreedyIsReplay(queue: seq<Candidate>, cs: seq<Candidate>, freeAt: FreeAt, now: int)
    requires Sorted(queue) && DistinctIds(queue) && DistinctIds(cs)
    requires forall c | c in queue :: c in cs && IsLaunchCandidate(c, now)
    requires forall c | c in cs && IsLaunchCandidate(c, Later(now, freeAt)) :: c in queue
    ensures Greedy(queue, freeAt) == Replay(cs, freeAt, now)
    decreases |queue|
  {
    var t := Later(now, freeAt);
    LauncherTakesTheFirst(cs, t, id => id);
    if queue == [] {
      assert Taken(cs, t).None?;
    } else {
      var head, rest := queue[0], queue[1..];
      assert forall c :: c in queue <==> c == head || c in rest;
      assert head in queue;
      if StillInTime(head, freeAt) {
        HeadIsTaken(queue, cs, t);
        WithoutMeans(cs, head);
        forall c | c in rest ensures c != head {
          var k :| 0 <= k < |rest| && rest[k] == c;
          assert queue[k + 1] == c;
        }
        GreedyIsReplay(rest, Without(cs, head), Some(EndOf(head, freeAt)), now);
      } else {
        GreedyIsReplay(rest, cs, freeAt, now);
      }
    }
  }

  lemma {:induction false} WaitingMeans(cs: seq<Candidate>, taken: set<Uuid>)
    ensures forall c :: c in Waiting(cs, taken) <==> c in cs && c.seriesId !in taken
    ensures DistinctIds(cs) ==> DistinctIds(Waiting(cs, taken))
  {
    if cs != [] {
      WaitingMeans(cs[1..], taken);
      var rest := Waiting(cs[1..], taken);
      if DistinctIds(cs) {
        forall i | 0 <= i < |rest| ensures rest[i].seriesId != cs[0].seriesId {
          assert rest[i] in rest;
          var k :| 0 <= k < |cs[1..]| && cs[1..][k] == rest[i];
        }
      }
    }
  }

  lemma {:induction false} EligibleDistinct(cs: seq<Candidate>, now: int)
    requires DistinctIds(cs)
    ensures DistinctIds(Eligible(cs, now))
  {
    if cs != [] {
      EligibleDistinct(cs[1..], now);
      EligibleMeans(cs[1..], now);
      var rest := Eligible(cs[1..], now);
      forall i | 0 <= i < |rest| ensures rest[i].seriesId != cs[0].seriesId {
        assert rest[i] in rest;
        var k :| 0 <= k < |cs[1..]| && cs[1..][k] == rest[i];
      }
    }
  }

  lemma {:induction false} SortDistinct(cs: seq<Candidate>)
    requires DistinctIds(cs)
    ensures DistinctIds(Sort(cs))
  {
    SortMeans(cs);
    var sorted := Sort(cs);
    forall i, j | 0 <= i < j < |sorted| ensures sorted[i].seriesId != sorted[j].seriesId {
      if sorted[i].seriesId == sorted[j].seriesId {
        assert sorted[i] in sorted && sorted[j] in sorted;
        SameIdSameSeries(cs, sorted[i], sorted[j]);
        CountTwice(sorted, i, j);
        CountOnce(cs, sorted[i]);
      }
    }
  }

  lemma CountTwice(xs: seq<Candidate>, i: nat, j: nat)
    requires i < j < |xs| && xs[i] == xs[j]
    ensures multiset(xs)[xs[i]] >= 2
  {
    assert xs == xs[..i] + [xs[i]] + xs[i + 1..j] + [xs[j]] + xs[j + 1..];
  }

  lemma {:induction false} CountOnce(cs: seq<Candidate>, c: Candidate)
    requires DistinctIds(cs)
    ensures multiset(cs)[c] <= 1
  {
    if cs != [] {
      CountOnce(cs[1..], c);
      assert cs == [cs[0]] + cs[1..];
      assert forall k | 0 <= k < |cs[1..]| :: cs[1..][k] == cs[k + 1];
      assert cs[0] !in cs[1..];
    }
  }

  /** The series the forecast expects are, in order, those the launcher would take, run after run. */
  lemma {:induction false} ForecastIsTheLauncherReplayed(cs: seq<Candidate>, now: int, running: Option<Uuid>)
    requires DistinctIds(cs)
    ensures Greedy(Queue(cs, now, running), SlotFreeAt(cs, now, running))
            == Replay(Waiting(cs, RunningIds(cs, running)), SlotFreeAt(cs, now, running), now)
  {
    var waiting := Waiting(cs, RunningIds(cs, running));
    WaitingMeans(cs, RunningIds(cs, running));
    EligibleMeans(waiting, now);
    EligibleDistinct(waiting, now);
    SortMeans(Eligible(waiting, now));
    SortDistinct(Eligible(waiting, now));
    GreedyIsReplay(Queue(cs, now, running), waiting, SlotFreeAt(cs, now, running), now);
  }

  // ----- the slots

  /** When each expected series would hold the slot. */
  function Slots(expected: seq<Candidate>, freeAt: FreeAt): (slots: seq<(int, int)>)
    ensures |slots| == |expected|
  {
    if expected == [] then []
    else [(Later(expected[0].start, freeAt), EndOf(expected[0], freeAt))] + Slots(expected[1..], Some(EndOf(expected[0], freeAt)))
  }

  predicate FitsSlot(c: Candidate, slot: (int, int), freeAt: FreeAt) {
    && c.start <= slot.0 <= c.start + LATE_START_WINDOW_MS
    && slot.1 == slot.0 + ExpectedSeriesDurationMs(c.format)
    && (freeAt.Some? ==> freeAt.value <= slot.0)
  }

  ghost predicate AllFit(cs: seq<Candidate>, slots: seq<(int, int)>, freeAt: FreeAt) {
    |cs| == |slots| && forall i | 0 <= i < |slots| :: FitsSlot(cs[i], slots[i], freeAt)
  }

  ghost predicate Disjoint(slots: seq<(int, int)>) {
    forall i, j | 0 <= i < j < |slots| :: slots[i].1 <= slots[j].0
  }

  lemma FirstSlotFits(c: Candidate, cs: seq<Candidate>, slot: (int, int), slots: seq<(int, int)>, freeAt: FreeAt)
    requires FitsSlot(c, slot, freeAt) && AllFit(cs, slots, Some(slot.1)) && Disjoint(slots)
    ensures AllFit([c] + cs, [slot] + slots, freeAt) && Disjoint([slot] + slots)
  {
    forall i | 0 <= i < |slots| ensures FitsSlot(cs[i], slots[i], freeAt) && slot.1 <= slots[i].0 {
      assert FitsSlot(cs[i], slots[i], Some(slot.1));
    }
  }

  /** The slots follow one another without overlap, after the running series, each at most 30 minutes late. */
  lemma {:induction false} SlotsAreDisjoint(queue: seq<Candidate>, freeAt: FreeAt)
    ensures var expected := Greedy(queue, freeAt);
            AllFit(expected, Slots(expected, freeAt), freeAt) && Disjoint(Slots(expected, freeAt))
  {
    if queue != [] {
      if StillInTime(queue[0], freeAt) {
        var end := EndOf(queue[0], freeAt);
        SlotsAreDisjoint(queue[1..], Some(end));
        var rest := Greedy(queue[1..], Some(end));
        assert ([queue[0]] + rest)[1..] == rest;
        FirstSlotFits(queue[0], rest, (Later(queue[0].start, freeAt), end), Slots(rest, Some(end)), freeAt);
      } else {
        SlotsAreDisjoint(queue[1..], freeAt);
      }
    }
  }

  // ----- the labels

  function Ids(cs: seq<Candidate>): set<Uuid> { set c | c in cs :: c.seriesId }

  /** The label of one candidate, given the ids the queue holds and those expected to get the slot. */
  function LabelOf(c: Candidate, now: int, running: set<Uuid>, queued: set<Uuid>, expected: set<Uuid>): Forecast {
    if c.seriesId in running then Running
    else if c.seriesId in expected then Expected
    else if c.seriesId in queued then Unlikely
    else if c.hasArena then Ended
    else if c.status.Active? && !c.skipRequested && c.start >= now - LATE_START_WINDOW_MS then Unknown
    else NoArena
  }

  /** The three passes of the source; every candidate ends with exactly the label of its class. */
  method ForecastArenas(cs: seq<Candidate>, now: int, autopilotEnabled: bool, running: Option<Uuid>)
    returns (forecast: map<Uuid, Forecast>)
    requires DistinctIds(cs)
    ensures forecast.Keys == Ids(cs)
    ensures var queue := Queue(cs, now, running);
            var expected := if autopilotEnabled then Greedy(queue, SlotFreeAt(cs, now, running)) else [];
            forall c | c in cs :: forecast[c.seriesId] == LabelOf(c, now, RunningIds(cs, running), Ids(queue), Ids(expected))
  {
    var freeAt;
    forecast, freeAt := LabelRunning(cs, now, running);
    var queue := Queue(cs, now, running);
    QueueMeans(cs, now, running);
    GreedyIds(queue, freeAt);
    forecast := LabelQueue(queue, freeAt, autopilotEnabled, forecast);
    ghost var expected := if autopilotEnabled then Greedy(queue, freeAt) else [];
    ghost var labelled := forecast;
    forecast := LabelRest(cs, now, forecast);
    forall c | c in cs
      ensures forecast[c.seriesId] == LabelOf(c, now, RunningIds(cs, running), Ids(queue), Ids(expected))
    {
      assert c.seriesId in Ids(cs);
      if c.seriesId in RunningIds(cs, running) {
        assert c.seriesId !in Ids(queue);
      }
    }
    assert Ids(queue) <= Ids(cs);
    assert RunningIds(cs, running) <= Ids(cs);
  }

  method LabelRunning(cs: seq<Candidate>, now: int, running: Option<Uuid>)
    returns (forecast: map<Uuid, Forecast>, freeAt: FreeAt)
    ensures freeAt == SlotFreeAt(cs, now, running)
    ensures forecast.Keys == RunningIds(cs, running) && forall id | id in forecast :: forecast[id] == Running
  {
    freeAt, forecast := None, map[];
    for i := 0 to |cs|
      invariant freeAt == SlotFreeAt(cs[..i], now, running)
      invariant forecast.Keys == RunningIds(cs[..i], running)
      invariant forall id | id in forecast :: forecast[id] == Running
    {
      assert cs[..i + 1][..i] == cs[..i];
      var c := cs[i];
      if HoldsSlot(c, running) {
        forecast := forecast[c.seriesId := Running];
        freeAt := Some(Later(Later(c.start + ExpectedSeriesDurationMs(c.format), Some(now)), freeAt));
      }
    }
    assert cs[..|cs|] == cs;
  }

  /** The queue pass: the slot is handed on while series are in time for it. */
  method LabelQueue(queue: seq<Candidate>, free: FreeAt, autopilotEnabled: bool, before: map<Uuid, Forecast>)
    returns (forecast: map<Uuid, Forecast>)
    requires DistinctIds(queue)
    ensures forecast.Keys == before.Keys + Ids(queue)
    ensures var expected := if autopilotEnabled then Greedy(queue, free) else [];
            && (forall id | id in Ids(queue) :: forecast[id] == if id in Ids(expected) then Expected else Unlikely)
            && (forall id | id in before && id !in Ids(queue) :: forecast[id] == before[id])
  {
    forecast := before;
    var freeAt := free;
    ghost var expected: seq<Candidate> := [];
    for i := 0 to |queue|
      invariant if autopilotEnabled then Greedy(queue, free) == expected + Greedy(queue[i..], freeAt) else expected == []
      invariant Labelled(forecast, before, Ids(queue[..i]), Ids(expected))
    {
      var c := queue[i];
      NextInQueue(queue, i);
      GreedyStep(queue, i, expected, freeAt);
      LabelOne(forecast, before, Ids(queue[..i]), Ids(expected), c.seriesId);
      if autopilotEnabled && StillInTime(c, freeAt) {
        forecast := forecast[c.seriesId := Expected];
        expected := expected + [c];
        freeAt := Some(EndOf(c, freeAt));
      } else {
        forecast := forecast[c.seriesId := Unlikely];
      }
    }
    assert queue[..|queue|] == queue && queue[|queue|..] == [];
    assert autopilotEnabled ==> expected == Greedy(queue, free);
  }

  /** The ids in `seen` are labelled by whether they are in `expected`; the rest is as before. */
  ghost predicate Labelled(
    forecast: map<Uuid, Forecast>, before: map<Uuid, Forecast>, seen: set<Uuid>, expected: set<Uuid>)
  {
    && expected <= seen && forecast.Keys == before.Keys + seen
    && (forall id | id in seen :: forecast[id] == if id in expected then Expected else Unlikely)
    && (forall id | id in before && id !in seen :: forecast[id] == before[id])
  }

  lemma LabelOne(
    forecast: map<Uuid, Forecast>, before: map<Uuid, Forecast>, seen: set<Uuid>, expected: set<Uuid>, id: Uuid)
    requires Labelled(forecast, before, seen, expected) && id !in seen
    ensures Labelled(forecast[id := Expected], before, seen + {id}, expected + {id})
    ensures Labelled(forecast[id := Unlikely], before, seen + {id}, expected)
  {
  }

  lemma GreedyStep(queue: seq<Candidate>, i: nat, expected: seq<Candidate>, freeAt: FreeAt)
    requires i < |queue|
    ensures expected + Greedy(queue[i..], freeAt)
            == if StillInTime(queue[i], freeAt)
               then (expected + [queue[i]]) + Greedy(queue[i + 1..], Some(EndOf(queue[i], freeAt)))
               else expected + Greedy(queue[i + 1..], freeAt)
    ensures Ids(expected + [queue[i]]) == Ids(expected) + {queue[i].seriesId}
  {
    assert queue[i..][0] == queue[i] && queue[i..][1..] == queue[i + 1..];
  }

  lemma NextInQueue(queue: seq<Candidate>, i: nat)
    requires DistinctIds(queue) && i < |queue|
    ensures Ids(queue[..i + 1]) == Ids(queue[..i]) + {queue[i].seriesId}
    ensures queue[i].seriesId !in Ids(queue[..i])
  {
    assert queue[..i + 1] == queue[..i] + [queue[i]];
  }

  /** Series that neither run nor wait in the queue: over, not selectable yet, or out for good. */
  method LabelRest(cs: seq<Candidate>, now: int, before: map<Uuid, Forecast>) returns (forecast: map<Uuid, Forecast>)
    requires DistinctIds(cs)
    ensures forecast.Keys == before.Keys + Ids(cs)
    ensures forall id | id in before :: forecast[id] == before[id]
    ensures forall c | c in cs && c.seriesId !in before :: forecast[c.seriesId] == LabelOf(c, now, {}, {}, {})
  {
    forecast := before;
    for i := 0 to |cs|
      invariant forecast.Keys == before.Keys + Ids(cs[..i])
      invariant forall id | id in before :: forecast[id] == before[id]
      invariant forall j | 0 <= j < i && cs[j].seriesId !in before ::
                  forecast[cs[j].seriesId] == LabelOf(cs[j], now, {}, {}, {})
    {
      var c := cs[i];
      NextInQueue(cs, i);
      if c.seriesId !in forecast {
        if c.hasArena {
          forecast := forecast[c.seriesId := Ended];
        } else {
          var open := c.status.Active? && !c.hasArena && !c.skipRequested && c.start >= now - LATE_START_WINDOW_MS;
          forecast := forecast[c.seriesId := if open then Unknown else NoArena];
        }
      }
    }
    assert cs[..|cs|] == cs;
  }

  lemma {:induction false} GreedyIds(queue: seq<Candidate>, freeAt: FreeAt)
    ensures forall c | c in Greedy(queue, freeAt) :: c in queue
    ensures Ids(Greedy(queue, freeAt)) <= Ids(queue)
  {
    if queue != [] {
      GreedyIds(queue[1..], Some(EndOf(queue[0], freeAt)));
      GreedyIds(queue[1..], freeAt);
    }
  }

  /** The queue holds exactly the launch candidates whose series is not running. */
  lemma {:induction false} QueueMeans(cs: seq<Candidate>, now: int, running: Option<Uuid>)
    requires DistinctIds(cs)
    ensures var queue := Queue(cs, now, running);
            && DistinctIds(queue)
            && (forall c :: c in queue <==> c in cs && c.seriesId !in RunningIds(cs, running) && IsLaunchCandidate(c, now))
            && Ids(queue) * RunningIds(cs, running) == {}
  {
    var waiting := Waiting(cs, RunningIds(cs, running));
    WaitingMeans(cs, RunningIds(cs, running));
    EligibleMeans(waiting, now);
    EligibleDistinct(waiting, now);
    SortMeans(Eligible(waiting, now));
    SortDistinct(Eligible(waiting, now));
  }
}
