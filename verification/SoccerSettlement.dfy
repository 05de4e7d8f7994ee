/** Incremental settlement of locked soccer windows (settlement/engine.ts, settlement/resolve.ts). */
module SoccerSettlement {
  import opened Cs2Types
  import opened Planner

  datatype Team = Home | Away | AnyTeam
  datatype EventKind = Goal | Shot | Corner | Card | Substitution | Penalty

  datatype Condition = Condition(kind: EventKind, team: Team, windowStart: int, windowEnd: int)

  /** `phase` is the period of the raw message the event came in; settlement never reads it. */
  datatype LiveEvent = LiveEvent(kind: EventKind, team: Team, minute: int, confirmed: bool, phase: Period)

  datatype Round = Round(id: Uuid, windowStart: int, windowEnd: int, condition: Condition)
  datatype Tracked = Tracked(round: Round, events: seq<LiveEvent>)
  datatype SettledBy = Early | WindowEnd
  datatype Settlement = Settlement(id: Uuid, windowStart: int, answer: Answer, settledBy: SettledBy)
  datatype Input = Lock(round: Round) | Happened(event: LiveEvent) | Clock(tick: ClockTick)

  /** The tracked rounds by window, and the order in which they were inserted. */
  datatype Book = Book(entries: map<int, Tracked>, order: seq<int>)

  const EMPTY := Book(map[], [])

  predicate Counts(c: Condition, e: LiveEvent) {
    && e.confirmed && e.kind == c.kind && (c.team == AnyTeam || e.team == c.team)
    && c.windowStart <= e.minute <= c.windowEnd
  }

  function Resolve(c: Condition, events: seq<LiveEvent>): Answer {
    if exists i | 0 <= i < |events| :: Counts(c, events[i]) then Yes else No
  }

  predicate Distinct(ws: seq<int>) { forall i, j | 0 <= i < j < |ws| :: ws[i] != ws[j] }

  ghost predicate Sound(b: Book) {
    && Distinct(b.order)
    && (forall w :: w in b.order <==> w in b.entries)
    && (forall w | w in b.entries :: b.entries[w].round.windowStart == w)
  }

  // ----- one input

  /** The clock is strictly past the window's last minute. */
  predicate PastEnd(r: Round, tick: ClockTick) {
    HasReachedMinute(tick, r.windowEnd + 1, RequiredPeriod(r.windowStart))
  }

  /** The entry with the input's event, if it has one. */
  function Collect(t: Tracked, input: Input): Tracked {
    if input.Happened? then t.(events := t.events + [input.event]) else t
  }

  /** All entries with the event pushed onto each. */
  function Collected(entries: map<int, Tracked>, input: Input): map<int, Tracked> {
    map w | w in entries :: Collect(entries[w], input)
  }

  predicate Closes(t: Tracked, input: Input) {
    || (input.Happened? && Resolve(t.round.condition, t.events) == Yes)
    || (input.Clock? && PastEnd(t.round, input.tick))
  }

  function Verdict(t: Tracked, w: int, input: Input): Settlement {
    if input.Happened? then Settlement(t.round.id, w, Yes, Early)
    else Settlement(t.round.id, w, Resolve(t.round.condition, t.events), WindowEnd)
  }

  /** The windows of `order` that the input closes. */
  function Closed(entries: map<int, Tracked>, order: seq<int>, input: Input): (ws: seq<int>)
    requires forall w | w in order :: w in entries
    ensures forall w :: w in ws <==> w in order && Closes(entries[w], input)
  {
    if order == [] then []
    else
      var before, w := order[..|order| - 1], order[|order| - 1];
      assert order == before + [w];
      Closed(entries, before, input) + if Closes(entries[w], input) then [w] else []
  }

  function Verdicts(entries: map<int, Tracked>, ws: seq<int>, input: Input): seq<Settlement>
    requires forall w | w in ws :: w in entries
  {
    if ws == [] then []
    else
      var w := ws[|ws| - 1];
      Verdicts(entries, ws[..|ws| - 1], input) + [Verdict(entries[w], w, input)]
  }

  /** The members of `order` that are still in `keys`. */
  function Kept(order: seq<int>, keys: set<int>): seq<int> {
    if order == [] then []
    else
      Kept(order[..|order| - 1], keys) + if order[|order| - 1] in keys then [order[|order| - 1]] else []
  }

  function StillOpen(entries: map<int, Tracked>, input: Input): map<int, Tracked> {
    map w | w in entries && !Closes(entries[w], input) :: entries[w]
  }

  function Step(b: Book, input: Input): Book
    requires Sound(b)
  {
    if input.Lock? then
      var w := input.round.windowStart;
      if w in b.entries then b
      else Book(b.entries[w := Tracked(input.round, [])], b.order + [w])
    else
      var entries := StillOpen(Collected(b.entries, input), input);
      Book(entries, Kept(b.order, entries.Keys))
  }

  function Emitted(b: Book, input: Input): seq<Settlement>
    requires Sound(b)
  {
    if input.Lock? then []
    else
      var entries := Collected(b.entries, input);
      Verdicts(entries, Closed(entries, b.order, input), input)
  }

  lemma {:induction false} KeptMembers(order: seq<int>, keys: set<int>)
    ensures forall w :: w in Kept(order, keys) <==> w in order && w in keys
  {
    if order != [] {
      assert order == order[..|order| - 1] + [order[|order| - 1]];
      KeptMembers(order[..|order| - 1], keys);
    }
  }

  lemma {:induction false} KeptIsDistinct(order: seq<int>, keys: set<int>)
    requires Distinct(order)
    ensures Distinct(Kept(order, keys))
  {
    if order != [] {
      KeptIsDistinct(order[..|order| - 1], keys);
      KeptMembers(order[..|order| - 1], keys);
    }
  }

  lemma {:induction false} KeptAgain(order: seq<int>, more: set<int>, fewer: set<int>)
    requires fewer <= more
    ensures Kept(Kept(order, more), fewer) == Kept(order, fewer)
  {
    if order != [] {
      KeptAgain(order[..|order| - 1], more, fewer);
      var w, rest := order[|order| - 1], Kept(order[..|order| - 1], more);
      if w in more { assert (rest + [w])[..|rest|] == rest; } else { assert rest + [] == rest; }
    }
  }

  lemma {:induction false} KeptAll(order: seq<int>, keys: set<int>)
    requires forall i | 0 <= i < |order| :: order[i] in keys
    ensures Kept(order, keys) == order
  {
    if order != [] { KeptAll(order[..|order| - 1], keys); }
  }

  lemma StepIsSound(b: Book, input: Input)
    requires Sound(b)
    ensures Sound(Step(b, input))
  {
    if !input.Lock? {
      KeptIsDistinct(b.order, StillOpen(Collected(b.entries, input), input).Keys);
      KeptMembers(b.order, StillOpen(Collected(b.entries, input), input).Keys);
    }
  }

  lemma {:induction false} ClosedIsDistinct(entries: map<int, Tracked>, order: seq<int>, input: Input)
    requires Distinct(order) && forall w | w in order :: w in entries
    ensures Distinct(Closed(entries, order, input))
  {
    if order != [] { ClosedIsDistinct(entries, order[..|order| - 1], input); }
  }

  // ----- the engine

  lemma ClosingAllLeavesTheOpen(entries: map<int, Tracked>, order: seq<int>, input: Input)
    requires forall w :: w in order <==> w in entries
    ensures entries - SetOf(Closed(entries, order, input)) == StillOpen(entries, input)
  {
    var left, open := entries - SetOf(Closed(entries, order, input)), StillOpen(entries, input);
    assert forall w :: w in left <==> w in open;
    assert left.Keys == open.Keys;
  }

  lemma CollectedWithoutEvent(entries: map<int, Tracked>, input: Input)
    requires !input.Happened?
    ensures Collected(entries, input) == entries
  {
    assert forall w | w in entries :: Collected(entries, input)[w] == entries[w];
  }

  lemma TakeOneMore(entries: map<int, Tracked>, ws: seq<int>, j: nat)
    requires j < |ws|
    ensures entries - SetOf(ws[..j]) - {ws[j]} == entries - SetOf(ws[..j + 1])
    ensures ws[..j + 1][..j] == ws[..j]
  {
    assert ws[..j + 1] == ws[..j] + [ws[j]];
    assert forall w :: w in ws[..j + 1] <==> w in ws[..j] || w == ws[j];
  }

  function SetOf(ws: seq<int>): set<int> { set w | w in ws }

  lemma CloseOneMore(entries: map<int, Tracked>, ws: seq<int>, input: Input, i: nat)
    requires i < |ws| && forall w | w in ws :: w in entries
    ensures Closed(entries, ws[..i + 1], input)
         == Closed(entries, ws[..i], input) + if Closes(entries[ws[i]], input) then [ws[i]] else []
  {
    assert ws[..i + 1][..i] == ws[..i];
  }

  /** The entries after the event went to the first `i` windows. */
  ghost predicate CollectedUpTo(start: map<int, Tracked>, ws: seq<int>, input: Input, i: nat, now: map<int, Tracked>)
    requires forall w :: w in ws <==> w in start
  {
    && now.Keys == start.Keys
    && forall j | 0 <= j < |ws| :: ws[j] in now && now[ws[j]] == if j < i then Collect(start[ws[j]], input) else start[ws[j]]
  }

  lemma NothingCollectedYet(start: map<int, Tracked>, ws: seq<int>, input: Input)
    requires forall w :: w in ws <==> w in start
    ensures CollectedUpTo(start, ws, input, 0, start)
  {
    forall j | 0 <= j < |ws| ensures ws[j] in start {
      var w := ws[j];
      assert w in ws;
    }
  }

  lemma CollectOneMore(start: map<int, Tracked>, ws: seq<int>, input: Input, i: nat, now: map<int, Tracked>)
    requires Distinct(ws) && i < |ws| && forall w :: w in ws <==> w in start
    requires CollectedUpTo(start, ws, input, i, now)
    ensures ws[i] in now && Collect(now[ws[i]], input) == Collected(start, input)[ws[i]]
    ensures CollectedUpTo(start, ws, input, i + 1, now[ws[i] := Collect(now[ws[i]], input)])
  {
  }

  lemma CollectedAll(start: map<int, Tracked>, ws: seq<int>, input: Input, now: map<int, Tracked>)
    requires forall w :: w in ws <==> w in start
    requires CollectedUpTo(start, ws, input, |ws|, now)
    ensures now == Collected(start, input)
  {
    forall w | w in start ensures now[w] == Collect(start[w], input) {
      var j :| 0 <= j < |ws| && ws[j] == w;
    }
  }

  /** The book and the announcements after the first `j` of the closed windows. */
  ghost predicate SettledUpTo(
    start: Book, ws: seq<int>, input: Input, j: nat, now: Book, told: seq<Settlement>)
    requires j <= |ws| && forall w | w in ws :: w in start.entries
  {
    && now.entries == start.entries - SetOf(ws[..j])
    && now.order == Kept(start.order, now.entries.Keys)
    && told == Verdicts(start.entries, ws[..j], input)
  }

  function AfterSettling(b: Book, w: int): Book {
    var left := b.entries - {w};
    Book(left, Kept(b.order, left.Keys))
  }

  lemma SettleOneMore(start: Book, ws: seq<int>, input: Input, j: nat, now: Book, told: seq<Settlement>)
    requires j < |ws| && Distinct(ws) && forall w | w in ws :: w in start.entries
    requires SettledUpTo(start, ws, input, j, now, told)
    ensures ws[j] in now.entries && now.entries[ws[j]] == start.entries[ws[j]]
    ensures SettledUpTo(start, ws, input, j + 1, AfterSettling(now, ws[j]),
                        told + [Verdict(start.entries[ws[j]], ws[j], input)])
  {
    assert ws[j] !in ws[..j];
    TakeOneMore(start.entries, ws, j);
    KeptAgain(start.order, now.entries.Keys, (now.entries - {ws[j]}).Keys);
  }

  lemma NothingSettledYet(start: Book, ws: seq<int>, input: Input)
    requires Sound(start) && forall w | w in ws :: w in start.entries
    ensures SettledUpTo(start, ws, input, 0, start, [])
  {
    forall i | 0 <= i < |start.order| ensures start.order[i] in start.entries.Keys { assert start.order[i] in start.order; }
    KeptAll(start.order, start.entries.Keys);
    assert SetOf(ws[..0]) == {};
  }

  lemma AllSettled(start: Book, ws: seq<int>, input: Input, now: Book, told: seq<Settlement>)
    requires Sound(start) && ws == Closed(start.entries, start.order, input)
    requires SettledUpTo(start, ws, input, |ws|, now, told)
    ensures now.entries == StillOpen(start.entries, input) && now.order == Kept(start.order, now.entries.Keys)
    ensures told == Verdicts(start.entries, ws, input)
  {
    assert ws[..|ws|] == ws;
    ClosingAllLeavesTheOpen(start.entries, start.order, input);
  }

  /** What settling the windows one after the other leaves, and announces; a window that is not tracked is passed over. */
  function SettleEach(b: Book, ws: seq<int>): Book
    decreases ws
  {
    if ws == [] then b
    else SettleEach(if ws[0] in b.entries then AfterSettling(b, ws[0]) else b, ws[1..])
  }

  function EachVerdict(b: Book, ws: seq<int>, input: Input): seq<Settlement>
    decreases ws
  {
    if ws == [] then []
    else if ws[0] in b.entries
    then [Verdict(b.entries[ws[0]], ws[0], input)] + EachVerdict(AfterSettling(b, ws[0]), ws[1..], input)
    else EachVerdict(b, ws[1..], input)
  }

  lemma {:induction false} SettlingOnToTheEnd(
    start: Book, ws: seq<int>, input: Input, j: nat, now: Book, told: seq<Settlement>)
    requires j <= |ws| && Distinct(ws) && forall w | w in ws :: w in start.entries
    requires SettledUpTo(start, ws, input, j, now, told)
    ensures SettledUpTo(start, ws, input, |ws|, SettleEach(now, ws[j..]), told + EachVerdict(now, ws[j..], input))
    decreases |ws| - j
  {
    if j == |ws| {
      assert ws[j..] == [] && told + [] == told;
    } else {
      SettleOneMore(start, ws, input, j, now, told);
      var one, rest := [Verdict(start.entries[ws[j]], ws[j], input)], EachVerdict(AfterSettling(now, ws[j]), ws[j + 1..], input);
      SettlingOnToTheEnd(start, ws, input, j + 1, AfterSettling(now, ws[j]), told + one);
      assert ws[j..][0] == ws[j] && ws[j..][1..] == ws[j + 1..];
      OneThenRest(told, one, rest);
    }
  }

  lemma SettleOneOn(b: Book, ws: seq<int>, input: Input, j: nat, told: seq<Settlement>)
    requires j < |ws|
    ensures var w := ws[j];
            if w in b.entries then
              && SettleEach(b, ws[j..]) == SettleEach(AfterSettling(b, w), ws[j + 1..])
              && told + EachVerdict(b, ws[j..], input)
                 == told + [Verdict(b.entries[w], w, input)] + EachVerdict(AfterSettling(b, w), ws[j + 1..], input)
            else
              && SettleEach(b, ws[j..]) == SettleEach(b, ws[j + 1..])
              && EachVerdict(b, ws[j..], input) == EachVerdict(b, ws[j + 1..], input)
  {
    assert ws[j..][0] == ws[j] && ws[j..][1..] == ws[j + 1..];
    if ws[j] in b.entries {
      OneThenRest(told, [Verdict(b.entries[ws[j]], ws[j], input)], EachVerdict(AfterSettling(b, ws[j]), ws[j + 1..], input));
    }
  }

  lemma OneThenRest(told: seq<Settlement>, one: seq<Settlement>, rest: seq<Settlement>)
    ensures told + (one + rest) == told + one + rest
  {
  }

  /** Settling all closed windows one by one is settling them at once. */
  lemma SettlingEachIsSettlingAll(start: Book, input: Input)
    requires Sound(start)
    ensures var ws := Closed(start.entries, start.order, input);
            var entries := StillOpen(start.entries, input);
            && SettleEach(start, ws) == Book(entries, Kept(start.order, entries.Keys))
            && EachVerdict(start, ws, input) == Verdicts(start.entries, ws, input)
  {
    var ws := Closed(start.entries, start.order, input);
    ClosedIsDistinct(start.entries, start.order, input);
    NothingSettledYet(start, ws, input);
    SettlingOnToTheEnd(start, ws, input, 0, start, []);
    assert ws[0..] == ws && [] + EachVerdict(start, ws, input) == EachVerdict(start, ws, input);
    AllSettled(start, ws, input, SettleEach(start, ws), EachVerdict(start, ws, input));
  }

  class SettlementEngine {
    var tracked: map<int, Tracked>
    var order: seq<int>
    /** What `onSettled` was told, in order. */
    var settled: seq<Settlement>

    function CurrentBook(): Book reads this { Book(tracked, order) }

    constructor ()
      ensures CurrentBook() == EMPTY && settled == []
    {
      tracked, order, settled := map[], [], [];
    }

    /** A repeated lock must not erase what was already collected. */
    method OnRoundLocked(round: Round)
      requires Sound(CurrentBook())
      modifies this
      ensures CurrentBook() == Step(old(CurrentBook()), Lock(round)) && Sound(CurrentBook())
      ensures settled == old(settled)
    {
      StepIsSound(CurrentBook(), Lock(round));
      if round.windowStart in tracked { return; }
      tracked := tracked[round.windowStart := Tracked(round, [])];
      order := order + [round.windowStart];
    }

    method Settle(windowStart: int, answer: Answer, settledBy: SettledBy)
      modifies this
      ensures windowStart !in old(tracked) ==> CurrentBook() == old(CurrentBook()) && settled == old(settled)
      ensures windowStart in old(tracked) ==>
        && tracked == old(tracked) - {windowStart} && order == Kept(old(order), tracked.Keys)
        && settled == old(settled) + [Settlement(old(tracked)[windowStart].round.id, windowStart, answer, settledBy)]
    {
      if windowStart !in tracked { return; }
      var round := tracked[windowStart].round;
      tracked := tracked - {windowStart};
      order := Kept(order, tracked.Keys);
      settled := settled + [Settlement(round.id, windowStart, answer, settledBy)];
    }

    method HandleEvent(event: LiveEvent)
      requires Sound(CurrentBook())
      modifies this
      ensures CurrentBook() == Step(old(CurrentBook()), Happened(event)) && Sound(CurrentBook())
      ensures settled == old(settled) + Emitted(old(CurrentBook()), Happened(event))
    {
      StepIsSound(CurrentBook(), Happened(event));
      var toSettle := CollectEvent(event);
      SettleAll(toSettle, Happened(event));
    }

    /** The first loop of the event handler: every window gets the event, those it proves are listed. */
    method CollectEvent(event: LiveEvent) returns (toSettle: seq<int>)
      requires Sound(CurrentBook())
      modifies this`tracked
      ensures tracked == Collected(old(tracked), Happened(event)) && Sound(CurrentBook())
      ensures toSettle == Closed(tracked, order, Happened(event))
    {
      ghost var input, start := Happened(event), tracked;
      ghost var collected := Collected(start, input);
      toSettle := [];
      NothingCollectedYet(start, order, input);
      for i := 0 to |order|
        invariant CollectedUpTo(start, order, input, i, tracked)
        invariant toSettle == Closed(collected, order[..i], input)
      {
        CollectOneMore(start, order, input, i, tracked);
        CloseOneMore(collected, order, input, i);
        var w := order[i];
        tracked := tracked[w := Tracked(tracked[w].round, tracked[w].events + [event])];
        if Resolve(tracked[w].round.condition, tracked[w].events) == Yes { toSettle := toSettle + [w]; }
      }
      assert order[..|order|] == order;
      CollectedAll(start, order, input, tracked);
    }

    method HandleClock(tick: ClockTick)
      requires Sound(CurrentBook())
      modifies this
      ensures CurrentBook() == Step(old(CurrentBook()), Clock(tick)) && Sound(CurrentBook())
      ensures settled == old(settled) + Emitted(old(CurrentBook()), Clock(tick))
    {
      var input := Clock(tick);
      StepIsSound(CurrentBook(), input);
      CollectedWithoutEvent(tracked, input);
      var toSettle: seq<int> := [];
      for i := 0 to |order|
        invariant CurrentBook() == old(CurrentBook()) && settled == old(settled)
        invariant toSettle == Closed(tracked, order[..i], input)
      {
        var round := tracked[order[i]].round;
        CloseOneMore(tracked, order, input, i);
        if HasReachedMinute(tick, round.windowEnd + 1, RequiredPeriod(round.windowStart)) { toSettle := toSettle + [order[i]]; }
      }
      assert order[..|order|] == order;
      SettleAll(toSettle, input);
    }

    /** The loop at the end of both handlers. */
    method SettleAll(toSettle: seq<int>, input: Input)
      requires Sound(CurrentBook()) && !input.Lock?
      requires toSettle == Closed(tracked, order, input)
      modifies this
      ensures tracked == StillOpen(old(tracked), input) && order == Kept(old(order), tracked.Keys)
      ensures settled == old(settled) + Verdicts(old(tracked), toSettle, input)
    {
      SettlingEachIsSettlingAll(CurrentBook(), input);
      for j := 0 to |toSettle|
        invariant SettleEach(CurrentBook(), toSettle[j..]) == SettleEach(old(CurrentBook()), toSettle)
        invariant settled + EachVerdict(CurrentBook(), toSettle[j..], input)
               == old(settled) + EachVerdict(old(CurrentBook()), toSettle, input)
      {
        SettleOneOn(CurrentBook(), toSettle, input, j, settled);
        SettleOne(toSettle[j], input);
      }
    }

    /** A yes proved early, or whatever the events say at the window's end. */
    method SettleOne(w: int, input: Input)
      requires !input.Lock?
      modifies this
      ensures w in old(tracked) ==>
        && CurrentBook() == AfterSettling(old(CurrentBook()), w)
        && settled == old(settled) + [Verdict(old(tracked)[w], w, input)]
      ensures w !in old(tracked) ==> CurrentBook() == old(CurrentBook()) && settled == old(settled)
    {
      if w !in tracked { return; }
      var verdict := if input.Happened? then Yes else Resolve(tracked[w].round.condition, tracked[w].events);
      Settle(w, verdict, if input.Happened? then Early else WindowEnd);
    }
  }
}
