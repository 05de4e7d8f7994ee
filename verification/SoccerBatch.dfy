/** Settling windows as events come in gives what settling each window once, from its whole history, would give. */
module SoccerBatch {
  import opened Cs2Types
  import opened Planner
  import opened SoccerSettlement

  function After(b: Book, inputs: seq<Input>): (end: Book)
    requires Sound(b)
    ensures Sound(end)
  {
    if inputs == [] then b
    else
      var before := After(b, inputs[..|inputs| - 1]);
      StepIsSound(before, inputs[|inputs| - 1]);
      Step(before, inputs[|inputs| - 1])
  }

  function Announced(b: Book, inputs: seq<Input>): seq<Settlement>
    requires Sound(b)
  {
    if inputs == [] then []
    else Announced(b, inputs[..|inputs| - 1]) + Emitted(After(b, inputs[..|inputs| - 1]), inputs[|inputs| - 1])
  }

  lemma OneMore(b: Book, inputs: seq<Input>, input: Input)
    requires Sound(b)
    ensures After(b, inputs + [input]) == Step(After(b, inputs), input)
    ensures Announced(b, inputs + [input]) == Announced(b, inputs) + Emitted(After(b, inputs), input)
  {
    assert (inputs + [input])[..|inputs + [input]| - 1] == inputs;
  }

  lemma {:induction false} InTwo(b: Book, first: seq<Input>, second: seq<Input>)
    requires Sound(b)
    ensures After(b, first + second) == After(After(b, first), second)
    ensures Announced(b, first + second) == Announced(b, first) + Announced(After(b, first), second)
  {
    if second == [] {
      assert first + second == first;
    } else {
      var shorter, last := second[..|second| - 1], second[|second| - 1];
      InTwo(b, first, shorter);
      OneMoreOfTwo(b, first, shorter, last);
      Regroup(first, second);
    }
  }

  lemma Regroup(first: seq<Input>, second: seq<Input>)
    requires second != []
    ensures second == second[..|second| - 1] + [second[|second| - 1]]
    ensures first + second == first + second[..|second| - 1] + [second[|second| - 1]]
  {
  }

  lemma OneMoreOfTwo(b: Book, first: seq<Input>, shorter: seq<Input>, last: Input)
    requires Sound(b)
    requires After(b, first + shorter) == After(After(b, first), shorter)
    requires Announced(b, first + shorter) == Announced(b, first) + Announced(After(b, first), shorter)
    ensures After(b, first + shorter + [last]) == After(After(b, first), shorter + [last])
    ensures Announced(b, first + shorter + [last]) == Announced(b, first) + Announced(After(b, first), shorter + [last])
  {
    OneMore(b, first + shorter, last);
    OneMore(After(b, first), shorter, last);
    InThree(Announced(b, first), Announced(After(b, first), shorter), Emitted(After(After(b, first), shorter), last));
  }

  lemma InThree(a: seq<Settlement>, b: seq<Settlement>, c: seq<Settlement>)
    ensures a + (b + c) == a + b + c
  {
  }

  /** The settlements of one window. */
  function OfWindow(all: seq<Settlement>, w: int): seq<Settlement> {
    if all == [] then []
    else OfWindow(all[..|all| - 1], w) + if all[|all| - 1].windowStart == w then [all[|all| - 1]] else []
  }

  lemma {:induction false} OfWindowOfBoth(a: seq<Settlement>, b: seq<Settlement>, w: int)
    ensures OfWindow(a + b, w) == OfWindow(a, w) + OfWindow(b, w)
  {
    if b == [] {
      assert a + b == a;
    } else {
      OfWindowOfBoth(a, b[..|b| - 1], w);
      assert (a + b)[..|a + b| - 1] == a + b[..|b| - 1];
    }
  }

  // ----- the reference: one settlement from the whole history

  function EventsOf(inputs: seq<Input>): seq<LiveEvent> {
    if inputs == [] then []
    else EventsOf(inputs[..|inputs| - 1]) + if inputs[|inputs| - 1].Happened? then [inputs[|inputs| - 1].event] else []
  }

  /** After the lock, input `k` closes the window: the answer is a yes by then, or the clock is past the end. */
  predicate IsClosing(r: Round, rest: seq<Input>, k: nat) {
    && k < |rest|
    && (|| (rest[k].Happened? && Resolve(r.condition, EventsOf(rest[..k + 1])) == Yes)
        || (rest[k].Clock? && PastEnd(r, rest[k].tick)))
  }

  ghost predicate NoneBefore(r: Round, rest: seq<Input>, k: nat) {
    forall j: nat | j < k :: !IsClosing(r, rest, j)
  }

  function BatchVerdict(r: Round, rest: seq<Input>, k: nat): Settlement
    requires k < |rest|
  {
    Settlement(r.id, r.windowStart, Resolve(r.condition, EventsOf(rest[..k + 1])),
               if rest[k].Happened? then Early else WindowEnd)
  }

  /** The window is not locked anew after it closed; a repeated lock before that is harmless. */
  ghost predicate NotLockedAnew(r: Round, rest: seq<Input>) {
    forall k: nat, j: nat | k < j < |rest| && IsClosing(r, rest, k) ::
      !(rest[j].Lock? && rest[j].round.windowStart == r.windowStart)
  }

  // ----- one input and one window

  lemma {:induction false} VerdictsOfWindow(entries: map<int, Tracked>, ws: seq<int>, input: Input, w: int)
    requires Distinct(ws) && forall v | v in ws :: v in entries
    ensures OfWindow(Verdicts(entries, ws, input), w) == if w in ws then [Verdict(entries[w], w, input)] else []
  {
    if ws != [] {
      var shorter, last := ws[..|ws| - 1], ws[|ws| - 1];
      assert ws == shorter + [last];
      VerdictsOfWindow(entries, shorter, input, w);
      var all := Verdicts(entries, ws, input);
      assert all[..|all| - 1] == Verdicts(entries, shorter, input);
    }
  }

  lemma StepOnWindow(b: Book, input: Input, w: int)
    requires Sound(b) && w in b.entries
    ensures var t := Collect(b.entries[w], input);
            if Closes(t, input) then w !in Step(b, input).entries && OfWindow(Emitted(b, input), w) == [Verdict(t, w, input)]
            else w in Step(b, input).entries && Step(b, input).entries[w] == t && OfWindow(Emitted(b, input), w) == []
  {
    if !input.Lock? {
      var entries := Collected(b.entries, input);
      ClosedIsDistinct(entries, b.order, input);
      VerdictsOfWindow(entries, Closed(entries, b.order, input), input, w);
    }
  }

  lemma StepOffWindow(b: Book, input: Input, w: int)
    requires Sound(b) && w !in b.entries && !(input.Lock? && input.round.windowStart == w)
    ensures w !in Step(b, input).entries && OfWindow(Emitted(b, input), w) == []
  {
    if !input.Lock? {
      var entries := Collected(b.entries, input);
      ClosedIsDistinct(entries, b.order, input);
      VerdictsOfWindow(entries, Closed(entries, b.order, input), input, w);
    }
  }

  // ----- incremental equals batch

  lemma ClosingOfAPrefix(r: Round, rest: seq<Input>, n: nat, k: nat)
    requires k < n <= |rest|
    ensures IsClosing(r, rest[..n], k) == IsClosing(r, rest, k)
    ensures BatchVerdict(r, rest[..n], k) == BatchVerdict(r, rest, k)
  {
    assert rest[..n][..k + 1] == rest[..k + 1];
  }

  /** Where the engine stands with the window after `rest`. */
  ghost predicate Agrees(r: Round, rest: seq<Input>, entries: map<int, Tracked>, announced: seq<Settlement>) {
    var w := r.windowStart;
    && (NoneBefore(r, rest, |rest|) ==> w in entries && entries[w] == Tracked(r, EventsOf(rest)) && announced == [])
    && (forall k: nat | IsClosing(r, rest, k) && NoneBefore(r, rest, k) ::
          w !in entries && announced == [BatchVerdict(r, rest, k)])
  }

  lemma SomeInputIsFirst(r: Round, rest: seq<Input>, j: nat) returns (k: nat)
    requires IsClosing(r, rest, j)
    ensures k <= j && IsClosing(r, rest, k) && NoneBefore(r, rest, k)
  {
    if i: nat :| i < j && IsClosing(r, rest, i) { k := SomeInputIsFirst(r, rest, i); } else { k := j; }
  }

  /** The window was still open before the last input. */
  lemma OpenSoFar(r: Round, rest: seq<Input>, before: Book, told: seq<Settlement>)
    requires Sound(before) && rest != [] && NoneBefore(r, rest[..|rest| - 1], |rest| - 1)
    requires Agrees(r, rest[..|rest| - 1], before.entries, told)
    ensures var input := rest[|rest| - 1];
            Agrees(r, rest, Step(before, input).entries, told + OfWindow(Emitted(before, input), r.windowStart))
  {
    var n := |rest| - 1;
    forall k: nat | k < n ensures !IsClosing(r, rest, k) { ClosingOfAPrefix(r, rest, n, k); }
    StepOnWindow(before, rest[n], r.windowStart);
    LastInput(r, rest);
    var entries, more := Step(before, rest[n]).entries, OfWindow(Emitted(before, rest[n]), r.windowStart);
    assert told + more == more;
    if IsClosing(r, rest, n) {
      AgreesOnceClosed(r, rest, n, entries, more);
    } else {
      AgreesWhileOpen(r, rest, entries);
    }
  }

  lemma AgreesWhileOpen(r: Round, rest: seq<Input>, entries: map<int, Tracked>)
    requires NoneBefore(r, rest, |rest|)
    requires r.windowStart in entries && entries[r.windowStart] == Tracked(r, EventsOf(rest))
    ensures Agrees(r, rest, entries, [])
  {
  }

  /** The window had been closed before the last input. */
  lemma ClosedSoFar(r: Round, rest: seq<Input>, before: Book, told: seq<Settlement>, k: nat)
    requires Sound(before) && k < |rest| - 1 && IsClosing(r, rest, k) && NoneBefore(r, rest, k)
    requires Agrees(r, rest[..|rest| - 1], before.entries, told)
    requires !(rest[|rest| - 1].Lock? && rest[|rest| - 1].round.windowStart == r.windowStart)
    ensures var input := rest[|rest| - 1];
            Agrees(r, rest, Step(before, input).entries, told + OfWindow(Emitted(before, input), r.windowStart))
  {
    var n := |rest| - 1;
    ToldSoFar(r, rest, k, before.entries, told);
    StepOffWindow(before, rest[n], r.windowStart);
    AgreesOnceClosed(r, rest, k, Step(before, rest[n]).entries, told);
    assert told + [] == told;
  }

  lemma ToldSoFar(r: Round, rest: seq<Input>, k: nat, entries: map<int, Tracked>, told: seq<Settlement>)
    requires k < |rest| - 1 && IsClosing(r, rest, k) && NoneBefore(r, rest, k)
    requires Agrees(r, rest[..|rest| - 1], entries, told)
    ensures r.windowStart !in entries && told == [BatchVerdict(r, rest, k)]
  {
    var n := |rest| - 1;
    forall j: nat | j <= k ensures IsClosing(r, rest[..n], j) == IsClosing(r, rest, j) { ClosingOfAPrefix(r, rest, n, j); }
    ClosingOfAPrefix(r, rest, n, k);
  }

  lemma AgreesOnceClosed(r: Round, rest: seq<Input>, k: nat, entries: map<int, Tracked>, told: seq<Settlement>)
    requires IsClosing(r, rest, k) && NoneBefore(r, rest, k)
    requires r.windowStart !in entries && told == [BatchVerdict(r, rest, k)]
    ensures Agrees(r, rest, entries, told)
  {
    forall j: nat | IsClosing(r, rest, j) && NoneBefore(r, rest, j) ensures j == k { }
  }

  /** Each locked window settles at most once, with the answer of every event from its lock to the closing input. */
  lemma {:induction false} IncrementalEqualsBatch(b: Book, r: Round, rest: seq<Input>)
    requires Sound(b) && r.windowStart in b.entries && b.entries[r.windowStart] == Tracked(r, [])
    requires NotLockedAnew(r, rest)
    ensures Agrees(r, rest, After(b, rest).entries, OfWindow(Announced(b, rest), r.windowStart))
  {
    if rest != [] {
      var n := |rest| - 1;
      var shorter := rest[..n];
      PrefixNotLockedAnew(r, rest);
      IncrementalEqualsBatch(b, r, shorter);
      OfWindowOfBoth(Announced(b, shorter), Emitted(After(b, shorter), rest[n]), r.windowStart);
      if NoneBefore(r, shorter, n) {
        OpenSoFar(r, rest, After(b, shorter), OfWindow(Announced(b, shorter), r.windowStart));
      } else {
        var k := FirstOfPrefix(r, rest);
        ClosedSoFar(r, rest, After(b, shorter), OfWindow(Announced(b, shorter), r.windowStart), k);
      }
    }
  }

  lemma PrefixNotLockedAnew(r: Round, rest: seq<Input>)
    requires rest != [] && NotLockedAnew(r, rest)
    ensures NotLockedAnew(r, rest[..|rest| - 1])
  {
    var n := |rest| - 1;
    forall k: nat | k < n ensures IsClosing(r, rest[..n], k) == IsClosing(r, rest, k) { ClosingOfAPrefix(r, rest, n, k); }
  }

  lemma FirstOfPrefix(r: Round, rest: seq<Input>) returns (k: nat)
    requires rest != [] && !NoneBefore(r, rest[..|rest| - 1], |rest| - 1)
    ensures k < |rest| - 1 && IsClosing(r, rest, k) && NoneBefore(r, rest, k)
  {
    var n := |rest| - 1;
    var j: nat :| j < n && IsClosing(r, rest[..n], j);
    ClosingOfAPrefix(r, rest, n, j);
    k := SomeInputIsFirst(r, rest, j);
  }

  /** The last input closes an entry that holds the whole history exactly if it is closing by the reference. */
  lemma LastInput(r: Round, rest: seq<Input>)
    requires rest != []
    ensures var n := |rest| - 1;
            var t := Collect(Tracked(r, EventsOf(rest[..n])), rest[n]);
            && t == Tracked(r, EventsOf(rest))
            && Closes(t, rest[n]) == IsClosing(r, rest, n)
            && (Closes(t, rest[n]) ==> Verdict(t, r.windowStart, rest[n]) == BatchVerdict(r, rest, n))
  {
    assert rest[..|rest|] == rest;
  }

  lemma {:induction false} AYesClosed(r: Round, rest: seq<Input>) returns (k: nat)
    requires Resolve(r.condition, EventsOf(rest)) == Yes
    ensures k < |rest| && rest[k].Happened? && IsClosing(r, rest, k)
  {
    var n := |rest| - 1;
    assert rest[..|rest|] == rest;
    if Resolve(r.condition, EventsOf(rest[..n])) == Yes {
      k := AYesClosed(r, rest[..n]);
      ClosingOfAPrefix(r, rest, n, k);
    } else {
      k := n;
    }
  }

  /** An early settlement is a yes, one at the window's end a no. */
  lemma EarlyIsYesAndTheEndIsNo(r: Round, rest: seq<Input>, k: nat)
    requires IsClosing(r, rest, k) && NoneBefore(r, rest, k)
    ensures BatchVerdict(r, rest, k).answer == if rest[k].Happened? then Yes else No
  {
    if rest[k].Clock? && Resolve(r.condition, EventsOf(rest[..k + 1])) == Yes {
      var j := AYesClosed(r, rest[..k + 1]);
      ClosingOfAPrefix(r, rest, k + 1, j);
      assert false;
    }
  }
}
