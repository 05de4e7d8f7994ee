/** The arena leaderboard: scores, statuses and the finish rule (leaderboard/service.ts). */
module Leaderboard {
  import opened Cs2Types
  import opened RoundOutcome

  /** `eliminatedRound` is the round that removed the player; unset while active and for winners. */
  datatype Row = Row(status: PlayerStatus, score: nat, missed: nat, eliminatedRound: Option<int>)

  const NEW_ROW := Row(Active, 0, 0, None)

  /** `order` is the insertion order of the source's map of rows. */
  datatype Board = Board(rows: map<Uuid, Row>, order: seq<Uuid>, finished: bool)

  function AddRow(b: Board, userId: Uuid): Board {
    if b.finished || userId in b.rows then b
    else b.(rows := b.rows[userId := NEW_ROW], order := b.order + [userId])
  }

  function Seat(b: Board, roster: seq<Uuid>): Board {
    if roster == [] then b else AddRow(Seat(b, roster[..|roster| - 1]), roster[|roster| - 1])
  }

  function ApplyResult(row: Row, r: PlayerResult, n: int): Row {
    row.(score := row.score + r.points,
         missed := row.missed + (if r.result.Missed? then 1 else 0),
         status := r.status,
         eliminatedRound := if r.status.Eliminated? then Some(n) else row.eliminatedRound)
  }

  /** The rows after the results in order; results of unknown players are skipped. */
  function ApplyResults(rows: map<Uuid, Row>, results: seq<PlayerResult>, n: int): map<Uuid, Row> {
    if results == [] then rows
    else
      var before := ApplyResults(rows, results[..|results| - 1], n);
      var r := results[|results| - 1];
      if r.userId in before then before[r.userId := ApplyResult(before[r.userId], r, n)] else before
  }

  function ActiveIds(b: Board): seq<Uuid> { ActiveAmong(b.rows, b.order) }

  function ActiveAmong(rows: map<Uuid, Row>, order: seq<Uuid>): seq<Uuid> {
    if order == [] then []
    else
      var last := order[|order| - 1];
      ActiveAmong(rows, order[..|order| - 1]) + if last in rows && rows[last].status.Active? then [last] else []
  }

  function Crown(rows: map<Uuid, Row>, finalists: seq<Uuid>): map<Uuid, Row> {
    map u | u in rows :: if u in finalists then rows[u].(status := Winner, eliminatedRound := None) else rows[u]
  }

  function FinishBoard(b: Board, finalists: seq<Uuid>): (Board, Option<seq<Uuid>>) {
    (b.(rows := Crown(b.rows, finalists), finished := true), Some(finalists))
  }

  /** One survivor wins; when a round removes everybody, all who stood before it win. */
  function SettleBoard(b: Board, results: seq<PlayerResult>, n: int): (Board, Option<seq<Uuid>>) {
    if results == [] || b.finished then (b, None)
    else
      var settled := b.(rows := ApplyResults(b.rows, results, n));
      var after := ActiveIds(settled);
      if |after| == 1 then FinishBoard(settled, after)
      else if |after| == 0 then FinishBoard(settled, ActiveIds(b))
      else (settled, None)
  }

  function FinalizeBoard(b: Board): (Board, Option<seq<Uuid>>) {
    if b.finished then (b, None) else FinishBoard(b, ActiveIds(b))
  }

  ghost predicate NoDuplicates(xs: seq<Uuid>) {
    forall i, j | 0 <= i < j < |xs| :: xs[i] != xs[j]
  }

  ghost predicate WellFormed(b: Board) {
    && NoDuplicates(b.order)
    && (forall u :: u in b.order <==> u in b.rows)
  }

  lemma {:induction false} ActiveAmongMeans(rows: map<Uuid, Row>, order: seq<Uuid>)
    ensures forall u :: u in ActiveAmong(rows, order) <==> u in order && u in rows && rows[u].status.Active?
    ensures NoDuplicates(order) ==> NoDuplicates(ActiveAmong(rows, order))
  {
    if order != [] {
      var shorter, last := order[..|order| - 1], order[|order| - 1];
      ActiveAmongMeans(rows, shorter);
      assert order == shorter + [last];
    }
  }

  ghost predicate DistinctPlayers(results: seq<PlayerResult>) {
    forall i, j | 0 <= i < j < |results| :: results[i].userId != results[j].userId
  }

  /** With one result per player, each row takes exactly its own player's result. */
  lemma {:induction false} ApplyResultsPointwise(rows: map<Uuid, Row>, results: seq<PlayerResult>, n: int)
    requires DistinctPlayers(results)
    ensures var applied := ApplyResults(rows, results, n);
            && applied.Keys == rows.Keys
            && (forall i | 0 <= i < |results| && results[i].userId in rows ::
                  applied[results[i].userId] == ApplyResult(rows[results[i].userId], results[i], n))
            && (forall u | u in rows && (forall i | 0 <= i < |results| :: results[i].userId != u) :: applied[u] == rows[u])
  {
    if results != [] {
      ApplyResultsPointwise(rows, results[..|results| - 1], n);
    }
  }

  class LeaderboardService {
    var rows: map<Uuid, Row>
    var order: seq<Uuid>
    var pendingByRound: map<int, seq<PlayerResult>>
    var finished: bool

    ghost function Model(): Board reads this { Board(rows, order, finished) }

    constructor (roster: seq<Uuid>)
      ensures Model() == Seat(Board(map[], [], false), roster)
      ensures pendingByRound == map[]
    {
      rows, order, pendingByRound, finished := map[], [], map[], false;
      new;
      for i := 0 to |roster|
        invariant Model() == Seat(Board(map[], [], false), roster[..i])
        invariant pendingByRound == map[] && !finished
      {
        assert roster[..i + 1][..i] == roster[..i];
        if roster[i] !in rows {
          rows, order := rows[roster[i] := NEW_ROW], order + [roster[i]];
        }
      }
      assert roster[..|roster|] == roster;
    }

    method AddPlayer(userId: Uuid)
      modifies this
      ensures Model() == AddRow(old(Model()), userId)
      ensures pendingByRound == old(pendingByRound)
    {
      if finished || userId in rows { return; }
      rows, order := rows[userId := NEW_ROW], order + [userId];
    }

    function PendingFor(n: int): seq<PlayerResult> reads this {
      if n in pendingByRound then pendingByRound[n] else []
    }

    method OnPlayerResult(n: int, result: PlayerResult)
      modifies this`pendingByRound
      ensures pendingByRound == old(pendingByRound)[n := old(PendingFor(n)) + [result]]
    {
      var pending := if n in pendingByRound then pendingByRound[n] else [];
      pendingByRound := pendingByRound[n := pending + [result]];
    }

    method ActiveRows() returns (active: seq<Uuid>)
      ensures active == ActiveIds(Model())
    {
      active := [];
      for i := 0 to |order|
        invariant active == ActiveAmong(rows, order[..i])
      {
        assert order[..i + 1][..i] == order[..i];
        if order[i] in rows && rows[order[i]].status.Active? { active := active + [order[i]]; }
      }
      assert order[..|order|] == order;
    }

    /** Applies the round's collected results at once; `winners` is the finish callback, if it fires. */
    method OnRoundSettled(n: int) returns (winners: Option<seq<Uuid>>)
      modifies this
      ensures (Model(), winners) == SettleBoard(old(Model()), old(PendingFor(n)), n)
      ensures pendingByRound == old(pendingByRound) - {n}
    {
      var known := n in pendingByRound;
      var pending := if known then pendingByRound[n] else [];
      pendingByRound := pendingByRound - {n};
      if pending == [] || finished { return None; }
      var activeBefore := ActiveRows();
      for i := 0 to |pending|
        invariant rows == ApplyResults(old(rows), pending[..i], n)
        invariant order == old(order) && !finished && pendingByRound == old(pendingByRound) - {n}
      {
        assert pending[..i + 1][..i] == pending[..i];
        var r := pending[i];
        if r.userId in rows { rows := rows[r.userId := ApplyResult(rows[r.userId], r, n)]; }
      }
      assert pending[..|pending|] == pending;
      var activeAfter := ActiveRows();
      if |activeAfter| == 1 {
        winners := Close(activeAfter);
      } else if |activeAfter| == 0 {
        winners := Close(activeBefore);
      } else {
        winners := None;
      }
    }

    method Finalize() returns (winners: Option<seq<Uuid>>)
      modifies this
      ensures (Model(), winners) == FinalizeBoard(old(Model()))
      ensures pendingByRound == old(pendingByRound)
    {
      if finished { return None; }
      var active := ActiveRows();
      winners := Close(active);
    }

    method Close(finalists: seq<Uuid>) returns (winners: Option<seq<Uuid>>)
      requires !finished
      modifies this
      ensures (Model(), winners) == FinishBoard(old(Model()), finalists)
      ensures pendingByRound == old(pendingByRound)
    {
      finished := true;
      for i := 0 to |finalists|
        invariant rows == Crown(old(rows), finalists[..i])
        invariant finished && order == old(order) && pendingByRound == old(pendingByRound)
      {
        if finalists[i] in rows {
          rows := rows[finalists[i] := rows[finalists[i]].(status := Winner, eliminatedRound := None)];
        }
      }
      assert finalists[..|finalists|] == finalists;
      winners := Some(finalists);
    }
  }
}
