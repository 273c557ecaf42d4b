/** Usage and time accounting of one run across the turns it is split into. */
module TurnUsage {
  import opened Base

  // ---- token counts ----

  datatype Counter = Input | CachedInput | Output | Total | Reasoning

  /** A usage record: the counters a provider reported. */
  type Usage = map<Counter, nat>

  function Of(usage: Usage, c: Counter): nat { if c in usage then usage[c] else 0 }

  function Plus(a: Usage, b: Usage): Usage {
    map c | c in a.Keys + b.Keys :: Of(a, c) + Of(b, c)
  }

  /** Counter by counter; a counter is present when any summand has it. */
  function Sum(usages: seq<Usage>): Usage {
    if usages == [] then map[] else Plus(usages[0], Sum(usages[1..]))
  }

  /** Counter by counter, never below zero; only counters of `total` are present. */
  function Subtract(total: Usage, baseline: Usage): Usage {
    map c | c in total :: Max(0, total[c] - Of(baseline, c)) as nat
  }

  // ---- turns ----

  datatype Status = Running | Completed | Interrupted

  /** What a run can finish with. */
  type Terminal = s: Status | !s.Running? witness Completed

  /** A turn; `duration` counts from zero, `endedAt` is set when it stops running. */
  datatype Turn = Turn(id: nat, requestId: string, anchor: string, startedAt: int, endedAt: Option<int>, duration: nat,
                       status: Status, usage: Usage, usageOffset: Usage, usageBaseline: Usage, revisionAtStart: nat)

  function SegmentDuration(turn: Turn, endedAt: int): nat { Max(0, endedAt - turn.startedAt) }

  function Interrupt(turn: Turn, endedAt: int): Turn {
    turn.(status := Interrupted, endedAt := Some(endedAt), duration := turn.duration + SegmentDuration(turn, endedAt))
  }

  predicate Runs(turn: Turn, requestId: string) { turn.requestId == requestId && turn.status.Running? }

  function NewTurn(id: nat, requestId: string, anchor: string, now: int, baseline: Usage, revision: nat): Turn {
    Turn(id, requestId, anchor, now, None, 0, Running, map[], map[], baseline, revision)
  }

  /** Opens a turn, interrupting whatever still runs; nothing when the turn is already there. */
  function StartTurn(turns: seq<Turn>, id: nat, requestId: string, anchor: string, now: int, baseline: Usage, revision: nat): seq<Turn> {
    if exists i :: 0 <= i < |turns| && turns[i].requestId == requestId && turns[i].anchor == anchor then turns
    else
      seq(|turns|, i requires 0 <= i < |turns| =>
        if turns[i].status.Running? then Interrupt(turns[i], now) else turns[i])
      + [NewTurn(id, requestId, anchor, now, baseline, revision)]
  }

  /** The usage a running turn shows for a run's cumulative usage. */
  function Shown(turn: Turn, cumulative: Usage): Usage {
    Sum([turn.usageOffset, Subtract(cumulative, turn.usageBaseline)])
  }

  function UpdateUsage(turns: seq<Turn>, requestId: string, cumulative: Usage, revision: nat): seq<Turn> {
    seq(|turns|, i requires 0 <= i < |turns| =>
      if Runs(turns[i], requestId) && revision > turns[i].revisionAtStart
      then turns[i].(usage := Shown(turns[i], cumulative)) else turns[i])
  }

  /** Ends the running turn of a run and opens the next one where the run now stands. */
  function SplitTurn(turns: seq<Turn>, id: nat, requestId: string, anchor: string, now: int, cumulative: Usage, revision: nat): seq<Turn> {
    seq(|turns|, i requires 0 <= i < |turns| =>
      if Runs(turns[i], requestId) then
        Interrupt(turns[i], now).(usage := if revision > turns[i].revisionAtStart then Shown(turns[i], cumulative) else turns[i].usage)
      else turns[i])
    + [NewTurn(id, requestId, anchor, now, cumulative, revision)]
  }

  /** The last running turn of a run, or -1. */
  function LastRunning(turns: seq<Turn>, requestId: string): (p: int)
    ensures -1 <= p < |turns|
    ensures p >= 0 ==> Runs(turns[p], requestId)
    ensures forall i :: p < i < |turns| ==> !Runs(turns[i], requestId)
  {
    if turns == [] then -1
    else if Runs(turns[|turns| - 1], requestId) then |turns| - 1
    else LastRunning(turns[..|turns| - 1], requestId)
  }

  /** What a turn adds to its run. */
  function Net(turn: Turn): Usage { Subtract(turn.usage, turn.usageOffset) }

  function NetsBut(turns: seq<Turn>, requestId: string, id: nat): seq<Usage> {
    if turns == [] then []
    else (if turns[0].requestId == requestId && turns[0].id != id then [Net(turns[0])] else []) + NetsBut(turns[1..], requestId, id)
  }

  function TurnsOf(turns: seq<Turn>, requestId: string): nat {
    if turns == [] then 0 else (if turns[0].requestId == requestId then 1 else 0) + TurnsOf(turns[1..], requestId)
  }

  /** Ends a run: what its other turns do not account for goes to its running turn. */
  function FinishTurns(turns: seq<Turn>, requestId: string, status: Terminal, now: int, usage: Option<Usage>, duration: Option<nat>): seq<Turn> {
    var p := LastRunning(turns, requestId);
    if p < 0 then turns
    else
      seq(|turns|, i requires 0 <= i < |turns| =>
        if turns[i].id != turns[p].id then turns[i]
        else Finished(turns, requestId, turns[p], turns[i], status, now, usage, duration))
  }

  function Finished(turns: seq<Turn>, requestId: string, running: Turn, turn: Turn, status: Terminal, now: int,
                    usage: Option<Usage>, duration: Option<nat>): Turn {
    var previous := Sum(NetsBut(turns, requestId, running.id));
    var segment := if usage.Some? then Subtract(usage.value, previous) else Net(running);
    var time := if duration.Some? && TurnsOf(turns, requestId) == 1 then duration.value else SegmentDuration(turn, now);
    turn.(status := status, endedAt := Some(now), duration := turn.duration + time,
          usage := Sum([running.usageOffset, segment]))
  }

  // ---- totals over the turns of one run ----

  function NetTotal(turns: seq<Turn>, requestId: string, c: Counter): nat {
    if turns == [] then 0
    else (if turns[0].requestId == requestId then Of(Net(turns[0]), c) else 0) + NetTotal(turns[1..], requestId, c)
  }

  function DurationTotal(turns: seq<Turn>, requestId: string): nat {
    if turns == [] then 0
    else (if turns[0].requestId == requestId then turns[0].duration else 0) + DurationTotal(turns[1..], requestId)
  }

  lemma {:induction false} NetTotalUpdate(turns: seq<Turn>, requestId: string, c: Counter, p: nat, turn: Turn)
    requires p < |turns| && turns[p].requestId == requestId == turn.requestId
    ensures NetTotal(turns[p := turn], requestId, c) + Of(Net(turns[p]), c) == NetTotal(turns, requestId, c) + Of(Net(turn), c)
  {
    if p > 0 {
      assert turns[p := turn][1..] == turns[1..][p - 1 := turn];
      NetTotalUpdate(turns[1..], requestId, c, p - 1, turn);
    } else {
      assert turns[p := turn][1..] == turns[1..];
    }
  }

  lemma {:induction false} NetTotalAppend(turns: seq<Turn>, requestId: string, c: Counter, turn: Turn)
    requires turn.requestId == requestId
    ensures NetTotal(turns + [turn], requestId, c) == NetTotal(turns, requestId, c) + Of(Net(turn), c)
  {
    if turns != [] {
      assert (turns + [turn])[1..] == turns[1..] + [turn];
      NetTotalAppend(turns[1..], requestId, c, turn);
    }
  }

  lemma {:induction false} DurationUpdate(turns: seq<Turn>, requestId: string, p: nat, turn: Turn)
    requires p < |turns| && turns[p].requestId == requestId == turn.requestId
    ensures DurationTotal(turns[p := turn], requestId) + turns[p].duration == DurationTotal(turns, requestId) + turn.duration
  {
    if p > 0 {
      assert turns[p := turn][1..] == turns[1..][p - 1 := turn];
      DurationUpdate(turns[1..], requestId, p - 1, turn);
    } else {
      assert turns[p := turn][1..] == turns[1..];
    }
  }

  lemma {:induction false} DurationAppend(turns: seq<Turn>, requestId: string, turn: Turn)
    requires turn.requestId == requestId
    ensures DurationTotal(turns + [turn], requestId) == DurationTotal(turns, requestId) + turn.duration
  {
    if turns != [] {
      assert (turns + [turn])[1..] == turns[1..] + [turn];
      DurationAppend(turns[1..], requestId, turn);
    }
  }

  lemma {:induction false} NothingYet(turns: seq<Turn>, requestId: string, c: Counter)
    requires forall i :: 0 <= i < |turns| ==> turns[i].requestId != requestId
    ensures NetTotal(turns, requestId, c) == 0 && DurationTotal(turns, requestId) == 0 && TurnsOf(turns, requestId) == 0
  {
    if turns != [] { NothingYet(turns[1..], requestId, c); }
  }

  lemma {:induction false} SumOf(usages: seq<Usage>, c: Counter)
    ensures usages == [] ==> Of(Sum(usages), c) == 0
    ensures usages != [] ==> Of(Sum(usages), c) == Of(usages[0], c) + Of(Sum(usages[1..]), c)
  {
  }

  /** A sum has the counters that any summand has, a difference those of the total; and a difference never
      falls below zero. */
  lemma {:induction false} CountersOf(usages: seq<Usage>, total: Usage, baseline: Usage, c: Counter)
    ensures c in Sum(usages) <==> exists usage :: usage in usages && c in usage
    ensures c in Subtract(total, baseline) <==> c in total
    ensures Of(Subtract(total, baseline), c) == Max(0, Of(total, c) - Of(baseline, c))
  {
    if usages != [] {
      CountersOf(usages[1..], total, baseline, c);
      assert usages == [usages[0]] + usages[1..];
    }
  }

  /** The nets of the other turns sum to the run's total less the one turn's net. */
  lemma {:induction false} NetsButTotal(turns: seq<Turn>, requestId: string, p: nat, c: Counter)
    requires p < |turns| && turns[p].requestId == requestId && UniqueIds(turns)
    ensures Of(Sum(NetsBut(turns, requestId, turns[p].id)), c) + Of(Net(turns[p]), c) == NetTotal(turns, requestId, c)
    decreases |turns|
  {
    var rest, id := turns[1..], turns[p].id;
    assert forall i :: 0 <= i < |rest| ==> rest[i] == turns[i + 1];
    if p == 0 {
      assert NetsBut(turns, requestId, id) == NetsBut(rest, requestId, id);
      NetsButAll(rest, requestId, id, c);
    } else {
      NetsButTotal(rest, requestId, p - 1, c);
      var nets := NetsBut(turns, requestId, id);
      if turns[0].requestId == requestId {
        assert nets[1..] == NetsBut(rest, requestId, id);
        SumOf(nets, c);
      } else {
        assert nets == NetsBut(rest, requestId, id);
      }
    }
  }

  lemma {:induction false} NetsButAll(turns: seq<Turn>, requestId: string, id: nat, c: Counter)
    requires forall i :: 0 <= i < |turns| ==> turns[i].id != id
    ensures Of(Sum(NetsBut(turns, requestId, id)), c) == NetTotal(turns, requestId, c)
  {
    if turns != [] {
      NetsButAll(turns[1..], requestId, id, c);
      var nets := NetsBut(turns, requestId, id);
      if turns[0].requestId == requestId {
        assert nets[1..] == NetsBut(turns[1..], requestId, id);
        SumOf(nets, c);
      } else {
        assert nets == NetsBut(turns[1..], requestId, id);
      }
    }
  }

  ghost predicate UniqueIds(turns: seq<Turn>) {
    forall i, j :: 0 <= i < j < |turns| ==> turns[i].id != turns[j].id
  }

  // ---- the ledger of a run under way ----

  /** The run `requestId` runs in turn `p` alone. */
  ghost predicate Alone(turns: seq<Turn>, requestId: string, p: nat) {
    && p < |turns| && Runs(turns[p], requestId) && UniqueIds(turns)
    && forall i :: 0 <= i < |turns| && i != p ==> !Runs(turns[i], requestId)
  }

  /** The run `requestId` runs in turn `p` alone, and the turns so far are given exactly `cumulative`:
      the earlier ones what the baseline says, the running one the rest. */
  ghost predicate Ledger(turns: seq<Turn>, requestId: string, p: nat, cumulative: Usage) {
    && Alone(turns, requestId, p)
    && (forall c :: NetTotal(turns, requestId, c) == Of(turns[p].usageBaseline, c) + Of(Net(turns[p]), c))
    && (forall c :: NetTotal(turns, requestId, c) == Of(cumulative, c))
  }

  lemma PairSum(a: Usage, b: Usage, c: Counter)
    ensures Of(Sum([a, b]), c) == Of(a, c) + Of(b, c)
  {
    assert [a, b][1..] == [b] && [b][1..] == [];
    SumOf([a, b], c);
    SumOf([b], c);
  }

  lemma ShownNet(turn: Turn, cumulative: Usage, c: Counter)
    ensures Of(Net(turn.(usage := Shown(turn, cumulative))), c) == Max(0, Of(cumulative, c) - Of(turn.usageBaseline, c))
  {
    PairSum(turn.usageOffset, Subtract(cumulative, turn.usageBaseline), c);
  }

  lemma UpdateIsLocal(turns: seq<Turn>, requestId: string, p: nat, cumulative: Usage, revision: nat)
    requires p < |turns| && Runs(turns[p], requestId)
    requires forall i :: 0 <= i < |turns| && i != p ==> !Runs(turns[i], requestId)
    ensures UpdateUsage(turns, requestId, cumulative, revision) ==
              if revision > turns[p].revisionAtStart then turns[p := turns[p].(usage := Shown(turns[p], cumulative))] else turns
  {
  }

  /** The guard of a report: one the running turn takes is no less than its baseline, and one it ignores
      (its revision was known when the turn began) changes nothing. */
  ghost predicate Meets(turn: Turn, before: Usage, cumulative: Usage, revision: nat) {
    if revision > turn.revisionAtStart then forall c :: Of(turn.usageBaseline, c) <= Of(cumulative, c)
    else forall c :: Of(before, c) == Of(cumulative, c)
  }

  /** A usage report keeps the turns adding up to the cumulative usage exactly when it meets its guard. */
  lemma ReportBalancesIff(turns: seq<Turn>, requestId: string, p: nat, before: Usage, cumulative: Usage, revision: nat)
    requires Ledger(turns, requestId, p, before)
    ensures var after := UpdateUsage(turns, requestId, cumulative, revision);
            (forall c :: NetTotal(after, requestId, c) == Of(cumulative, c)) <==>
            Meets(turns[p], before, cumulative, revision)
  {
    UpdateIsLocal(turns, requestId, p, cumulative, revision);
    var after := UpdateUsage(turns, requestId, cumulative, revision);
    if revision > turns[p].revisionAtStart {
      forall c
        ensures NetTotal(after, requestId, c) == Max(Of(turns[p].usageBaseline, c), Of(cumulative, c))
      {
        ShownNet(turns[p], cumulative, c);
        NetTotalUpdate(turns, requestId, c, p, turns[p].(usage := Shown(turns[p], cumulative)));
      }
      assert forall c :: Of(turns[p].usageBaseline, c) <= Of(cumulative, c) <==>
        NetTotal(after, requestId, c) == Of(cumulative, c);
    }
  }

  /** A report that meets its guard leaves a ledger again, whether usage has grown or fallen. */
  lemma ReportKeepsLedger(turns: seq<Turn>, requestId: string, p: nat, before: Usage, cumulative: Usage, revision: nat)
    requires Ledger(turns, requestId, p, before) && Meets(turns[p], before, cumulative, revision)
    ensures Ledger(UpdateUsage(turns, requestId, cumulative, revision), requestId, p, cumulative)
  {
    UpdateIsLocal(turns, requestId, p, cumulative, revision);
    if revision > turns[p].revisionAtStart {
      var shown := turns[p].(usage := Shown(turns[p], cumulative));
      forall c
        ensures NetTotal(turns[p := shown], requestId, c) == Of(cumulative, c)
        ensures Of(turns[p].usageBaseline, c) + Of(Net(shown), c) == Of(cumulative, c)
      {
        assert NetTotal(turns, requestId, c) == Of(before, c);
        ShownNet(turns[p], cumulative, c);
        NetTotalUpdate(turns, requestId, c, p, shown);
      }
    }
  }

  lemma SplitIsLocal(turns: seq<Turn>, id: nat, requestId: string, p: nat, anchor: string, now: int, cumulative: Usage, revision: nat)
    requires p < |turns| && Runs(turns[p], requestId)
    requires forall i :: 0 <= i < |turns| && i != p ==> !Runs(turns[i], requestId)
    ensures var ended := Interrupt(turns[p], now).(usage := if revision > turns[p].revisionAtStart then Shown(turns[p], cumulative) else turns[p].usage);
            SplitTurn(turns, id, requestId, anchor, now, cumulative, revision) ==
              turns[p := ended] + [NewTurn(id, requestId, anchor, now, cumulative, revision)]
  {
  }

  lemma EndedNet(turn: Turn, now: int, cumulative: Usage, revision: nat, c: Counter)
    ensures var usage := if revision > turn.revisionAtStart then Shown(turn, cumulative) else turn.usage;
            Of(Net(Interrupt(turn, now).(usage := usage)), c) ==
              if revision > turn.revisionAtStart then Max(0, Of(cumulative, c) - Of(turn.usageBaseline, c)) else Of(Net(turn), c)
  {
    ShownNet(turn, cumulative, c);
  }

  /** Splitting a run gives the ended turn all that is used so far and starts the next one at zero. */
  lemma SplitKeepsLedger(turns: seq<Turn>, id: nat, requestId: string, p: nat, anchor: string, now: int, cumulative: Usage, revision: nat)
    requires Ledger(turns, requestId, p, cumulative)
    requires forall i :: 0 <= i < |turns| ==> turns[i].id != id
    ensures Ledger(SplitTurn(turns, id, requestId, anchor, now, cumulative, revision), requestId, |turns|, cumulative)
    ensures DurationTotal(SplitTurn(turns, id, requestId, anchor, now, cumulative, revision), requestId)
         == DurationTotal(turns, requestId) + SegmentDuration(turns[p], now)
    ensures var after := SplitTurn(turns, id, requestId, anchor, now, cumulative, revision);
            |after| == |turns| + 1 &&
            after[p] == turns[p].(status := Interrupted, endedAt := Some(now), usage := after[p].usage, duration := after[p].duration) &&
            (forall i :: 0 <= i < |turns| && i != p ==> after[i] == turns[i]) &&
            after[|turns|] == Turn(id, requestId, anchor, now, None, 0, Running, map[], map[], cumulative, revision)
  {
    SplitIsLocal(turns, id, requestId, p, anchor, now, cumulative, revision);
    var usage := if revision > turns[p].revisionAtStart then Shown(turns[p], cumulative) else turns[p].usage;
    var ended := Interrupt(turns[p], now).(usage := usage);
    var next := NewTurn(id, requestId, anchor, now, cumulative, revision);
    var after := turns[p := ended] + [next];
    forall c
      ensures NetTotal(after, requestId, c) == Of(cumulative, c) && Of(Net(next), c) == 0
    {
      assert NetTotal(turns, requestId, c) == Of(cumulative, c);
      EndedNet(turns[p], now, cumulative, revision, c);
      NetTotalUpdate(turns, requestId, c, p, ended);
      NetTotalAppend(turns[p := ended], requestId, c, next);
    }
    DurationUpdate(turns, requestId, p, ended);
    DurationAppend(turns[p := ended], requestId, next);
  }

  /** Starting a turn that is there already changes nothing. Otherwise no turn but the new one runs: each
      that still ran, of whatever request, is interrupted now, after the time since it started; every
      other is as it was; and the new one is last, with nothing used and no time passed. */
  lemma StartInterrupts(turns: seq<Turn>, id: nat, requestId: string, anchor: string, now: int, baseline: Usage, revision: nat)
    ensures var after := StartTurn(turns, id, requestId, anchor, now, baseline, revision);
            if exists turn :: turn in turns && turn.requestId == requestId && turn.anchor == anchor then after == turns
            else
              && |after| == |turns| + 1
              && after[|turns|] == Turn(id, requestId, anchor, now, None, 0, Running, map[], map[], baseline, revision)
              && (forall i :: 0 <= i < |turns| ==> !after[i].status.Running?)
              && (forall i :: 0 <= i < |turns| && !turns[i].status.Running? ==> after[i] == turns[i])
              && (forall i :: 0 <= i < |turns| && turns[i].status.Running? ==>
                    after[i] == turns[i].(status := Interrupted, endedAt := Some(now), duration := after[i].duration) &&
                    (turns[i].startedAt <= now ==> after[i].duration == turns[i].duration + (now - turns[i].startedAt)) &&
                    (now < turns[i].startedAt ==> after[i].duration == turns[i].duration))
  {
    if turn :| turn in turns && turn.requestId == requestId && turn.anchor == anchor {
      var i :| 0 <= i < |turns| && turns[i] == turn;
    }
  }

  /** A run begins with one turn and nothing used. */
  lemma StartOpensLedger(turns: seq<Turn>, id: nat, requestId: string, anchor: string, now: int)
    requires UniqueIds(turns) && forall i :: 0 <= i < |turns| ==> turns[i].requestId != requestId && turns[i].id != id
    ensures var after := StartTurn(turns, id, requestId, anchor, now, map[], 0);
            Ledger(after, requestId, |turns|, map[]) && DurationTotal(after, requestId) == 0 && after[|turns|].startedAt == now
  {
    var after := StartTurn(turns, id, requestId, anchor, now, map[], 0);
    var others, next := after[..|turns|], NewTurn(id, requestId, anchor, now, map[], 0);
    assert after == others + [next];
    forall c
      ensures NetTotal(after, requestId, c) == 0
    {
      NothingYet(others, requestId, c);
      NetTotalAppend(others, requestId, c, next);
    }
    NothingYet(others, requestId, Input);
    DurationAppend(others, requestId, next);
  }

  // ---- the turns of one run, in order ----

  function RunTurns(turns: seq<Turn>, requestId: string): seq<Turn> {
    if turns == [] then []
    else (if turns[0].requestId == requestId then [turns[0]] else []) + RunTurns(turns[1..], requestId)
  }

  /** Turn `p` is the last of its run. */
  ghost predicate IsLast(turns: seq<Turn>, requestId: string, p: nat) {
    p < |turns| && turns[p].requestId == requestId && forall i :: p < i < |turns| ==> turns[i].requestId != requestId
  }

  lemma {:induction false} NoRunTurns(turns: seq<Turn>, requestId: string)
    requires forall i :: 0 <= i < |turns| ==> turns[i].requestId != requestId
    ensures RunTurns(turns, requestId) == []
  {
    if turns != [] { NoRunTurns(turns[1..], requestId); }
  }

  lemma {:induction false} RunTurnsAppend(turns: seq<Turn>, requestId: string, turn: Turn)
    requires turn.requestId == requestId
    ensures RunTurns(turns + [turn], requestId) == RunTurns(turns, requestId) + [turn]
  {
    if turns == [] {
      assert turns + [turn] == [turn] && [turn][1..] == [];
    } else {
      assert (turns + [turn])[1..] == turns[1..] + [turn];
      RunTurnsAppend(turns[1..], requestId, turn);
      Associates(if turns[0].requestId == requestId then [turns[0]] else [], RunTurns(turns[1..], requestId), [turn]);
    }
  }

  /** Changing the last turn of a run changes the last of its turns. */
  lemma {:induction false} RunTurnsUpdate(turns: seq<Turn>, requestId: string, p: nat, turn: Turn)
    requires IsLast(turns, requestId, p) && turn.requestId == requestId
    ensures var run := RunTurns(turns, requestId);
            run != [] && run[|run| - 1] == turns[p] &&
            RunTurns(turns[p := turn], requestId) == run[..|run| - 1] + [turn]
  {
    var rest := turns[1..];
    if p == 0 {
      NoRunTurns(rest, requestId);
      assert turns[p := turn][1..] == rest;
    } else {
      assert turns[p := turn][1..] == rest[p - 1 := turn];
      RunTurnsUpdate(rest, requestId, p - 1, turn);
      var run, tail := RunTurns(turns, requestId), RunTurns(rest, requestId);
      if turns[0].requestId == requestId {
        assert run == [turns[0]] + tail;
        assert run[..|run| - 1] == [turns[0]] + tail[..|tail| - 1];
      }
    }
  }

  /** The turn ended at `until` after exactly the time since it started. */
  ghost predicate Covers(turn: Turn, until: int) {
    turn.endedAt == Some(until) && turn.startedAt <= until && turn.duration == until - turn.startedAt
  }

  /** The turns follow one another without gap or overlap from `began`: each but the last was interrupted
      when the next started, and took exactly that time. */
  ghost predicate Chained(run: seq<Turn>, began: int) {
    && (run != [] ==> run[0].startedAt == began)
    && forall k :: 0 <= k < |run| - 1 ==> Covers(run[k], run[k + 1].startedAt) && run[k].status.Interrupted?
  }

  /** They tile the time from `began` to `ended`. */
  ghost predicate Tiles(run: seq<Turn>, began: int, ended: int) {
    run != [] && Chained(run, began) && Covers(run[|run| - 1], ended)
  }

  lemma ChainedOn(run: seq<Turn>, began: int, ended: Turn, next: Turn)
    requires run != [] && Chained(run, began) && ended.startedAt == run[|run| - 1].startedAt
    requires Covers(ended, next.startedAt) && ended.status.Interrupted?
    ensures Chained(run[..|run| - 1] + [ended] + [next], began)
  {
    var after := run[..|run| - 1] + [ended] + [next];
    assert forall k :: 0 <= k < |run| - 1 ==> after[k] == run[k];
    assert after[|run| - 1] == ended && after[|run|] == next;
  }

  lemma ChainedSame(run: seq<Turn>, began: int, last: Turn)
    requires run != [] && Chained(run, began) && last.startedAt == run[|run| - 1].startedAt
    ensures Chained(run[..|run| - 1] + [last], began)
  {
    var after := run[..|run| - 1] + [last];
    assert forall k :: 0 <= k < |run| - 1 ==> after[k] == run[k];
  }

  lemma TilesTail(first: Turn, rest: seq<Turn>, began: int, ended: int)
    requires rest != [] && Tiles([first] + rest, began, ended)
    ensures first.startedAt == began && Covers(first, rest[0].startedAt) && Tiles(rest, rest[0].startedAt, ended)
  {
    var run := [first] + rest;
    assert run[0] == first && run[1] == rest[0] && run[|run| - 1] == rest[|rest| - 1];
    forall k | 0 <= k < |rest| - 1
      ensures Covers(rest[k], rest[k + 1].startedAt) && rest[k].status.Interrupted?
    {
      assert Covers(run[k + 1], run[k + 1 + 1].startedAt) && run[k + 1].status.Interrupted?;
    }
  }

  lemma RunTurnsCons(turns: seq<Turn>, requestId: string)
    requires turns != []
    ensures RunTurns(turns, requestId) ==
              if turns[0].requestId == requestId then [turns[0]] + RunTurns(turns[1..], requestId)
              else RunTurns(turns[1..], requestId)
  {
  }

  /** Turns that tile a stretch of time take exactly that time together. */
  lemma {:induction false} TilesAddUp(turns: seq<Turn>, requestId: string, began: int, ended: int)
    requires Tiles(RunTurns(turns, requestId), began, ended)
    ensures DurationTotal(turns, requestId) == ended - began
  {
    var rest := RunTurns(turns[1..], requestId);
    RunTurnsCons(turns, requestId);
    if turns[0].requestId != requestId {
      TilesAddUp(turns[1..], requestId, began, ended);
    } else if rest == [] {
      NoTurnsNoTime(turns[1..], requestId);
    } else {
      TilesTail(turns[0], rest, began, ended);
      TilesAddUp(turns[1..], requestId, rest[0].startedAt, ended);
    }
  }

  lemma {:induction false} NoTurnsNoTime(turns: seq<Turn>, requestId: string)
    requires RunTurns(turns, requestId) == []
    ensures DurationTotal(turns, requestId) == 0
  {
    if turns != [] { NoTurnsNoTime(turns[1..], requestId); }
  }

  lemma {:induction false} CountsRunTurns(turns: seq<Turn>, requestId: string)
    ensures TurnsOf(turns, requestId) == |RunTurns(turns, requestId)|
  {
    if turns != [] { CountsRunTurns(turns[1..], requestId); }
  }

  // ---- whole runs ----

  /** What a run reports: its cumulative usage and the revision of it, or a message that splits it. */
  datatype Event = Report(cumulative: Usage, revision: nat) | Divide(id: nat, anchor: string, now: int)

  datatype Book = Book(turns: seq<Turn>, cumulative: Usage, revision: nat)

  function Enter(book: Book, requestId: string, event: Event): Book {
    match event
    case Report(cumulative, revision) =>
      Book(UpdateUsage(book.turns, requestId, cumulative, revision), cumulative, revision)
    case Divide(id, anchor, now) =>
      book.(turns := SplitTurn(book.turns, id, requestId, anchor, now, book.cumulative, book.revision))
  }

  /** New turns get new ids. */
  ghost predicate AllFresh(book: Book, requestId: string, events: seq<Event>)
    decreases |events|
  {
    events == [] ||
    ((events[0].Divide? ==> forall i :: 0 <= i < |book.turns| ==> book.turns[i].id != events[0].id) &&
     AllFresh(Enter(book, requestId, events[0]), requestId, events[1..]))
  }

  function ClockAfter(now: int, event: Event): int { if event.Divide? then event.now else now }

  /** The clock does not run backwards; `now` is the latest time seen. */
  ghost predicate ClockRuns(events: seq<Event>, now: int)
    decreases |events|
  {
    events == [] || (now <= ClockAfter(now, events[0]) && ClockRuns(events[1..], ClockAfter(now, events[0])))
  }

  /** A report meets the guard of the turn that runs when it comes. */
  ghost predicate Guarded(book: Book, requestId: string, event: Event) {
    event.Report? ==>
      var p := LastRunning(book.turns, requestId);
      p >= 0 && Meets(book.turns[p], book.cumulative, event.cumulative, event.revision)
  }

  ghost predicate AllGuarded(book: Book, requestId: string, events: seq<Event>)
    decreases |events|
  {
    events == [] ||
    (Guarded(book, requestId, events[0]) && AllGuarded(Enter(book, requestId, events[0]), requestId, events[1..]))
  }

  function Kept(book: Book, requestId: string, events: seq<Event>): Book
    decreases |events|
  {
    if events == [] then book else Kept(Enter(book, requestId, events[0]), requestId, events[1..])
  }

  function LastClock(now: int, events: seq<Event>): int
    decreases |events|
  {
    if events == [] then now else LastClock(ClockAfter(now, events[0]), events[1..])
  }

  /** What the turns hold net of their offsets adds up to exactly the cumulative usage. */
  ghost predicate Telescopes(book: Book, requestId: string) {
    forall c :: NetTotal(book.turns, requestId, c) == Of(book.cumulative, c)
  }

  /** It does at every moment of a run. */
  ghost predicate AlwaysTelescopes(book: Book, requestId: string, events: seq<Event>)
    decreases |events|
  {
    Telescopes(book, requestId) &&
    (events != [] ==> AlwaysTelescopes(Enter(book, requestId, events[0]), requestId, events[1..]))
  }

  lemma AloneIsLast(turns: seq<Turn>, requestId: string, p: nat)
    requires Alone(turns, requestId, p)
    ensures LastRunning(turns, requestId) == p
  {
  }

  lemma EnterKeepsLedger(book: Book, requestId: string, p: nat, event: Event) returns (q: nat)
    requires Ledger(book.turns, requestId, p, book.cumulative) && Guarded(book, requestId, event)
    requires event.Divide? ==> forall i :: 0 <= i < |book.turns| ==> book.turns[i].id != event.id
    ensures q == if event.Report? then p else |book.turns|
    ensures Ledger(Enter(book, requestId, event).turns, requestId, q, Enter(book, requestId, event).cumulative)
  {
    AloneIsLast(book.turns, requestId, p);
    match event
    case Report(cumulative, revision) =>
      q := p;
      ReportKeepsLedger(book.turns, requestId, p, book.cumulative, cumulative, revision);
    case Divide(id, anchor, at) =>
      q := |book.turns|;
      SplitKeepsLedger(book.turns, id, requestId, p, anchor, at, book.cumulative, book.revision);
  }

  lemma {:induction false} AlwaysIff(book: Book, requestId: string, p: nat, events: seq<Event>)
    requires Ledger(book.turns, requestId, p, book.cumulative) && AllFresh(book, requestId, events)
    ensures AlwaysTelescopes(book, requestId, events) <==> AllGuarded(book, requestId, events)
    decreases |events|
  {
    if events != [] {
      var next := Enter(book, requestId, events[0]);
      if Guarded(book, requestId, events[0]) {
        var q := EnterKeepsLedger(book, requestId, p, events[0]);
        AlwaysIff(next, requestId, q, events[1..]);
      } else {
        AloneIsLast(book.turns, requestId, p);
        ReportBalancesIff(book.turns, requestId, p, book.cumulative, events[0].cumulative, events[0].revision);
        assert !Telescopes(next, requestId);
      }
    }
  }

  /** The book of a run that has just started among other turns. */
  function Opened(turns: seq<Turn>, id: nat, requestId: string, anchor: string, now: int): Book {
    Book(StartTurn(turns, id, requestId, anchor, now, map[], 0), map[], 0)
  }

  /** Over every run of reports and splits, its turns add up to the cumulative usage at every moment, in
      every counter, if and only if every report meets its guard. */
  lemma TelescopesIff(turns: seq<Turn>, id: nat, requestId: string, anchor: string, began: int, events: seq<Event>)
    requires UniqueIds(turns) && forall i :: 0 <= i < |turns| ==> turns[i].requestId != requestId && turns[i].id != id
    requires AllFresh(Opened(turns, id, requestId, anchor, began), requestId, events)
    ensures var book := Opened(turns, id, requestId, anchor, began);
            AlwaysTelescopes(book, requestId, events) <==> AllGuarded(book, requestId, events)
  {
    StartOpensLedger(turns, id, requestId, anchor, began);
    AlwaysIff(Opened(turns, id, requestId, anchor, began), requestId, |turns|, events);
  }

  /** Usage that only grows, under a new revision whenever it changes. */
  ghost predicate Grows(cumulative: Usage, revision: nat, events: seq<Event>)
    decreases |events|
  {
    events == [] ||
    match events[0]
    case Divide(_, _, _) => Grows(cumulative, revision, events[1..])
    case Report(next, known) =>
      (forall c :: Of(cumulative, c) <= Of(next, c)) && revision <= known &&
      (known == revision ==> forall c :: Of(cumulative, c) == Of(next, c)) && Grows(next, known, events[1..])
  }

  /** Such usage meets every guard. */
  lemma {:induction false} GrowthIsGuarded(book: Book, requestId: string, p: nat, events: seq<Event>)
    requires Ledger(book.turns, requestId, p, book.cumulative) && AllFresh(book, requestId, events)
    requires book.turns[p].revisionAtStart <= book.revision && Grows(book.cumulative, book.revision, events)
    ensures AllGuarded(book, requestId, events)
    decreases |events|
  {
    if events != [] {
      AloneIsLast(book.turns, requestId, p);
      assert forall c :: NetTotal(book.turns, requestId, c) == Of(book.cumulative, c);
      var q := EnterKeepsLedger(book, requestId, p, events[0]);
      GrowthIsGuarded(Enter(book, requestId, events[0]), requestId, q, events[1..]);
    }
  }

  /** So while usage only grows, under a new revision whenever it changes, the turns add up to it at every
      moment, after any number of reports and splits. */
  lemma TurnsTelescope(turns: seq<Turn>, id: nat, requestId: string, anchor: string, began: int, events: seq<Event>)
    requires UniqueIds(turns) && forall i :: 0 <= i < |turns| ==> turns[i].requestId != requestId && turns[i].id != id
    requires AllFresh(Opened(turns, id, requestId, anchor, began), requestId, events) && Grows(map[], 0, events)
    ensures AlwaysTelescopes(Opened(turns, id, requestId, anchor, began), requestId, events)
  {
    StartOpensLedger(turns, id, requestId, anchor, began);
    GrowthIsGuarded(Opened(turns, id, requestId, anchor, began), requestId, |turns|, events);
    TelescopesIff(turns, id, requestId, anchor, began, events);
  }

  /** A run on its own that has reported once. */
  function Reported(requestId: string, began: int, used: Usage): Book {
    Enter(Opened([], 0, requestId, "first", began), requestId, Report(used, 1))
  }

  lemma ReportedIsLedger(requestId: string, began: int, used: Usage)
    ensures Guarded(Opened([], 0, requestId, "first", began), requestId, Report(used, 1))
    ensures Ledger(Reported(requestId, began, used).turns, requestId, 0, used)
    ensures Reported(requestId, began, used).cumulative == used && Reported(requestId, began, used).revision == 1
    ensures |Reported(requestId, began, used).turns| == 1
    ensures var turn := Reported(requestId, began, used).turns[0];
            turn.id == 0 && turn.revisionAtStart == 0 && turn.usageBaseline == map[]
  {
    StartOpensLedger([], 0, requestId, "first", began);
    var book := Opened([], 0, requestId, "first", began);
    AloneIsLast(book.turns, requestId, 0);
    assert Meets(book.turns[0], map[], used, 1);
    UpdateIsLocal(book.turns, requestId, 0, used, 1);
    ReportKeepsLedger(book.turns, requestId, 0, map[], used, 1);
  }

  lemma TwoGuarded(book: Book, requestId: string, first: Event, second: Event)
    requires Guarded(book, requestId, first) && Guarded(Enter(book, requestId, first), requestId, second)
    ensures AllGuarded(book, requestId, [first, second])
  {
    var next := Enter(book, requestId, first);
    assert [first, second][1..] == [second] && [second][1..] == [];
    assert AllGuarded(next, requestId, [second]);
  }

  /** A round that is restarted takes its usage back under the revision already known. Within the turn
      that counted it, that meets the guard. */
  lemma RestartInTurnBalances(requestId: string, began: int, used: Usage)
    ensures AllGuarded(Opened([], 0, requestId, "first", began), requestId, [Report(used, 1), Report(map[], 1)])
  {
    ReportedIsLedger(requestId, began, used);
    AloneIsLast(Reported(requestId, began, used).turns, requestId, 0);
    TwoGuarded(Opened([], 0, requestId, "first", began), requestId, Report(used, 1), Report(map[], 1));
  }

  /** A report under the revision known at the split is ignored, whatever it takes back. */
  lemma IgnoredAfterSplit(book: Book, requestId: string, p: nat, divide: Event, restart: Event)
    requires Ledger(book.turns, requestId, p, book.cumulative) && divide.Divide? && restart.Report?
    requires forall i :: 0 <= i < |book.turns| ==> book.turns[i].id != divide.id
    requires restart.revision <= book.revision
    ensures var after := Enter(Enter(book, requestId, divide), requestId, restart);
            after.cumulative == restart.cumulative && forall c :: NetTotal(after.turns, requestId, c) == Of(book.cumulative, c)
  {
    var divided := Enter(book, requestId, divide);
    SplitKeepsLedger(book.turns, divide.id, requestId, p, divide.anchor, divide.now, book.cumulative, book.revision);
    UpdateIsLocal(divided.turns, requestId, |book.turns|, restart.cumulative, restart.revision);
  }

  /** After a split it does not: the turns keep all that was taken back. */
  lemma RestartAfterSplitDoesNot(requestId: string, began: int, used: Usage, at: int, c: Counter)
    ensures var split := Kept(Opened([], 0, requestId, "first", began), requestId,
                              [Report(used, 1), Divide(1, "second", at), Report(map[], 1)]);
            NetTotal(split.turns, requestId, c) == Of(used, c) && Of(split.cumulative, c) == 0
  {
    var divide, restart := Divide(1, "second", at), Report(map[], 1);
    ReportedIsLedger(requestId, began, used);
    Unfold3(Opened([], 0, requestId, "first", began), requestId, Report(used, 1), divide, restart);
    IgnoredAfterSplit(Reported(requestId, began, used), requestId, 0, divide, restart);
  }

  lemma Unfold3(book: Book, requestId: string, a: Event, b: Event, c: Event)
    ensures Kept(book, requestId, [a, b, c]) == Enter(Enter(Enter(book, requestId, a), requestId, b), requestId, c)
  {
    assert [a, b, c][1..] == [b, c] && [b, c][1..] == [c] && [c][1..] == [];
    var second := Enter(Enter(book, requestId, a), requestId, b);
    assert Kept(second, requestId, [c]) == Enter(second, requestId, c);
  }

  // ---- time ----

  /** A run under way since `began`: its turns follow one another up to where the running one starts. */
  ghost predicate Timely(turns: seq<Turn>, requestId: string, p: nat, began: int, now: int) {
    && IsLast(turns, requestId, p) && Runs(turns[p], requestId)
    && turns[p].duration == 0 && turns[p].startedAt <= now
    && Chained(RunTurns(turns, requestId), began)
  }

  lemma EnterIsTimely(book: Book, requestId: string, p: nat, event: Event, began: int, now: int)
    requires Alone(book.turns, requestId, p) && Timely(book.turns, requestId, p, began, now)
    requires now <= ClockAfter(now, event)
    ensures Timely(Enter(book, requestId, event).turns, requestId, if event.Report? then p else |book.turns|, began, ClockAfter(now, event))
  {
    var turns, run := book.turns, RunTurns(book.turns, requestId);
    match event
    case Report(cumulative, revision) =>
      UpdateIsLocal(turns, requestId, p, cumulative, revision);
      var shown := turns[p].(usage := Shown(turns[p], cumulative));
      RunTurnsUpdate(turns, requestId, p, shown);
      ChainedSame(run, began, shown);
    case Divide(id, anchor, at) =>
      SplitIsLocal(turns, id, requestId, p, anchor, at, book.cumulative, book.revision);
      var usage := if book.revision > turns[p].revisionAtStart then Shown(turns[p], book.cumulative) else turns[p].usage;
      var ended := Interrupt(turns[p], at).(usage := usage);
      var next := NewTurn(id, requestId, anchor, at, book.cumulative, book.revision);
      RunTurnsUpdate(turns, requestId, p, ended);
      RunTurnsAppend(turns[p := ended], requestId, next);
      ChainedOn(run, began, ended, next);
  }

  lemma EnterStaysAlone(book: Book, requestId: string, p: nat, event: Event)
    requires Alone(book.turns, requestId, p)
    requires event.Divide? ==> forall i :: 0 <= i < |book.turns| ==> book.turns[i].id != event.id
    ensures Alone(Enter(book, requestId, event).turns, requestId, if event.Report? then p else |book.turns|)
  {
    match event
    case Report(cumulative, revision) => UpdateIsLocal(book.turns, requestId, p, cumulative, revision);
    case Divide(id, anchor, at) =>
      SplitIsLocal(book.turns, id, requestId, p, anchor, at, book.cumulative, book.revision);
  }

  /** After any run, whatever it reports, one turn runs and the turns follow one another. */
  lemma {:induction false} KeptIsTimely(book: Book, requestId: string, p: nat, events: seq<Event>, began: int, now: int) returns (q: nat)
    requires Alone(book.turns, requestId, p) && Timely(book.turns, requestId, p, began, now)
    requires AllFresh(book, requestId, events) && ClockRuns(events, now)
    ensures var after := Kept(book, requestId, events);
            Alone(after.turns, requestId, q) && Timely(after.turns, requestId, q, began, LastClock(now, events))
    decreases |events|
  {
    q := p;
    if events != [] {
      EnterIsTimely(book, requestId, p, events[0], began, now);
      EnterStaysAlone(book, requestId, p, events[0]);
      q := if events[0].Report? then p else |book.turns|;
      q := KeptIsTimely(Enter(book, requestId, events[0]), requestId, q, events[1..], began, ClockAfter(now, events[0]));
    }
  }

  /** After any run that meets its guards the turns are a ledger. */
  lemma {:induction false} KeptIsLedger(book: Book, requestId: string, p: nat, events: seq<Event>) returns (q: nat)
    requires Ledger(book.turns, requestId, p, book.cumulative)
    requires AllGuarded(book, requestId, events) && AllFresh(book, requestId, events)
    ensures Ledger(Kept(book, requestId, events).turns, requestId, q, Kept(book, requestId, events).cumulative)
    decreases |events|
  {
    q := p;
    if events != [] {
      q := EnterKeepsLedger(book, requestId, p, events[0]);
      q := KeptIsLedger(Enter(book, requestId, events[0]), requestId, q, events[1..]);
    }
  }

  /** Whatever a run reports, the turns of other requests stay as they are. */
  lemma {:induction false} KeptLeavesOthers(book: Book, requestId: string, events: seq<Event>)
    ensures var after := Kept(book, requestId, events).turns;
            |book.turns| <= |after| &&
            (forall i :: 0 <= i < |book.turns| && book.turns[i].requestId != requestId ==> after[i] == book.turns[i]) &&
            (forall i :: 0 <= i < |book.turns| && book.turns[i].requestId == requestId ==> after[i].requestId == requestId) &&
            (forall i :: |book.turns| <= i < |after| ==> after[i].requestId == requestId)
    decreases |events|
  {
    if events != [] { KeptLeavesOthers(Enter(book, requestId, events[0]), requestId, events[1..]); }
  }

  lemma OpenedIsTimely(turns: seq<Turn>, id: nat, requestId: string, anchor: string, began: int)
    requires UniqueIds(turns) && forall i :: 0 <= i < |turns| ==> turns[i].requestId != requestId && turns[i].id != id
    ensures Timely(Opened(turns, id, requestId, anchor, began).turns, requestId, |turns|, began, began)
  {
    var after := Opened(turns, id, requestId, anchor, began).turns;
    var others, next := after[..|turns|], NewTurn(id, requestId, anchor, began, map[], 0);
    assert after == others + [next];
    RunTurnsAppend(others, requestId, next);
    NoRunTurns(others, requestId);
  }

  // ---- the end of a run ----

  lemma FinishIsLocal(turns: seq<Turn>, requestId: string, p: nat, status: Terminal, now: int, usage: Option<Usage>, duration: Option<nat>)
    requires p < |turns| && Runs(turns[p], requestId) && UniqueIds(turns)
    requires forall i :: 0 <= i < |turns| && i != p ==> !Runs(turns[i], requestId)
    ensures FinishTurns(turns, requestId, status, now, usage, duration) ==
              turns[p := Finished(turns, requestId, turns[p], turns[p], status, now, usage, duration)]
  {
  }

  lemma FinishedNet(turns: seq<Turn>, requestId: string, p: nat, status: Terminal, now: int, total: Usage, duration: Option<nat>, c: Counter)
    requires p < |turns| && turns[p].requestId == requestId && UniqueIds(turns)
    ensures Of(Net(Finished(turns, requestId, turns[p], turns[p], status, now, Some(total), duration)), c)
         == Max(0, Of(total, c) - (NetTotal(turns, requestId, c) - Of(Net(turns[p]), c)))
  {
    NetsButTotal(turns, requestId, p, c);
    var previous := Sum(NetsBut(turns, requestId, turns[p].id));
    OffsetNet(Finished(turns, requestId, turns[p], turns[p], status, now, Some(total), duration), Subtract(total, previous), c);
  }

  lemma OffsetNet(turn: Turn, segment: Usage, c: Counter)
    requires turn.usage == Sum([turn.usageOffset, segment])
    ensures Of(Net(turn), c) == Of(segment, c)
  {
    PairSum(turn.usageOffset, segment, c);
  }

  /** What the run's turns other than `p` hold. */
  function Others(turns: seq<Turn>, requestId: string, p: nat, c: Counter): int
    requires p < |turns|
  {
    NetTotal(turns, requestId, c) - Of(Net(turns[p]), c)
  }

  /** Finishing raises what the other turns hold to the total, and takes nothing back from them. */
  lemma FinishGives(turns: seq<Turn>, requestId: string, p: nat, status: Terminal, now: int, total: Usage,
                    duration: Option<nat>, c: Counter)
    requires Alone(turns, requestId, p)
    ensures NetTotal(FinishTurns(turns, requestId, status, now, Some(total), duration), requestId, c)
         == Max(Others(turns, requestId, p, c), Of(total, c))
  {
    FinishIsLocal(turns, requestId, p, status, now, Some(total), duration);
    var after := FinishTurns(turns, requestId, status, now, Some(total), duration);
    FinishedNet(turns, requestId, p, status, now, total, duration, c);
    NetTotalUpdate(turns, requestId, c, p, after[p]);
  }

  /** Finishing without a total leaves what the turns hold. */
  lemma FinishKeeps(turns: seq<Turn>, requestId: string, p: nat, status: Terminal, now: int, duration: Option<nat>, c: Counter)
    requires Alone(turns, requestId, p)
    ensures NetTotal(FinishTurns(turns, requestId, status, now, None, duration), requestId, c) == NetTotal(turns, requestId, c)
  {
    FinishIsLocal(turns, requestId, p, status, now, None, duration);
    var ended := Finished(turns, requestId, turns[p], turns[p], status, now, None, duration);
    PairSum(turns[p].usageOffset, Net(turns[p]), c);
    assert Of(Net(ended), c) == Of(Net(turns[p]), c);
    NetTotalUpdate(turns, requestId, c, p, ended);
  }

  /** After finishing with total `total`, the turns add up to exactly `total` if and only if the turns
      that run no more hold no more than that in any counter. */
  lemma FinishBalancesIff(turns: seq<Turn>, requestId: string, p: nat, status: Terminal, now: int, total: Usage, duration: Option<nat>)
    requires Alone(turns, requestId, p)
    ensures var after := FinishTurns(turns, requestId, status, now, Some(total), duration);
            (forall c :: NetTotal(after, requestId, c) == Of(total, c)) <==>
            (forall c :: Others(turns, requestId, p, c) <= Of(total, c))
  {
    var after := FinishTurns(turns, requestId, status, now, Some(total), duration);
    forall c
      ensures NetTotal(after, requestId, c) == Of(total, c) <==> Others(turns, requestId, p, c) <= Of(total, c)
    {
      FinishGives(turns, requestId, p, status, now, total, duration, c);
    }
  }

  /** Where the reports have met their guards, what those turns hold is the baseline of the running one. */
  lemma OthersAreBaseline(turns: seq<Turn>, requestId: string, p: nat, cumulative: Usage, c: Counter)
    requires Ledger(turns, requestId, p, cumulative)
    ensures Others(turns, requestId, p, c) == Of(turns[p].usageBaseline, c)
  {
    assert NetTotal(turns, requestId, c) == Of(turns[p].usageBaseline, c) + Of(Net(turns[p]), c);
  }

  lemma FinishTiles(turns: seq<Turn>, requestId: string, p: nat, status: Terminal, began: int, now: int,
                    usage: Option<Usage>, duration: Option<nat>)
    requires Alone(turns, requestId, p) && Timely(turns, requestId, p, began, now)
    requires duration.None? || TurnsOf(turns, requestId) != 1
    ensures Tiles(RunTurns(FinishTurns(turns, requestId, status, now, usage, duration), requestId), began, now)
  {
    FinishIsLocal(turns, requestId, p, status, now, usage, duration);
    var run := RunTurns(turns, requestId);
    var ended := Finished(turns, requestId, turns[p], turns[p], status, now, usage, duration);
    RunTurnsUpdate(turns, requestId, p, ended);
    ChainedSame(run, began, ended);
  }

  /** A finished run: none of its turns runs, the one that did ended with `status` at `now` with `usage`, and
      every other turn is as it was. */
  ghost predicate Ended(before: seq<Turn>, after: seq<Turn>, requestId: string, p: nat, status: Terminal, now: int) {
    && |after| == |before| && p < |before|
    && (forall i :: 0 <= i < |after| ==> !Runs(after[i], requestId))
    && (forall i :: 0 <= i < |after| && i != p ==> after[i] == before[i])
    && after[p] == before[p].(status := status, endedAt := Some(now), duration := after[p].duration, usage := after[p].usage)
  }

  /** Finishing a request that does not run changes nothing. */
  lemma FinishNothing(turns: seq<Turn>, requestId: string, status: Terminal, now: int, usage: Option<Usage>, duration: Option<nat>)
    requires forall i :: 0 <= i < |turns| ==> !Runs(turns[i], requestId)
    ensures FinishTurns(turns, requestId, status, now, usage, duration) == turns
  {
  }

  /** Finishing a run ends it; a turn that was its only one takes the measured duration, if there is one. */
  lemma FinishEnds(turns: seq<Turn>, requestId: string, p: nat, status: Terminal, now: int, usage: Option<Usage>, duration: Option<nat>)
    requires Alone(turns, requestId, p)
    ensures var after := FinishTurns(turns, requestId, status, now, usage, duration);
            Ended(turns, after, requestId, p, status, now) &&
            (duration.Some? && |RunTurns(turns, requestId)| == 1 ==> after[p].duration == turns[p].duration + duration.value)
  {
    FinishIsLocal(turns, requestId, p, status, now, usage, duration);
    CountsRunTurns(turns, requestId);
  }

  /** A whole run, whatever it reports. Finishing gives the turns exactly the total if and only if the
      turns before the last hold no more than that in any counter; with two or more turns, or no measured
      duration, the turns tile the time from the start of the run to its end: each is interrupted when the
      next starts and takes exactly that time, so together they take all of it; and a single turn takes
      the measured duration. Then none of its turns runs, the last has the status it finished with, and
      the turns of other requests are as its start left them. */
  lemma RunConserves(turns: seq<Turn>, id: nat, requestId: string, anchor: string, began: int, events: seq<Event>,
                     status: Terminal, now: int, total: Usage, duration: Option<nat>)
    requires UniqueIds(turns) && forall i :: 0 <= i < |turns| ==> turns[i].requestId != requestId && turns[i].id != id
    requires AllFresh(Opened(turns, id, requestId, anchor, began), requestId, events)
    requires ClockRuns(events, began) && LastClock(began, events) <= now
    ensures var begun := Opened(turns, id, requestId, anchor, began);
            var book := Kept(begun, requestId, events);
            var after := FinishTurns(book.turns, requestId, status, now, Some(total), duration);
            var p := LastRunning(book.turns, requestId);
            p >= 0 && Ended(book.turns, after, requestId, p, status, now) &&
            (forall i :: 0 <= i < |turns| ==> i < |after| && after[i] == begun.turns[i]) &&
            ((forall c :: NetTotal(after, requestId, c) == Of(total, c)) <==>
             (forall c :: Others(book.turns, requestId, p, c) <= Of(total, c))) &&
            (duration.None? || |RunTurns(book.turns, requestId)| != 1 ==>
               Tiles(RunTurns(after, requestId), began, now) && DurationTotal(after, requestId) == now - began) &&
            (duration.Some? && |RunTurns(book.turns, requestId)| == 1 ==> after[p].duration == duration.value)
  {
    StartOpensLedger(turns, id, requestId, anchor, began);
    OpenedIsTimely(turns, id, requestId, anchor, began);
    var begun := Opened(turns, id, requestId, anchor, began);
    var p := KeptIsTimely(begun, requestId, |turns|, events, began, began);
    var book := Kept(begun, requestId, events);
    AloneIsLast(book.turns, requestId, p);
    FinishBalancesIff(book.turns, requestId, p, status, now, total, duration);
    FinishEnds(book.turns, requestId, p, status, now, Some(total), duration);
    OthersStay(turns, id, requestId, anchor, began, events, p);
    CountsRunTurns(book.turns, requestId);
    if duration.None? || |RunTurns(book.turns, requestId)| != 1 {
      FinishTiles(book.turns, requestId, p, status, began, now, Some(total), duration);
      TilesAddUp(FinishTurns(book.turns, requestId, status, now, Some(total), duration), requestId, began, now);
    }
  }

  lemma OthersStay(turns: seq<Turn>, id: nat, requestId: string, anchor: string, began: int, events: seq<Event>, p: nat)
    requires forall i :: 0 <= i < |turns| ==> turns[i].requestId != requestId
    ensures var begun := Opened(turns, id, requestId, anchor, began);
            var after := Kept(begun, requestId, events).turns;
            |turns| <= |after| && (forall i :: 0 <= i < |turns| ==> after[i] == begun.turns[i] && after[i].requestId != requestId)
  {
    var begun := Opened(turns, id, requestId, anchor, began);
    assert forall i :: 0 <= i < |turns| ==> begun.turns[i].requestId == turns[i].requestId;
    KeptLeavesOthers(begun, requestId, events);
  }

  /** A run whose reports meet their guards is given exactly the total if and only if no counter of it is
      below the baseline of the turn that runs at the end. */
  lemma GuardedRunConserves(turns: seq<Turn>, id: nat, requestId: string, anchor: string, began: int, events: seq<Event>,
                            status: Terminal, now: int, total: Usage, duration: Option<nat>)
    requires UniqueIds(turns) && forall i :: 0 <= i < |turns| ==> turns[i].requestId != requestId && turns[i].id != id
    requires var book := Opened(turns, id, requestId, anchor, began);
             AllGuarded(book, requestId, events) && AllFresh(book, requestId, events)
    ensures var book := Kept(Opened(turns, id, requestId, anchor, began), requestId, events);
            var after := FinishTurns(book.turns, requestId, status, now, Some(total), duration);
            var p := LastRunning(book.turns, requestId);
            p >= 0 &&
            ((forall c :: NetTotal(after, requestId, c) == Of(total, c)) <==>
             (forall c :: Of(book.turns[p].usageBaseline, c) <= Of(total, c)))
  {
    StartOpensLedger(turns, id, requestId, anchor, began);
    var p := KeptIsLedger(Opened(turns, id, requestId, anchor, began), requestId, |turns|, events);
    var book := Kept(Opened(turns, id, requestId, anchor, began), requestId, events);
    AloneIsLast(book.turns, requestId, p);
    FinishBalancesIff(book.turns, requestId, p, status, now, total, duration);
    forall c { OthersAreBaseline(book.turns, requestId, p, book.cumulative, c); }
  }

  lemma StandsAfterSplit(book: Book, requestId: string, p: nat, divide: Event, restart: Event, c: Counter)
    requires Ledger(book.turns, requestId, p, book.cumulative) && divide.Divide? && restart.Report?
    requires forall i :: 0 <= i < |book.turns| ==> book.turns[i].id != divide.id
    requires restart.revision <= book.revision
    ensures var after := Enter(Enter(book, requestId, divide), requestId, restart);
            Alone(after.turns, requestId, |book.turns|) && Of(Net(after.turns[|book.turns|]), c) == 0
  {
    var divided := Enter(book, requestId, divide);
    EnterStaysAlone(book, requestId, p, divide);
    SplitIsLocal(book.turns, divide.id, requestId, p, divide.anchor, divide.now, book.cumulative, book.revision);
    UpdateIsLocal(divided.turns, requestId, |book.turns|, restart.cumulative, restart.revision);
  }

  /** A run whose round is restarted right after a split: its turns keep what was taken back, and finishing
      gives them the total if that is no less, else leaves them at what they kept. */
  lemma FinishingARestartedRun(book: Book, requestId: string, p: nat, divide: Event, restart: Event,
                               status: Terminal, now: int, total: Usage, duration: Option<nat>, c: Counter)
    requires Ledger(book.turns, requestId, p, book.cumulative) && divide.Divide? && restart.Report?
    requires forall i :: 0 <= i < |book.turns| ==> book.turns[i].id != divide.id
    requires restart.revision <= book.revision
    ensures var after := Enter(Enter(book, requestId, divide), requestId, restart);
            NetTotal(FinishTurns(after.turns, requestId, status, now, Some(total), duration), requestId, c)
              == Max(Of(book.cumulative, c), Of(total, c))
  {
    IgnoredAfterSplit(book, requestId, p, divide, restart);
    StandsAfterSplit(book, requestId, p, divide, restart, c);
    var after := Enter(Enter(book, requestId, divide), requestId, restart);
    FinishGives(after.turns, requestId, |book.turns|, status, now, total, duration, c);
  }
}
