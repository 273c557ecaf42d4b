/** Every interleaving of calls sharing one memo. A call runs without interruption between awaits;
    between its request and the answer any other call may run. */
module EffortRuns {
  import opened Base
  import opened EffortLevels
  import opened EffortChains
  import opened EffortFallback

  datatype World = World(memo: Memo, calls: map<nat, Call>, done: map<nat, Finished>)

  datatype Event = Ask(id: nat, url: string, body: Body) | Answer(id: nat)

  const IDLE := World(map[], map[], map[])

  /** One event. Asking under an id already in use, or answering no request, is not an event. */
  function Advance(endpoint: Endpoint, world: World, event: Event): World {
    match event
    case Ask(id, url, body) =>
      if id in world.calls || id in world.done then world
      else world.(calls := world.calls[id := Begin(world.memo, url, body)])
    case Answer(id) =>
      if id !in world.calls then world
      else
        var call := world.calls[id];
        var response := Reply(endpoint, call.url, call.body);
        if StepsDown(call, response) then
          world.(memo := Noted(world.memo, call, response), calls := world.calls[id := Retried(call, response)])
        else
          world.(calls := world.calls - {id}, done := world.done[id := Completed(call, response)])
  }

  function Play(endpoint: Endpoint, world: World, events: seq<Event>): World
    decreases |events|
  {
    if events == [] then world else Play(endpoint, Advance(endpoint, world, events[0]), events[1..])
  }

  /** Request urls are serialized urls, which hold no line break. */
  ghost predicate Addressed(events: seq<Event>) {
    forall i :: 0 <= i < |events| && events[i].Ask? ==> OneLine(events[i].url)
  }

  /** Every level asked for is one line, as the five the host sends are. */
  ghost predicate PlainLevels(events: seq<Event>) {
    forall i :: 0 <= i < |events| && events[i].Ask? ==> PlainBody(events[i].body)
  }

  predicate PlainBody(body: Body) { Names(body) ==> OneLine(body.effort.level) }

  // ---- what every memo entry means ----

  /** Some request under this key was rejected, and this is what its rejection named. In a plain run
      its level was one line. */
  ghost predicate Recorded(plain: bool, endpoint: Endpoint, key: string, instead: Option<string>, url: string, model: string, level: string) {
    OneLine(url) && url != "" && (plain ==> OneLine(level)) &&
    key == Key(url, model, level) && Ladder(endpoint, url, model)(level) == Leads(instead)
  }

  ghost predicate Agrees(plain: bool, endpoint: Endpoint, memo: Memo) {
    forall key :: key in memo ==> exists url, model, level :: Recorded(plain, endpoint, key, memo[key], url, model, level)
  }

  /** A request whose memo key belongs to it alone: its level is one line, and so is its model unless
      every level asked for in the run is one line. */
  predicate Clear(plain: bool, body: Body) {
    PlainBody(body) && (Names(body) && !plain ==> OneLine(ModelName(body)))
  }

  /** In a run whose asked levels are all one line, every request; in any other, those whose level and
      model are one line. */
  ghost predicate OwnKeys(events: seq<Event>, body: Body) { PlainLevels(events) || Clear(false, body) }

  lemma EntryAgrees(plain: bool, endpoint: Endpoint, memo: Memo, url: string, model: string, level: string)
    requires Agrees(plain, endpoint, memo) && OneLine(url) && OneLine(level) && (plain || OneLine(model))
    requires Key(url, model, level) in memo
    ensures Ladder(endpoint, url, model)(level) == Leads(memo[Key(url, model, level)])
  {
    var key := Key(url, model, level);
    var url', model', level' :| Recorded(plain, endpoint, key, memo[key], url', model', level');
    KeyDetermines(url, model, level, url', model', level');
  }

  lemma NotedAgrees(plain: bool, endpoint: Endpoint, memo: Memo, call: Call)
    requires Agrees(plain, endpoint, memo) && OneLine(call.url) && (plain ==> PlainBody(call.body))
    ensures Agrees(plain, endpoint, Noted(memo, call, Reply(endpoint, call.url, call.body)))
  {
    var response := Reply(endpoint, call.url, call.body);
    if StepsDown(call, response) && call.url != "" {
      var model, level := ModelName(call.body), call.body.effort.level;
      var noted := Noted(memo, call, response);
      assert Recorded(plain, endpoint, KeyOf(call.url, call.body), noted[KeyOf(call.url, call.body)], call.url, model, level);
      forall key | key in noted
        ensures exists url, model, level :: Recorded(plain, endpoint, key, noted[key], url, model, level)
      {
        if key != KeyOf(call.url, call.body) {
          var url', model', level' :| Recorded(plain, endpoint, key, memo[key], url', model', level');
          assert Recorded(plain, endpoint, key, noted[key], url', model', level');
        }
      }
    }
  }

  // ---- where a call stands on its own step-down ----

  function LevelAt(endpoint: Endpoint, url: string, asked: Body, k: nat): Option<string>
    requires Names(asked)
  {
    At(Ladder(endpoint, url, ModelName(asked)), Some(asked.effort.level), k)
  }

  ghost predicate Rests(endpoint: Endpoint, url: string, asked: Body, d: nat)
    requires Names(asked)
  {
    RestsAfter(Ladder(endpoint, url, ModelName(asked)), Some(asked.effort.level), d)
  }

  /** `body` is what `asked` has become after `walked` step-downs, none of them past the rest. */
  ghost predicate Walked(endpoint: Endpoint, url: string, asked: Body, body: Body, walked: nat) {
    if !Names(asked) then body == asked && walked == 0
    else
      && body == WithEffort(asked, LevelAt(endpoint, url, asked, walked))
      && forall d :: Rests(endpoint, url, asked, d) ==> walked <= d
  }

  /** The first `walked` step-downs of a call are in the memo. */
  ghost predicate Cached(endpoint: Endpoint, memo: Memo, url: string, asked: Body, walked: nat)
    requires Names(asked)
  {
    forall i: nat :: i < walked && LevelAt(endpoint, url, asked, i).Some? ==>
      Key(url, ModelName(asked), LevelAt(endpoint, url, asked, i).value) in memo
  }

  lemma {:induction false} AtNext(steps: Steps, level: Option<string>, k: nat)
    ensures At(steps, level, k + 1) ==
              match Step(steps, At(steps, level, k)) case Stays => At(steps, level, k) case Leads(instead) => instead
    decreases k
  {
    if k > 0 && Step(steps, level).Leads? {
      AtNext(steps, Step(steps, level).instead, k - 1);
    }
  }

  /** One step-down keeps a call on its own path. */
  lemma WalkOn(endpoint: Endpoint, url: string, asked: Body, body: Body, walked: nat, instead: Option<string>)
    requires Names(asked) && Walked(endpoint, url, asked, body, walked) && Names(body)
    requires Ladder(endpoint, url, ModelName(body))(body.effort.level) == Leads(instead)
    ensures Walked(endpoint, url, asked, WithEffort(body, instead), walked + 1)
    ensures LevelAt(endpoint, url, asked, walked) == Some(body.effort.level)
  {
    var steps := Ladder(endpoint, url, ModelName(asked));
    AtNext(steps, Some(asked.effort.level), walked);
    forall d | Rests(endpoint, url, asked, d)
      ensures walked + 1 <= d
    {
      RestFrom(steps, Some(asked.effort.level), d, walked);
    }
  }

  lemma WalkStaysClear(plain: bool, endpoint: Endpoint, url: string, asked: Body, walked: nat)
    requires Names(asked) && Clear(plain, asked)
    ensures LevelAt(endpoint, url, asked, walked).Some? ==> OneLine(LevelAt(endpoint, url, asked, walked).value)
    decreases walked
  {
    if walked > 0 {
      WalkStaysClear(plain, endpoint, url, asked, walked - 1);
      var steps := Ladder(endpoint, url, ModelName(asked));
      AtNext(steps, Some(asked.effort.level), walked - 1);
      LadderIsNamed(endpoint, url, ModelName(asked));
      assert forall level :: level in LADDER ==> OneLine(level);
    }
  }

  /** A step-down taken from the memo is the one the endpoint would have caused. */
  lemma CachedStep(plain: bool, endpoint: Endpoint, memo: Memo, url: string, asked: Body, body: Body, walked: nat)
    requires Agrees(plain, endpoint, memo) && OneLine(url) && Names(asked) && Clear(plain, asked)
    requires Walked(endpoint, url, asked, body, walked) && Cached(endpoint, memo, url, asked, walked)
    requires Names(body) && KeyOf(url, body) in memo
    ensures Walked(endpoint, url, asked, WithEffort(body, memo[KeyOf(url, body)]), walked + 1)
    ensures Cached(endpoint, memo, url, asked, walked + 1)
  {
    WalkStaysClear(plain, endpoint, url, asked, walked);
    EntryAgrees(plain, endpoint, memo, url, ModelName(body), body.effort.level);
    WalkOn(endpoint, url, asked, body, walked, memo[KeyOf(url, body)]);
    CachedNext(endpoint, memo, memo, url, asked, walked);
  }

  /** Following the memo keeps whatever each of its steps keeps. */
  lemma {:induction false} PrefetchKeeps(memo: Memo, url: string, body: Body, walked: nat, n: nat, kept: (Body, nat) -> bool)
    requires kept(body, walked)
    requires forall b, w: nat :: kept(b, w) && Names(b) && KeyOf(url, b) in memo ==> kept(WithEffort(b, memo[KeyOf(url, b)]), w + 1)
    ensures var r := Prefetch(memo, url, body, n);
            kept(r.0, walked + r.1) && (r.1 < n ==> !Names(r.0) || KeyOf(url, r.0) !in memo)
    decreases n
  {
    if n > 0 && Names(body) && KeyOf(url, body) in memo {
      PrefetchKeeps(memo, url, WithEffort(body, memo[KeyOf(url, body)]), walked + 1, n - 1, kept);
    }
  }

  lemma StartsWalked(endpoint: Endpoint, url: string, asked: Body)
    requires Names(asked)
    ensures Walked(endpoint, url, asked, asked, 0)
  {
    assert LevelAt(endpoint, url, asked, 0) == Some(asked.effort.level);
  }

  /** Walked along a path that is in the memo. */
  ghost function Standing(endpoint: Endpoint, memo: Memo, url: string, asked: Body): (Body, nat) -> bool
    requires Names(asked)
  {
    (b: Body, w: nat) => Walked(endpoint, url, asked, b, w) && Cached(endpoint, memo, url, asked, w)
  }

  lemma StandingStep(plain: bool, endpoint: Endpoint, memo: Memo, url: string, asked: Body, b: Body, w: nat)
    requires Agrees(plain, endpoint, memo) && OneLine(url) && Names(asked) && Clear(plain, asked)
    requires Standing(endpoint, memo, url, asked)(b, w) && Names(b) && KeyOf(url, b) in memo
    ensures Standing(endpoint, memo, url, asked)(WithEffort(b, memo[KeyOf(url, b)]), w + 1)
  {
    CachedStep(plain, endpoint, memo, url, asked, b, w);
  }

  lemma StepsStand(plain: bool, endpoint: Endpoint, memo: Memo, url: string, asked: Body, kept: (Body, nat) -> bool)
    requires Agrees(plain, endpoint, memo) && OneLine(url) && Names(asked) && Clear(plain, asked)
    requires kept == Standing(endpoint, memo, url, asked)
    ensures forall b, w: nat :: kept(b, w) && Names(b) && KeyOf(url, b) in memo ==>
              kept(WithEffort(b, memo[KeyOf(url, b)]), w + 1)
  {
    forall b, w: nat | kept(b, w) && Names(b) && KeyOf(url, b) in memo
      ensures kept(WithEffort(b, memo[KeyOf(url, b)]), w + 1)
    {
      StandingStep(plain, endpoint, memo, url, asked, b, w);
    }
  }

  lemma StandingThroughout(plain: bool, endpoint: Endpoint, memo: Memo, url: string, asked: Body, n: nat, kept: (Body, nat) -> bool)
    requires Agrees(plain, endpoint, memo) && OneLine(url) && Names(asked) && Clear(plain, asked)
    requires kept == Standing(endpoint, memo, url, asked) && kept(asked, 0)
    ensures var r := Prefetch(memo, url, asked, n);
            kept(r.0, r.1) && (r.1 < n ==> !Names(r.0) || KeyOf(url, r.0) !in memo)
  {
    StepsStand(plain, endpoint, memo, url, asked, kept);
    PrefetchKeeps(memo, url, asked, 0, n, kept);
  }

  lemma PrefetchWalks(plain: bool, endpoint: Endpoint, memo: Memo, url: string, asked: Body, n: nat)
    requires Agrees(plain, endpoint, memo) && OneLine(url) && Names(asked) && Clear(plain, asked)
    ensures var r := Prefetch(memo, url, asked, n);
            Walked(endpoint, url, asked, r.0, r.1) && Cached(endpoint, memo, url, asked, r.1) &&
            (r.1 < n ==> !Names(r.0) || KeyOf(url, r.0) !in memo)
  {
    StartsWalked(endpoint, url, asked);
    StandingThroughout(plain, endpoint, memo, url, asked, n, Standing(endpoint, memo, url, asked));
  }

  // ---- what a step-down keeps of a request ----

  /** Everything of `asked` but its level, which is the one asked for, one of the ladder, or left out. */
  ghost predicate Kin(asked: Body, body: Body) {
    if !Names(asked) then body == asked
    else
      && body.Parsed? && body.model == asked.model && body.rest == asked.rest
      && (body.effort == asked.effort || body.effort == Absent || (body.effort.Level? && body.effort.level in LADDER))
  }

  lemma KinAgain(asked: Body, body: Body, instead: Option<string>)
    requires Names(asked) && Kin(asked, body) && (instead.Some? ==> instead.value in LADDER)
    ensures Kin(asked, WithEffort(body, instead))
  {
  }

  lemma MemoNamesLadder(plain: bool, endpoint: Endpoint, memo: Memo, key: string)
    requires Agrees(plain, endpoint, memo) && key in memo && memo[key].Some?
    ensures memo[key].value in LADDER
  {
    var url, model, level :| Recorded(plain, endpoint, key, memo[key], url, model, level);
    LadderIsNamed(endpoint, url, model);
  }

  lemma PrefetchIsKin(plain: bool, endpoint: Endpoint, memo: Memo, url: string, asked: Body, n: nat)
    requires Agrees(plain, endpoint, memo)
    ensures Kin(asked, Prefetch(memo, url, asked, n).0)
  {
    var kept := (b: Body, w: nat) => Kin(asked, b);
    forall b, w: nat | kept(b, w) && Names(b) && KeyOf(url, b) in memo
      ensures kept(WithEffort(b, memo[KeyOf(url, b)]), w + 1)
    {
      if memo[KeyOf(url, b)].Some? { MemoNamesLadder(plain, endpoint, memo, KeyOf(url, b)); }
      KinAgain(asked, b, memo[KeyOf(url, b)]);
    }
    PrefetchKeeps(memo, url, asked, 0, n, kept);
  }

  // ---- the invariant of every run ----

  ghost predicate OnPath(plain: bool, endpoint: Endpoint, memo: Memo, url: string, asked: Body, body: Body, walked: nat) {
    && OneLine(url) && (plain ==> PlainBody(asked) && PlainBody(body))
    && (Names(asked) && Clear(plain, asked) ==>
          Walked(endpoint, url, asked, body, walked) && (url != "" ==> Cached(endpoint, memo, url, asked, walked)))
    && (!Names(asked) ==> body == asked && walked == 0)
  }

  /** A call under way: every rejection so far was a step-down, and the bound is not used up. */
  ghost predicate GoodCall(plain: bool, endpoint: Endpoint, memo: Memo, call: Call) {
    && |call.sent| <= |LADDER| && |call.sent| <= call.walked
    && Kin(call.asked, call.body) && (forall i :: 0 <= i < |call.sent| ==> Kin(call.asked, call.sent[i]))
    && OnPath(plain, endpoint, memo, call.url, call.asked, call.body, call.walked)
  }

  /** A finished call: it stopped where its last body was not rejected, or at the attempt bound. */
  ghost predicate GoodEnd(plain: bool, endpoint: Endpoint, memo: Memo, end: Finished) {
    && 1 <= |end.sent| <= |LADDER| + 1 && |end.sent| <= end.walked + 1
    && (forall i :: 0 <= i < |end.sent| ==> Kin(end.asked, end.sent[i]))
    && var last := end.sent[|end.sent| - 1];
    && end.response == Reply(endpoint, end.url, last)
    && OnPath(plain, endpoint, memo, end.url, end.asked, last, end.walked)
    && (|end.sent| <= |LADDER| && Names(last) ==> Ladder(endpoint, end.url, ModelName(last))(last.effort.level) == Stays)
  }

  ghost predicate Good(plain: bool, endpoint: Endpoint, world: World) {
    && Agrees(plain, endpoint, world.memo) && world.calls.Keys !! world.done.Keys
    && (forall id :: id in world.calls ==> GoodCall(plain, endpoint, world.memo, world.calls[id]))
    && (forall id :: id in world.done ==> GoodEnd(plain, endpoint, world.memo, world.done[id]))
  }

  /** What the memo holds it keeps holding. */
  ghost predicate Grows(before: Memo, after: Memo) {
    forall key :: key in before ==> key in after
  }

  lemma BeginIsGood(plain: bool, endpoint: Endpoint, memo: Memo, url: string, body: Body)
    requires Agrees(plain, endpoint, memo) && OneLine(url) && (plain ==> PlainBody(body))
    ensures GoodCall(plain, endpoint, memo, Begin(memo, url, body))
  {
    PrefetchIsKin(plain, endpoint, memo, url, body, |LADDER|);
    if Names(body) && Clear(plain, body) {
      PrefetchWalks(plain, endpoint, memo, url, body, |LADDER|);
      WalkStaysClear(plain, endpoint, url, body, Begin(memo, url, body).walked);
    }
  }

  /** Where a level leads is what the loop reads off the response. */
  lemma LadderReads(endpoint: Endpoint, url: string, body: Body)
    requires Names(body)
    ensures var response := Reply(endpoint, url, body);
            Ladder(endpoint, url, ModelName(body))(body.effort.level) ==
              if BlamesEffort(response) then Leads(EffortNamedIn(response.text, body.effort.level)) else Stays
  {
  }

  lemma NamedLevelIsPlain(body: Body, message: string)
    requires Names(body)
    ensures PlainBody(WithEffort(body, EffortNamedIn(message, body.effort.level)))
  {
    EffortNamedIsOnLadder(message, body.effort.level);
    var instead := EffortNamedIn(message, body.effort.level);
    if instead.Some? { LadderIsPlain(instead.value); }
  }

  lemma LadderIsPlain(level: string)
    requires level in LADDER
    ensures OneLine(level)
  {
  }

  /** One step-down keeps a call on its path, with what it has learnt in the memo. */
  lemma StepsAlong(plain: bool, endpoint: Endpoint, before: Memo, after: Memo, url: string, asked: Body, body: Body,
                   walked: nat, instead: Option<string>)
    requires OnPath(plain, endpoint, before, url, asked, body, walked) && Names(body) && Grows(before, after)
    requires Ladder(endpoint, url, ModelName(body))(body.effort.level) == Leads(instead)
    requires url != "" ==> KeyOf(url, body) in after
    requires plain ==> PlainBody(WithEffort(body, instead))
    ensures OnPath(plain, endpoint, after, url, asked, WithEffort(body, instead), walked + 1)
  {
    if Clear(plain, asked) {
      WalkOn(endpoint, url, asked, body, walked, instead);
      assert ModelName(body) == ModelName(asked);
      if url != "" { CachedNext(endpoint, before, after, url, asked, walked); }
    }
  }

  lemma RetryIsGood(plain: bool, endpoint: Endpoint, memo: Memo, call: Call)
    requires GoodCall(plain, endpoint, memo, call)
    requires StepsDown(call, Reply(endpoint, call.url, call.body))
    ensures var response := Reply(endpoint, call.url, call.body);
            GoodCall(plain, endpoint, Noted(memo, call, response), Retried(call, response))
  {
    var response := Reply(endpoint, call.url, call.body);
    var instead := EffortNamedIn(response.text, call.body.effort.level);
    LadderReads(endpoint, call.url, call.body);
    NamedLevelIsPlain(call.body, response.text);
    EffortNamedIsOnLadder(response.text, call.body.effort.level);
    KinAgain(call.asked, call.body, instead);
    StepsAlong(plain, endpoint, memo, Noted(memo, call, response), call.url, call.asked, call.body, call.walked, instead);
  }

  lemma CachedNext(endpoint: Endpoint, before: Memo, after: Memo, url: string, asked: Body, walked: nat)
    requires Names(asked) && Cached(endpoint, before, url, asked, walked) && Grows(before, after)
    requires LevelAt(endpoint, url, asked, walked).Some? ==>
               Key(url, ModelName(asked), LevelAt(endpoint, url, asked, walked).value) in after
    ensures Cached(endpoint, after, url, asked, walked + 1)
  {
  }

  lemma EndIsGood(plain: bool, endpoint: Endpoint, memo: Memo, call: Call)
    requires GoodCall(plain, endpoint, memo, call)
    requires !StepsDown(call, Reply(endpoint, call.url, call.body))
    ensures GoodEnd(plain, endpoint, memo, Completed(call, Reply(endpoint, call.url, call.body)))
  {
  }

  lemma GoodStaysGood(plain: bool, endpoint: Endpoint, before: Memo, after: Memo)
    requires Grows(before, after)
    ensures forall call :: GoodCall(plain, endpoint, before, call) ==> GoodCall(plain, endpoint, after, call)
    ensures forall end :: GoodEnd(plain, endpoint, before, end) ==> GoodEnd(plain, endpoint, after, end)
  {
  }

  lemma AdvanceIsGood(plain: bool, endpoint: Endpoint, world: World, event: Event)
    requires Good(plain, endpoint, world) && (event.Ask? ==> OneLine(event.url) && (plain ==> PlainBody(event.body)))
    ensures Good(plain, endpoint, Advance(endpoint, world, event))
    ensures Grows(world.memo, Advance(endpoint, world, event).memo)
    ensures forall id :: id in world.done ==>
              id in Advance(endpoint, world, event).done && Advance(endpoint, world, event).done[id] == world.done[id]
  {
    match event
    case Ask(id, url, body) => BeginIsGood(plain, endpoint, world.memo, url, body);
    case Answer(id) =>
      if id in world.calls {
        var call := world.calls[id];
        var response := Reply(endpoint, call.url, call.body);
        if StepsDown(call, response) {
          NotedAgrees(plain, endpoint, world.memo, call);
          RetryIsGood(plain, endpoint, world.memo, call);
          GoodStaysGood(plain, endpoint, world.memo, Noted(world.memo, call, response));
        } else {
          EndIsGood(plain, endpoint, world.memo, call);
        }
      }
  }

  lemma {:induction false} PlayIsGood(plain: bool, endpoint: Endpoint, world: World, events: seq<Event>)
    requires Good(plain, endpoint, world) && Addressed(events) && (plain ==> PlainLevels(events))
    ensures Good(plain, endpoint, Play(endpoint, world, events))
    ensures Grows(world.memo, Play(endpoint, world, events).memo)
    ensures forall id :: id in world.done ==>
              id in Play(endpoint, world, events).done && Play(endpoint, world, events).done[id] == world.done[id]
    decreases |events|
  {
    if events != [] {
      AdvanceIsGood(plain, endpoint, world, events[0]);
      assert forall i :: 0 <= i < |events[1..]| ==> events[1..][i] == events[i + 1];
      PlayIsGood(plain, endpoint, Advance(endpoint, world, events[0]), events[1..]);
    }
  }

  /** A call run alone from a good state ends well. */
  lemma {:induction false} RunIsGood(plain: bool, endpoint: Endpoint, memo: Memo, call: Call)
    requires Agrees(plain, endpoint, memo) && GoodCall(plain, endpoint, memo, call)
    ensures var (after, end) := Run(memo, endpoint, call);
            Agrees(plain, endpoint, after) && GoodEnd(plain, endpoint, after, end) && end.url == call.url && end.asked == call.asked
    ensures |Run(memo, endpoint, call).1.sent| - |call.sent| == Run(memo, endpoint, call).1.walked - call.walked + 1
    decreases |LADDER| - |call.sent|
  {
    var response := Reply(endpoint, call.url, call.body);
    if StepsDown(call, response) {
      NotedAgrees(plain, endpoint, memo, call);
      RetryIsGood(plain, endpoint, memo, call);
      RunIsGood(plain, endpoint, Noted(memo, call, response), Retried(call, response));
    } else {
      EndIsGood(plain, endpoint, memo, call);
    }
  }

  // ---- main results ----

  /** `asked`, field by field, with another level or none. */
  function Lowered(asked: Body, level: Option<string>): Body
    requires asked.Parsed?
  {
    Parsed(asked.model, match level case Some(l) => Level(l) case None => Absent, asked.rest)
  }

  /** What a finished call sent last. */
  function LastSent(end: Finished): Body {
    if end.sent == [] then NoBody else end.sent[|end.sent| - 1]
  }

  /** The call of a client without a memo. */
  function Uncached(url: string, body: Body): Call { Call(url, body, body, 0, []) }

  /** A well-ended call whose step-down comes to rest within the bound ends exactly there. */
  lemma EndsAtRest(plain: bool, endpoint: Endpoint, memo: Memo, end: Finished, d: nat)
    requires GoodEnd(plain, endpoint, memo, end) && Names(end.asked) && Clear(plain, end.asked)
    requires Rests(endpoint, end.url, end.asked, d) && d <= |LADDER|
    ensures LastSent(end) == WithEffort(end.asked, LevelAt(endpoint, end.url, end.asked, d))
    ensures end.walked == d && |end.sent| <= d + 1
  {
    var steps := Ladder(endpoint, end.url, ModelName(end.asked));
    RestFrom(steps, Some(end.asked.effort.level), d, end.walked);
  }

  /** In every run of interleaved calls, no call sends more than six requests, and each ends with the
      answer to its last one; and a call whose step-down comes to rest within the bound sends last, and
      is answered, exactly what a client without a memo sends last and is answered: the body as asked,
      with the level the step-down rests at. */
  lemma CachedEqualsUncached(endpoint: Endpoint, events: seq<Event>, id: nat)
    requires Addressed(events) && id in Play(endpoint, IDLE, events).done
    ensures var end := Play(endpoint, IDLE, events).done[id];
            1 <= |end.sent| <= 6 && end.response == Reply(endpoint, end.url, LastSent(end)) &&
            forall d: nat :: Names(end.asked) && OwnKeys(events, end.asked) && Rests(endpoint, end.url, end.asked, d) && d <= |LADDER| ==>
              LastSent(end) == Lowered(end.asked, LevelAt(endpoint, end.url, end.asked, d)) &&
              LastSent(end) == LastSent(Run(map[], endpoint, Uncached(end.url, end.asked)).1) &&
              end.response == Run(map[], endpoint, Uncached(end.url, end.asked)).1.response &&
              |Run(map[], endpoint, Uncached(end.url, end.asked)).1.sent| == d + 1
  {
    var plain := PlainLevels(events);
    PlayIsGood(plain, endpoint, IDLE, events);
    var memo := Play(endpoint, IDLE, events).memo;
    var end := Play(endpoint, IDLE, events).done[id];
    assert GoodEnd(plain, endpoint, memo, end);
    forall d: nat | Names(end.asked) && OwnKeys(events, end.asked) && Rests(endpoint, end.url, end.asked, d) && d <= |LADDER|
      ensures LastSent(end) == Lowered(end.asked, LevelAt(endpoint, end.url, end.asked, d))
      ensures LastSent(end) == LastSent(Run(map[], endpoint, Uncached(end.url, end.asked)).1)
      ensures end.response == Run(map[], endpoint, Uncached(end.url, end.asked)).1.response
      ensures |Run(map[], endpoint, Uncached(end.url, end.asked)).1.sent| == d + 1
    {
      EndsAtRest(plain, endpoint, memo, end, d);
      var alone := Uncached(end.url, end.asked);
      assert GoodCall(plain, endpoint, map[], alone);
      RunIsGood(plain, endpoint, map[], alone);
      var (after, other) := Run(map[], endpoint, alone);
      EndsAtRest(plain, endpoint, after, other, d);
    }
  }

  /** In every run, every request sent is the one asked for in all its fields but the level, and its level
      is the one asked for, one of the ladder, or left out; a request without a level is sent as it is. */
  lemma OnlyTheLevelChanges(endpoint: Endpoint, events: seq<Event>, id: nat, i: nat)
    requires Addressed(events) && id in Play(endpoint, IDLE, events).done
    requires i < |Play(endpoint, IDLE, events).done[id].sent|
    ensures var end := Play(endpoint, IDLE, events).done[id];
            var asked, body := end.asked, end.sent[i];
            if asked.Parsed? && asked.effort.Level? then
              body.Parsed? && body.model == asked.model && body.rest == asked.rest &&
              (body.effort == asked.effort || body.effort == Absent ||
               exists k :: 0 <= k < 5 && body.effort == Level(LADDER[k]))
            else body == asked
  {
    PlayIsGood(PlainLevels(events), endpoint, IDLE, events);
    var end := Play(endpoint, IDLE, events).done[id];
    assert GoodEnd(PlainLevels(events), endpoint, Play(endpoint, IDLE, events).memo, end);
    assert Kin(end.asked, end.sent[i]);
  }

  /** From a level on the ladder the bound never cuts a step-down that comes to rest. */
  lemma BoundNeverCuts(endpoint: Endpoint, url: string, asked: Body, d: nat)
    requires Names(asked) && asked.effort.level in LADDER && Rests(endpoint, url, asked, d)
    ensures d <= |LADDER|
  {
    LadderIsNamed(endpoint, url, ModelName(asked));
    RestIsWithinBound(Ladder(endpoint, url, ModelName(asked)), asked.effort.level, d);
  }

  /** With its whole step-down in the memo, a call sends one request: the one it rests at. */
  lemma CachedRunsOnce(plain: bool, endpoint: Endpoint, memo: Memo, url: string, body: Body, d: nat)
    requires Agrees(plain, endpoint, memo) && OneLine(url) && Names(body) && Clear(plain, body)
    requires Cached(endpoint, memo, url, body, d) && Rests(endpoint, url, body, d) && d <= |LADDER|
    ensures var call := Begin(memo, url, body);
            call.body == Lowered(body, LevelAt(endpoint, url, body, d)) &&
            Run(memo, endpoint, call).1.sent == [call.body]
  {
    var call := Begin(memo, url, body);
    BeginsAtRest(plain, endpoint, memo, url, body, d);
    if Names(call.body) { LadderReads(endpoint, url, call.body); }
  }

  lemma BeginsAtRest(plain: bool, endpoint: Endpoint, memo: Memo, url: string, body: Body, d: nat)
    requires Agrees(plain, endpoint, memo) && OneLine(url) && Names(body) && Clear(plain, body)
    requires Cached(endpoint, memo, url, body, d) && Rests(endpoint, url, body, d) && d <= |LADDER|
    ensures var call := Begin(memo, url, body);
            call.body == WithEffort(body, LevelAt(endpoint, url, body, d)) &&
            (Names(call.body) ==> Ladder(endpoint, url, ModelName(call.body))(call.body.effort.level) == Stays)
  {
    PrefetchWalks(plain, endpoint, memo, url, body, |LADDER|);
    var call := Begin(memo, url, body);
    RestFrom(Ladder(endpoint, url, ModelName(body)), Some(body.effort.level), d, call.walked);
    assert call.walked == d;
  }

  /** `body` asks for what the finished call asked for. */
  predicate AsksAlike(end: Finished, body: Body) {
    Names(end.asked) && Names(body) && ModelName(body) == ModelName(end.asked) && body.effort == end.asked.effort
  }

  lemma EndLeavesChain(plain: bool, endpoint: Endpoint, earlier: Memo, now: Memo, end: Finished, body: Body, d: nat)
    requires GoodEnd(plain, endpoint, earlier, end) && Grows(earlier, now)
    requires end.url != "" && AsksAlike(end, body) && Clear(plain, end.asked)
    requires d <= |LADDER| && Rests(endpoint, end.url, end.asked, d)
    ensures Cached(endpoint, now, end.url, body, d) && Rests(endpoint, end.url, body, d)
    ensures OneLine(end.url) && Clear(plain, body)
  {
    EndsAtRest(plain, endpoint, earlier, end, d);
    forall i: nat | i < d && LevelAt(endpoint, end.url, body, i).Some?
      ensures Key(end.url, ModelName(body), LevelAt(endpoint, end.url, body, i).value) in now
    {
      assert LevelAt(endpoint, end.url, body, i) == LevelAt(endpoint, end.url, end.asked, i);
    }
  }

  lemma PlainParts(before: seq<Event>, after: seq<Event>)
    ensures PlainLevels(before + after) ==> PlainLevels(before) && PlainLevels(after)
  {
    var all := before + after;
    assert forall i :: 0 <= i < |before| ==> before[i] == all[i];
    assert forall i :: 0 <= i < |after| ==> after[i] == all[|before| + i];
  }

  /** Once a call has ended at rest, any later call for the same url, model and level, at whatever
      moment of whatever run it begins, sends one request: the one the step-down rests at. */
  lemma OneRequestOnceCached(endpoint: Endpoint, before: seq<Event>, after: seq<Event>, id: nat, body: Body, d: nat)
    requires Addressed(before) && Addressed(after) && id in Play(endpoint, IDLE, before).done
    requires var end := Play(endpoint, IDLE, before).done[id];
             end.url != "" && AsksAlike(end, body) && OwnKeys(before + after, end.asked) &&
             d <= |LADDER| && Rests(endpoint, end.url, end.asked, d)
    ensures var url := Play(endpoint, IDLE, before).done[id].url;
            var memo := Play(endpoint, Play(endpoint, IDLE, before), after).memo;
            var call := Begin(memo, url, body);
            call.body == Lowered(body, LevelAt(endpoint, url, body, d)) &&
            Run(memo, endpoint, call).1.sent == [call.body]
  {
    var plain := PlainLevels(before + after);
    PlainParts(before, after);
    PlayIsGood(plain, endpoint, IDLE, before);
    var world := Play(endpoint, IDLE, before);
    PlayIsGood(plain, endpoint, world, after);
    var end, memo := world.done[id], Play(endpoint, world, after).memo;
    EndLeavesChain(plain, endpoint, world.memo, memo, end, body, d);
    CachedRunsOnce(plain, endpoint, memo, end.url, body, d);
  }

  // ---- an endpoint that names what it takes ----

  ghost predicate Accepts(endpoint: Endpoint, url: string, model: string, level: string) {
    IsOk(endpoint.answer(url, model, level))
  }

  ghost function Accepted(endpoint: Endpoint, url: string, model: string): set<string> {
    set level | level in LADDER && Accepts(endpoint, url, model, level)
  }

  /** This level is accepted, or rejected with a message naming (besides perhaps the rejected level
      itself) exactly the levels that are accepted. */
  ghost predicate Candid(endpoint: Endpoint, url: string, model: string, level: string) {
    !Accepts(endpoint, url, model, level) ==>
      BlamesEffort(endpoint.answer(url, model, level)) &&
      NamedLevels(endpoint.answer(url, model, level).text) - {level} == Accepted(endpoint, url, model)
  }

  lemma CandidRests(endpoint: Endpoint, url: string, asked: Body) returns (d: nat)
    requires Names(asked) && Candid(endpoint, url, ModelName(asked), asked.effort.level)
    ensures d <= 1 && Rests(endpoint, url, asked, d)
    ensures var rest := LevelAt(endpoint, url, asked, d);
            if Accepts(endpoint, url, ModelName(asked), asked.effort.level) then rest == Some(asked.effort.level)
            else BestOf(Accepted(endpoint, url, ModelName(asked)), asked.effort.level, rest)
  {
    var model, level := ModelName(asked), asked.effort.level;
    var steps := Ladder(endpoint, url, model);
    var response := endpoint.answer(url, model, level);
    if Accepts(endpoint, url, model, level) {
      d := 0;
    } else {
      d := 1;
      EffortNamedIsBest(response.text, level);
      var instead := steps(level).instead;
      assert instead.Some? ==> Accepts(endpoint, url, model, instead.value);
      assert RestsAfter(steps, instead, 0);
      assert At(steps, Some(level), 1) == At(steps, instead, 0);
    }
  }

  /** Against an endpoint whose rejection of the level asked for names exactly its accepted levels, every call of every run
      ends, in at most two requests, with the body as asked carrying the level asked for if that is
      accepted, else the highest accepted level not above it, else the lowest accepted, else none; and
      answered with success if any is left. */
  lemma CandidStepDown(endpoint: Endpoint, events: seq<Event>, id: nat)
    requires Addressed(events) && id in Play(endpoint, IDLE, events).done
    requires var end := Play(endpoint, IDLE, events).done[id];
             Names(end.asked) && OwnKeys(events, end.asked) &&
             Candid(endpoint, end.url, ModelName(end.asked), end.asked.effort.level)
    ensures var end := Play(endpoint, IDLE, events).done[id];
            var level := end.asked.effort.level;
            |end.sent| <= 2 &&
            exists choice ::
              LastSent(end) == Lowered(end.asked, choice) &&
              (choice.Some? ==> 200 <= end.response.status <= 299) &&
              if Accepts(endpoint, end.url, ModelName(end.asked), level) then choice == Some(level)
              else BestOf(Accepted(endpoint, end.url, ModelName(end.asked)), level, choice)
  {
    var plain := PlainLevels(events);
    PlayIsGood(plain, endpoint, IDLE, events);
    var world := Play(endpoint, IDLE, events);
    var end := world.done[id];
    var d := CandidRests(endpoint, end.url, end.asked);
    EndsAtRest(plain, endpoint, world.memo, end, d);
    var choice := LevelAt(endpoint, end.url, end.asked, d);
    assert LastSent(end) == Lowered(end.asked, choice);
  }

  // ---- keys that two requests share ----

  lemma {:induction false} WordsOfWord(text: string, word: string)
    requires forall i :: 0 <= i < |text| ==> IsWordChar(text[i])
    ensures Words(text, word) == {word + text}
  {
    if text == [] {
      assert word + text == word;
    } else {
      WordsOfWord(text[1..], word + [text[0]]);
      assert word + [text[0]] + text[1..] == word + text;
    }
  }

  /** A rejection that names no level at all. */
  lemma BareRejection(level: string)
    ensures MentionsEffort("reasoning_effort") && EffortNamedIn("reasoning_effort", level) == None
  {
    var text := "reasoning_effort";
    assert text[..16] == text && Lower(text) == text;
    LongWordNamesNothing(text);
    EffortNamedIsBest(text, level);
  }

  lemma LongWordNamesNothing(text: string)
    requires |text| > 6 && forall i :: 0 <= i < |text| ==> IsWordChar(text[i])
    ensures NamedLevels(text) == {}
  {
    WordsOfWord(text, "");
    assert "" + text == text && |Lower(text)| > 6;
    assert forall level :: level in LADDER ==> |level| <= 6;
  }

  /** An endpoint that refuses one level of one model and takes everything else. */
  function RefusesOne(model: string, level: string): Endpoint {
    Endpoint((url: string, model': string, level': string) =>
               if model' == model && level' == level then Response(400, "reasoning_effort") else Response(200, ""),
             (url: string, body: Body) => Response(200, ""))
  }

  lemma PlayTwo(endpoint: Endpoint, world: World, first: Event, second: Event)
    ensures Play(endpoint, world, [first, second]) == Advance(endpoint, Advance(endpoint, world, first), second)
  {
    var after := Advance(endpoint, world, first);
    assert [first, second][1..] == [second] && [second][1..] == [];
    assert Play(endpoint, after, [second]) == Advance(endpoint, after, second);
  }

  /** The refused request, sent once and answered, is noted under its key as a level to leave out. */
  lemma RefusalIsNoted(url: string, model: string, level: string)
    requires url != ""
    ensures var other := Parsed(Some(model), Level(level), "");
            Play(RefusesOne(model, level), IDLE, [Ask(0, url, other), Answer(0)]).memo == map[Key(url, model, level) := None]
  {
    var endpoint, other := RefusesOne(model, level), Parsed(Some(model), Level(level), "");
    PlayTwo(endpoint, IDLE, Ask(0, url, other), Answer(0));
    var asked := Advance(endpoint, IDLE, Ask(0, url, other));
    var call := Call(url, other, other, 0, []);
    assert asked.memo == map[] && asked.calls == map[0 := call];
    var response := Response(400, "reasoning_effort");
    BareRejection(level);
    assert Reply(endpoint, url, other) == response && StepsDown(call, response);
    assert KeyOf(url, other) == Key(url, model, level);
    assert Noted(map[], call, response) == map[Key(url, model, level) := None];
  }

  /** Two requests with one key: once the first is refused, the memo sends the second, which the
      endpoint takes, without its level. */
  lemma SharedKeyMisleads(url: string, model: string, level: string, model': string, level': string)
    requires url != "" && Key(url, model', level') == Key(url, model, level)
    requires model' != model || level' != level
    ensures var endpoint := RefusesOne(model', level');
            var other := Parsed(Some(model'), Level(level'), "");
            var memo := Play(endpoint, IDLE, [Ask(0, url, other), Answer(0)]).memo;
            Ladder(endpoint, url, model)(level) == Stays && Key(url, model, level) in memo &&
            memo[Key(url, model, level)] == None
  {
    RefusalIsNoted(url, model', level');
    assert RefusesOne(model', level').answer(url, model, level) == Response(200, "");
  }

  /** The memo's entry for this key is what the endpoint answers to this model and level. */
  ghost predicate Faithful(endpoint: Endpoint, events: seq<Event>, url: string, model: string, level: string) {
    var memo, key := Play(endpoint, IDLE, events).memo, Key(url, model, level);
    key in memo ==> Ladder(endpoint, url, model)(level) == Leads(memo[key])
  }

  lemma FaithfulWhenClear(endpoint: Endpoint, events: seq<Event>, url: string, model: string, level: string)
    requires Addressed(events) && OneLine(url) && OneLine(level) && (PlainLevels(events) || OneLine(model))
    ensures Faithful(endpoint, events, url, model, level)
  {
    PlayIsGood(PlainLevels(events), endpoint, IDLE, events);
    if Key(url, model, level) in Play(endpoint, IDLE, events).memo {
      EntryAgrees(PlainLevels(events), endpoint, Play(endpoint, IDLE, events).memo, url, model, level);
    }
  }

  /** The run in which `model'` is refused at `level'`. */
  function Refusal(url: string, model': string, level': string): seq<Event> {
    [Ask(0, url, Parsed(Some(model'), Level(level'), "")), Answer(0)]
  }

  lemma RefusalMisleads(url: string, model: string, level: string, model': string, level': string)
    requires OneLine(url) && url != "" && Key(url, model', level') == Key(url, model, level)
    requires model' != model || level' != level
    ensures Addressed(Refusal(url, model', level')) && (OneLine(level') ==> PlainLevels(Refusal(url, model', level')))
    ensures !Faithful(RefusesOne(model', level'), Refusal(url, model', level'), url, model, level)
  {
    SharedKeyMisleads(url, model, level, model', level');
  }

  /** In every run that asks for one-line levels, at every endpoint, the memo's entry for a model and a
      level is what the endpoint answers to them, exactly when the level is one line, whatever the
      model. In runs that may ask for any level, exactly when both are one line. */
  lemma MemoAgreesIff(url: string, model: string, level: string)
    requires OneLine(url) && url != ""
    ensures (forall endpoint: Endpoint, events: seq<Event> ::
               Addressed(events) && PlainLevels(events) ==> Faithful(endpoint, events, url, model, level))
            <==> OneLine(level)
    ensures (forall endpoint: Endpoint, events: seq<Event> ::
               Addressed(events) ==> Faithful(endpoint, events, url, model, level))
            <==> OneLine(model) && OneLine(level)
  {
    if OneLine(level) {
      forall endpoint: Endpoint, events: seq<Event> | Addressed(events) && (PlainLevels(events) || OneLine(model))
        ensures Faithful(endpoint, events, url, model, level)
      {
        FaithfulWhenClear(endpoint, events, url, model, level);
      }
      if !OneLine(model) {
        ModelSplits(url, model, level);
        var model', level' :| Key(url, model', level') == Key(url, model, level) && model' != model;
        RefusalMisleads(url, model, level, model', level');
      }
    } else {
      var model', level' := LevelSplits(url, model, level);
      RefusalMisleads(url, model, level, model', level');
    }
  }
}
