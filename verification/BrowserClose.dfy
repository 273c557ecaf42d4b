/** Closing a native browser page while opens may still be on their way: one session, its intents, its
    opens, and the close that fences them. */
module BrowserClose {
  import opened Base

  datatype Desired = Open | Hidden | Closed

  datatype Intent = Intent(epoch: nat, desired: Desired)

  /** What the host says about a close. `retryable` is a stale intent or an intent collision. */
  datatype Disposition = Disposition(accepted: bool, complete: bool, retryable: bool)

  datatype Round = First | Retry | Fence

  /** Where a close stands between awaits: declared, waiting for the host's reply to a close call (which
      the host may have given already), or waiting for opens to settle. */
  datatype Stage = Declared | Asking(round: Round, reply: Option<Disposition>) | Waiting

  /** A close under way: its epoch, the intent before it, the opens pending when it began, how many
      opens had been started by then, and how many close calls it has sent. */
  datatype Close = Close(epoch: nat, previous: Option<Intent>, pending: set<nat>, startedBefore: nat, calls: nat, stage: Stage)

  /** How a close ended. */
  datatype Outcome = Resolved(close: Close) | Rejected(close: Close)

  /** The session's tab: whether the roster lists it, and whether its close button waits for the close
      under way, or has seen it resolve and takes the tab off next. */
  datatype Tab = Tab(listed: bool, waits: bool, forgets: bool)

  /** A session: the current intent and the next epoch; the opens on their way and how many were ever
      started; the close under way, if any, and how the last one ended; its tab; whether the host shows
      a page. */
  datatype World = World(intent: Option<Intent>, nextEpoch: nat, opens: set<nat>, started: nat,
                         close: Option<Close>, outcome: Option<Outcome>, tab: Tab, nativeOpen: bool, runtime: bool)

  datatype Event =
    | Issue(desired: Desired)
    | StartOpen(epoch: nat, admitted: bool)
    | OpenRefused(epoch: nat)
    | OpenTakesEffect(id: nat)
    | OpenSettles(id: nat)
    | ListTab
    | RequestClose(fromTab: bool)
    | Continue
    | ForgetTab
    | DiscardDraft
    | HostReplies(reply: Disposition)
    | CallFails

  predicate IsCurrent(world: World, epoch: nat, desired: Desired) {
    world.intent == Some(Intent(epoch, desired))
  }

  /** The newest epoch goes to the newest intent. */
  function Issued(world: World, desired: Desired): World {
    world.(intent := Some(Intent(world.nextEpoch, desired)), nextEpoch := world.nextEpoch + 1)
  }

  function Ask(world: World, close: Close, round: Round): World {
    world.(close := Some(close.(calls := close.calls + 1, stage := Asking(round, None))))
  }

  /** The close resolves; its tab goes only if the Closed intent is still the newest. */
  function Resolve(world: World, close: Close): World {
    world.(close := None, outcome := Some(Resolved(close)),
           tab := Tab(world.tab.listed && !IsCurrent(world, close.epoch, Closed),
                      false, world.tab.forgets || world.tab.waits))
  }

  function Reject(world: World, close: Close): World {
    world.(close := None, outcome := Some(Rejected(close)),
           tab := world.tab.(waits := false))
  }

  /** The tab's own close button waits for the close, whoever asked for it first. */
  function Pressed(tab: Tab, fromTab: bool): Tab {
    tab.(waits := tab.waits || fromTab)
  }

  /** After the first reply that is not retried. */
  function Disposed(world: World, close: Close, reply: Disposition): World {
    if !reply.accepted then
      Reject(if IsCurrent(world, close.epoch, Closed) then world.(intent := close.previous) else world, close)
    else if !reply.complete then Reject(world, close)
    else if close.pending != {} then world.(close := Some(close.(stage := Waiting)))
    else Resolve(world, close)
  }

  /** What the close does with the host's reply to one of its calls. */
  function Replied(world: World, close: Close, round: Round, reply: Disposition): World {
    match round
    case First =>
      if !reply.accepted && reply.retryable && IsCurrent(world, close.epoch, Closed)
      then Ask(Issued(world, Closed), close.(epoch := world.nextEpoch), Retry)
      else Disposed(world, close, reply)
    case Retry => Disposed(world, close, reply)
    case Fence => if !reply.accepted || !reply.complete then Reject(world, close) else Resolve(world, close)
  }

  /** What the close does when it is resumed with what it waited for. */
  function Resumed(world: World, close: Close): World {
    match close.stage
    case Declared =>
      if world.runtime then Ask(world, close, First) else Disposed(world, close, Disposition(true, true, false))
    case Asking(round, reply) => if reply.None? then world else Replied(world, close, round, reply.value)
    case Waiting =>
      if close.pending * world.opens != {} then world
      else if world.runtime then Ask(world, close, Fence)
      else Resolve(world, close)
  }

  /** One event; what is not possible changes nothing. An open is admitted when its conversation exists and
      is not being deleted; one that comes to nothing under a current intent takes the tab off, and so
      does discarding the draft the page belongs to. An open may take effect at the host at any moment
      before it settles; a close accepted and completed there takes the page away. */
  function Advance(world: World, event: Event): World {
    match event
    case Issue(desired) => Issued(world, desired)
    case StartOpen(epoch, admitted) =>
      if !admitted || world.close.Some? || !IsCurrent(world, epoch, Open) then world
      else world.(opens := world.opens + {world.started}, started := world.started + 1)
    case OpenTakesEffect(id) =>
      if id in world.opens && world.runtime then world.(nativeOpen := true) else world
    case OpenRefused(epoch) =>
      if IsCurrent(world, epoch, Open) then world.(tab := world.tab.(listed := false)) else world
    case OpenSettles(id) => world.(opens := world.opens - {id})
    case ListTab => world.(tab := world.tab.(listed := true))
    case RequestClose(fromTab) =>
      if world.close.Some? then world.(tab := Pressed(world.tab, fromTab))
      else
        Issued(world, Closed).(
          close := Some(Close(world.nextEpoch, world.intent, world.opens, world.started, 0, Declared)),
          tab := Pressed(world.tab, fromTab))
    case ForgetTab =>
      if world.tab.forgets then world.(tab := world.tab.(listed := false, forgets := false)) else world
    case DiscardDraft => world.(tab := world.tab.(listed := false))
    case Continue => if world.close.None? then world else Resumed(world, world.close.value)
    case HostReplies(reply) =>
      if world.close.None? || !world.close.value.stage.Asking? || world.close.value.stage.reply.Some? then world
      else
        var close := world.close.value;
        world.(close := Some(close.(stage := Asking(close.stage.round, Some(reply)))),
               nativeOpen := if reply.accepted && reply.complete then false else world.nativeOpen)
    case CallFails =>
      if world.close.None? || !world.close.value.stage.Asking? then world else Reject(world, world.close.value)
  }

  function Play(world: World, events: seq<Event>): World
    decreases |events|
  {
    if events == [] then world else Play(Advance(world, events[0]), events[1..])
  }

  // ---- the invariant ----

  /** The page is gone for good as far as a close is concerned: it has been taken away and no open is on
      its way. */
  predicate Gone(world: World) { !world.nativeOpen && world.opens == {} }

  predicate Completes(reply: Option<Disposition>) { reply.Some? && reply.value.accepted && reply.value.complete }

  /** While a close is under way no open is started; it sends one call a round; it fences only once its
      opens have settled; and a completed reply with no open on its way means the page is gone. */
  ghost predicate Fenced(world: World, close: Close) {
    && world.opens <= close.pending && world.started == close.startedBefore
    && match close.stage
       case Declared => close.calls == 0
       case Waiting => close.calls <= 2 && close.pending != {}
       case Asking(round, reply) =>
         && world.runtime && close.calls <= (match round case First => 1 case Retry => 2 case Fence => 3)
         && (round.Fence? ==> world.opens == {})
         && (Completes(reply) && (close.pending == {} || round.Fence?) ==> !world.nativeOpen)
  }

  /** How the last close ended, at the moment it did. */
  ghost predicate EndedWell(world: World, end: Outcome) {
    && end.close.calls <= 3
    && (end.Resolved? ==>
          end.close.pending * world.opens == {} && world.started == end.close.startedBefore && Gone(world))
  }

  /** The tab is off the roster after a close exactly if it was before, or the close resolved while its
      Closed intent was the newest. */
  ghost predicate RetiresWell(before: World, after: World)
    requires before.close.Some? && after.outcome.Some?
  {
    after.tab.listed <==>
      before.tab.listed && !(after.outcome.value.Resolved? && IsCurrent(after, after.outcome.value.close.epoch, Closed))
  }

  ghost predicate Sound(world: World) {
    && (world.close.Some? ==> Fenced(world, world.close.value))
    && (!world.runtime ==> !world.nativeOpen)
  }

  lemma DisposedIsSound(world: World, close: Close, reply: Disposition)
    requires Sound(world) && world.close == Some(close) && close.calls <= 2
    requires reply.accepted && reply.complete && close.pending == {} ==> !world.nativeOpen
    ensures var after := Disposed(world, close, reply);
            Sound(after) && after.runtime == world.runtime &&
            (after.close.None? ==>
               after.outcome.Some? && EndedWell(after, after.outcome.value) && RetiresWell(world, after) &&
               after.outcome.value.close == close)
  {
  }

  /** Resuming a close keeps the invariant, and if that ends the close, it ends well. */
  lemma ResumedIsSound(world: World)
    requires Sound(world) && world.close.Some?
    ensures var after := Resumed(world, world.close.value);
            Sound(after) && after.runtime == world.runtime &&
            (after.close.None? ==>
               after.outcome.Some? && EndedWell(after, after.outcome.value) && RetiresWell(world, after))
  {
    var close := world.close.value;
    match close.stage
    case Declared =>
      if !world.runtime { DisposedIsSound(world, close, Disposition(true, true, false)); }
    case Asking(round, reply) =>
      if reply.Some? && !round.Fence? {
        DisposedIsSound(world, close, reply.value);
      }
    case Waiting =>
  }

  lemma AdvanceIsSound(world: World, event: Event)
    requires Sound(world)
    ensures var after := Advance(world, event);
            Sound(after) && after.runtime == world.runtime &&
            (world.close.Some? && after.close.None? ==>
               after.outcome.Some? && EndedWell(after, after.outcome.value) && RetiresWell(world, after))
  {
    if event.Continue? && world.close.Some? { ResumedIsSound(world); }
  }

  lemma {:induction false} PlayIsSound(world: World, events: seq<Event>)
    requires Sound(world)
    ensures Sound(Play(world, events))
    decreases |events|
  {
    if events != [] {
      AdvanceIsSound(world, events[0]);
      PlayIsSound(Advance(world, events[0]), events[1..]);
    }
  }

  /** A session nobody has closed yet, with or without a page, opens or intents. */
  ghost predicate Unclosed(world: World) {
    world.close.None? && (!world.runtime ==> !world.nativeOpen)
  }

  /** Under every interleaving of intents, opens, their effects and their settling with the host's
      replies: at the moment a close resolves, every open pending when it began has settled, none was
      started meanwhile, the page is gone, and its tab is taken off the roster exactly if its Closed
      intent is the newest; and however it ends, it has sent at most three close calls. */
  lemma CloseFences(start: World, events: seq<Event>, last: Event)
    requires Unclosed(start)
    requires var world := Play(start, events); world.close.Some? && Advance(world, last).close.None?
    ensures var after := Advance(Play(start, events), last);
            after.outcome.Some? && EndedWell(after, after.outcome.value) && RetiresWell(Play(start, events), after)
  {
    PlayIsSound(start, events);
    AdvanceIsSound(Play(start, events), last);
  }

  // ---- when a close goes on, and how it ends ----

  /** Asking to close declares a new Closed intent, the newest, and takes note of the intent before it and
      of the opens on their way; while a close is under way it only joins it. */
  lemma CloseBegins(world: World, fromTab: bool)
    ensures var after := Advance(world, RequestClose(fromTab));
            after.tab.listed == world.tab.listed && (after.tab.waits <==> world.tab.waits || fromTab) &&
            if world.close.Some? then after.close == world.close && after.intent == world.intent && after.nextEpoch == world.nextEpoch
            else
              after.intent == Some(Intent(world.nextEpoch, Closed)) && after.nextEpoch > world.nextEpoch &&
              after.close == Some(Close(world.nextEpoch, world.intent, world.opens, world.started, 0, Declared))
  {
  }

  /** Whatever happens, a close under way keeps what it noted when it began; its intent is replaced only by
      a newer Closed one, which is then the newest. */
  lemma CloseKeeps(world: World, event: Event)
    requires world.close.Some? && Advance(world, event).close.Some?
    ensures var before, after := world.close.value, Advance(world, event).close.value;
            after.previous == before.previous && after.pending == before.pending && after.startedBefore == before.startedBefore &&
            (after.epoch != before.epoch ==>
               event.Continue? && IsCurrent(world, before.epoch, Closed) && IsCurrent(Advance(world, event), after.epoch, Closed))
  {
  }

  /** What opens are on their way: one begins exactly when it is admitted, no close is under way and its
      Open intent is the newest, and it is on its way until it settles; the page is shown from when one of
      them takes effect until a close is accepted and completed. */
  lemma OpensAre(world: World, event: Event, id: nat)
    ensures var after := Advance(world, event);
            var begins := event.StartOpen? && event.admitted && world.close.None? && world.intent == Some(Intent(event.epoch, Open));
            (id in after.opens <==> (id in world.opens && event != OpenSettles(id)) || (begins && id == world.started)) &&
            after.started == world.started + (if begins then 1 else 0) &&
            (after.nativeOpen <==>
               (world.nativeOpen &&
                !(event.HostReplies? && event.reply.accepted && event.reply.complete &&
                  world.close.Some? && world.close.value.stage.Asking? && world.close.value.stage.reply.None?)) ||
               (event.OpenTakesEffect? && event.id in world.opens && world.runtime))
  {
  }

  /** What the close button waits for: pressed, it waits until the close under way ends; if that resolves,
      it takes the tab off at its next step, once. Only a new page puts the tab back on. */
  lemma ButtonWaits(world: World, event: Event)
    requires Sound(world)
    ensures var after := Advance(world, event);
            var ends := world.close.Some? && after.close.None?;
            (after.tab.waits <==> (world.tab.waits && !ends) || event == RequestClose(true)) &&
            (after.tab.forgets <==>
               (world.tab.forgets && !event.ForgetTab?) || (ends && world.tab.waits && after.outcome.value.Resolved?)) &&
            (after.tab.listed && !world.tab.listed <==> event.ListTab? && !world.tab.listed)
  {
    if event.Continue? && world.close.Some? { ResumedIsSound(world); }
  }

  /** The host has answered the call the close waits for, and not the fence. */
  predicate AnsweredBefore(close: Close, accepted: bool, complete: bool) {
    close.stage.Asking? && !close.stage.round.Fence? && close.stage.reply.Some? &&
    close.stage.reply.value.accepted == accepted && (accepted ==> close.stage.reply.value.complete == complete)
  }

  /** The first call was refused in a way that may pass, and no newer intent has come. */
  predicate MayAskAgain(world: World, close: Close) {
    AnsweredBefore(close, false, false) && close.stage.round.First? && close.stage.reply.value.retryable &&
    IsCurrent(world, close.epoch, Closed)
  }

  /** When a close, resumed, sends a call, waits for opens, or does nothing yet. With a backend it asks; it
      asks once more exactly when its first call may be asked again, under a new Closed intent; it waits
      exactly when it has been accepted and completed with opens pending (without a backend, at once); and
      it sends the fence exactly when all of them have settled. */
  lemma CloseGoesOnIff(world: World)
    requires Sound(world) && world.close.Some?
    ensures var before, after := world.close.value, Advance(world, Continue);
            (after.close.Some? && before.stage.Declared? && after.close.value.stage.Asking? <==> before.stage.Declared? && world.runtime) &&
            (after.close.Some? && after.close.value.stage == Asking(Retry, None) && before.stage != Asking(Retry, None) <==>
             MayAskAgain(world, before)) &&
            (MayAskAgain(world, before) ==>
               after.close.value.epoch == world.nextEpoch && after.intent == Some(Intent(world.nextEpoch, Closed)) &&
               after.close.value.calls == before.calls + 1) &&
            (after.close.Some? && after.close.value.stage.Waiting? && !before.stage.Waiting? <==>
             before.pending != {} && (AnsweredBefore(before, true, true) || (before.stage.Declared? && !world.runtime))) &&
            (after.close.Some? && after.close.value.stage == Asking(Fence, None) && before.stage != Asking(Fence, None) <==>
             before.stage.Waiting? && world.runtime && before.pending * world.opens == {})
  {
  }

  /** When a close, resumed, ends: on a refusal it does not ask again after, on an answer that the cleanup is
      not complete, on an answer that it is with no opens to wait for, on any answer to the fence; without
      a backend, as soon as no open is pending. */
  lemma CloseEndsIff(world: World)
    requires Sound(world) && world.close.Some?
    ensures var close := world.close.value;
            Advance(world, Continue).close.None? <==>
              (AnsweredBefore(close, false, false) && !MayAskAgain(world, close)) ||
              AnsweredBefore(close, true, false) ||
              (AnsweredBefore(close, true, true) && close.pending == {}) ||
              (close.stage.Asking? && close.stage.round.Fence? && close.stage.reply.Some?) ||
              (!world.runtime && close.stage.Declared? && close.pending == {}) ||
              (!world.runtime && close.stage.Waiting? && close.pending * world.opens == {})
  {
  }

  /** In every run, a close that ends resolves if and only if there is no backend, or its last call was
      answered, accepted and complete, with no opens pending when it began or to the fence; and ending
      leaves the intent alone, but for a refusal while its own is the newest, which puts back the one
      before it. */
  lemma CloseResolvesIff(start: World, events: seq<Event>, last: Event)
    requires Unclosed(start)
    requires var world := Play(start, events); world.close.Some? && Advance(world, last).close.None?
    ensures var before, after := Play(start, events), Advance(Play(start, events), last);
            var close := before.close.value;
            after.outcome.Some? && after.outcome.value.close == close && (last.Continue? || last.CallFails?) &&
            (after.outcome.value.Resolved? <==>
             !before.runtime ||
             (last.Continue? && close.stage.Asking? && Completes(close.stage.reply) &&
              (close.pending == {} || close.stage.round.Fence?))) &&
            after.intent ==
              if last.Continue? && AnsweredBefore(close, false, false) && IsCurrent(before, close.epoch, Closed)
              then close.previous else before.intent
  {
    PlayIsSound(start, events);
    EndingResolvesIff(Play(start, events), last);
  }

  lemma EndingResolvesIff(world: World, last: Event)
    requires Sound(world) && world.close.Some? && Advance(world, last).close.None?
    ensures var after, close := Advance(world, last), world.close.value;
            after.outcome.Some? && after.outcome.value.close == close && (last.Continue? || last.CallFails?) &&
            (after.outcome.value.Resolved? <==>
             !world.runtime ||
             (last.Continue? && close.stage.Asking? && Completes(close.stage.reply) &&
              (close.pending == {} || close.stage.round.Fence?))) &&
            after.intent ==
              if last.Continue? && AnsweredBefore(close, false, false) && IsCurrent(world, close.epoch, Closed)
              then close.previous else world.intent
  {
  }

  /** Without opens pending when it begins, an accepted close sends at most two calls and no fence. */
  lemma NoOpensNoFence(world: World)
    requires Sound(world) && world.close.Some? && world.close.value.pending == {}
    requires !(world.close.value.stage.Asking? && world.close.value.stage.round.Fence?)
    requires !world.close.value.stage.Waiting?
    ensures var after := Resumed(world, world.close.value);
            (after.close.Some? ==>
               after.close.value.calls <= 2 && !after.close.value.stage.Waiting? &&
               !(after.close.value.stage.Asking? && after.close.value.stage.round.Fence?)) &&
            (after.close.None? ==> after.outcome.value.close.calls <= 2)
  {
  }

  /** The fence is needed: an older open can bring the page back after the host has completed the first
      close, and only then settle. */
  lemma FirstCloseIsNotEnough()
    ensures exists events: seq<Event> ::
              var start := World(Some(Intent(0, Open)), 1, {}, 0, None, None, Tab(true, false, false), false, true);
              var world := Play(start, events);
              world.close.Some? && world.close.value.stage.Waiting? && world.opens == {} && world.nativeOpen
  {
    var start := World(Some(Intent(0, Open)), 1, {}, 0, None, None, Tab(true, false, false), false, true);
    var done := Disposition(true, true, false);
    var events := [StartOpen(0, true), RequestClose(false), Continue, HostReplies(done), Continue, OpenTakesEffect(0), OpenSettles(0)];
    var w1 := Advance(start, StartOpen(0, true));
    var w2 := Advance(w1, RequestClose(false));
    var w3 := Advance(w2, Continue);
    var w4 := Advance(w3, HostReplies(done));
    var w5 := Advance(w4, Continue);
    var w6 := Advance(w5, OpenTakesEffect(0));
    var w7 := Advance(w6, OpenSettles(0));
    assert w7.opens == {};
    Unroll(start, events);
    Unroll(w1, events[1..]);
    Unroll(w2, events[1..][1..]);
    Unroll(w3, events[1..][1..][1..]);
    Unroll(w4, [Continue, OpenTakesEffect(0), OpenSettles(0)]);
    Unroll(w5, [OpenTakesEffect(0), OpenSettles(0)]);
    Unroll(w6, [OpenSettles(0)]);
    assert Play(start, events) == w7;
  }

  lemma Unroll(world: World, events: seq<Event>)
    requires events != []
    ensures Play(world, events) == Play(Advance(world, events[0]), events[1..])
  {
  }

  /** In every run, the tab leaves the roster at a step exactly when a close resolves at it with its Closed
      intent the newest; or its close button, having seen a close resolve, takes it off, whatever intent is
      the newest by then; or an open comes to nothing while its Open intent is the newest; or its draft is
      discarded. */
  lemma TabLeavesIff(start: World, events: seq<Event>, last: Event)
    requires Unclosed(start) && Play(start, events).tab.listed
    ensures var before, after := Play(start, events), Advance(Play(start, events), last);
            !after.tab.listed <==>
              (before.close.Some? && after.close.None? && after.outcome.value.Resolved? &&
               IsCurrent(after, after.outcome.value.close.epoch, Closed)) ||
              (last.ForgetTab? && before.tab.forgets) ||
              (last.OpenRefused? && IsCurrent(before, last.epoch, Open)) ||
              last.DiscardDraft?
  {
    PlayIsSound(start, events);
    AdvanceIsSound(Play(start, events), last);
    if !Advance(Play(start, events), last).tab.listed { LeavesAtAClose(Play(start, events), last); }
  }

  lemma LeavesAtAClose(world: World, event: Event)
    requires world.tab.listed && !Advance(world, event).tab.listed
    ensures event.ForgetTab? || event.OpenRefused? || event.DiscardDraft? ||
            (world.close.Some? && Advance(world, event).close.None?)
  {
  }

  /** The button's own step does not look at the intent: a close resolves under a newer Open intent and
      leaves the tab, and the button takes it off all the same. */
  lemma ButtonOverridesNewerIntent()
    ensures exists events: seq<Event> ::
              var start := World(Some(Intent(0, Open)), 1, {}, 0, None, None, Tab(true, false, false), false, true);
              var world := Play(start, events);
              world.close.None? && world.tab.listed && IsCurrent(world, 2, Open) && !Advance(world, ForgetTab).tab.listed
  {
    var start := World(Some(Intent(0, Open)), 1, {}, 0, None, None, Tab(true, false, false), false, true);
    var done := Disposition(true, true, false);
    var events := [RequestClose(true), Continue, Issue(Open), HostReplies(done), Continue];
    var w1 := Advance(start, RequestClose(true));
    var w2 := Advance(w1, Continue);
    var w3 := Advance(w2, Issue(Open));
    var w4 := Advance(w3, HostReplies(done));
    var w5 := Advance(w4, Continue);
    Unroll(start, events);
    Unroll(w1, events[1..]);
    Unroll(w2, events[1..][1..]);
    Unroll(w3, [HostReplies(done), Continue]);
    Unroll(w4, [Continue]);
    assert Play(start, events) == w5;
  }

  // ---- the renderer's side as it runs ----

  class Session {
    var intent: Option<Intent>
    var nextEpoch: nat
    var opens: set<nat>
    var started: nat
    var close: Option<Close>
    var outcome: Option<Outcome>
    var tab: Tab
    /** Whether the host shows a page; only the host changes it. */
    var nativeOpen: bool
    const runtime: bool

    function View(): World
      reads this
    {
      World(intent, nextEpoch, opens, started, close, outcome, tab, nativeOpen, runtime)
    }

    constructor (runtime: bool)
      ensures View() == World(None, 0, {}, 0, None, None, Tab(false, false, false), false, runtime) && Sound(View())
    {
      this.runtime := runtime;
      intent, nextEpoch, opens, started, close, outcome, nativeOpen := None, 0, {}, 0, None, None, false;
      tab := Tab(false, false, false);
    }

    method IssueIntent(desired: Desired) returns (epoch: nat)
      modifies `intent, `nextEpoch
      ensures View() == Issued(old(View()), desired) && epoch == old(nextEpoch)
    {
      epoch := nextEpoch;
      nextEpoch := nextEpoch + 1;
      intent := Some(Intent(epoch, desired));
    }

    /** Starts an open for an intent, unless its conversation is being deleted or gone, a close is under
        way, or the intent is no longer current. */
    method OpenBuiltInBrowser(epoch: nat, deleting: bool, known: bool) returns (open: Option<nat>)
      requires Sound(View())
      modifies `opens, `started
      ensures Sound(View()) && View() == Advance(old(View()), StartOpen(epoch, !deleting && known))
      ensures open.Some? <==> !deleting && old(close).None? && old(IsCurrent(View(), epoch, Open)) && known
    {
      AdvanceIsSound(View(), StartOpen(epoch, !deleting && known));
      if deleting || close.Some? || intent != Some(Intent(epoch, Open)) || !known { return None; }
      open := Some(started);
      opens := opens + {started};
      started := started + 1;
    }

    /** Declares the Closed intent and takes note of the opens on their way, all at once. */
    method RequestBrowserSessionClose(fromTab: bool)
      requires Sound(View())
      modifies this
      ensures Sound(View()) && View() == Advance(old(View()), RequestClose(fromTab))
    {
      AdvanceIsSound(View(), RequestClose(fromTab));
      if fromTab { tab := tab.(waits := true); }
      if close.Some? { return; }
      var previous := intent;
      var epoch := IssueIntent(Closed);
      close := Some(Close(epoch, previous, opens, started, 0, Declared));
    }

    /** The close ends; resolved, it takes the tab off if its Closed intent is still the newest. */
    method End(end: Outcome)
      modifies `close, `outcome, `tab
      ensures View() == if end.Resolved? then Resolve(old(View()), end.close) else Reject(old(View()), end.close)
    {
      if end.Resolved? && intent == Some(Intent(end.close.epoch, Closed)) { tab := tab.(listed := false); }
      if end.Resolved? && tab.waits { tab := tab.(forgets := true); }
      tab := tab.(waits := false);
      close, outcome := None, Some(end);
    }

    /** What the tab's close button does once the close it waited for has resolved. */
    method ForgetPreview()
      requires tab.forgets
      modifies `tab
      ensures View() == Advance(old(View()), ForgetTab)
    {
      tab := tab.(listed := false, forgets := false);
    }

    method Dispose(reply: Disposition)
      requires close.Some?
      modifies this
      ensures View() == Disposed(old(View()), old(close.value), reply)
    {
      var closing := close.value;
      if !reply.accepted {
        if intent == Some(Intent(closing.epoch, Closed)) { intent := closing.previous; }
        End(Rejected(closing));
      } else if !reply.complete {
        End(Rejected(closing));
      } else if closing.pending != {} {
        close := Some(closing.(stage := Waiting));
      } else {
        End(Resolved(closing));
      }
    }

    /** Resumes the close under way with what it waited for. */
    method ContinueClose()
      requires close.Some? && Sound(View())
      modifies this
      ensures Sound(View()) && View() == Advance(old(View()), Continue)
      ensures close.None? ==> outcome.Some? && EndedWell(View(), outcome.value)
    {
      ResumedIsSound(View());
      var closing := close.value;
      match closing.stage {
        case Declared =>
          if runtime {
            close := Some(closing.(calls := closing.calls + 1, stage := Asking(First, None)));
          } else {
            Dispose(Disposition(true, true, false));
          }
        case Waiting =>
          if closing.pending * opens == {} {
            if runtime {
              close := Some(closing.(calls := closing.calls + 1, stage := Asking(Fence, None)));
            } else {
              End(Resolved(closing));
            }
          }
        case Asking(round, Some(reply)) =>
          if round.First? && !reply.accepted && reply.retryable && intent == Some(Intent(closing.epoch, Closed)) {
            var epoch := IssueIntent(Closed);
            close := Some(closing.(epoch := epoch, calls := closing.calls + 1, stage := Asking(Retry, None)));
          } else if !round.Fence? {
            Dispose(reply);
          } else if !reply.accepted || !reply.complete {
            End(Rejected(closing));
          } else {
            End(Resolved(closing));
          }
        case Asking(_, None) =>
      }
    }
  }
}
