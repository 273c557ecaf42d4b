/** The plan of a conversation lives at the host. The renderer learns it from pushes, which arrive in
    order, and from loads, which the host may answer at any moment. */
module PlanSync {
  import opened Base

  /** A plan, or none. */
  type Plan = Option<string>

  datatype Push = Push(conversation: string, plan: Plan)

  /** A load under way: the push count when it was requested, what the host answered once it has read
      the plan, and whether the renderer has lost interest. */
  datatype Load = Load(conversation: string, requestedAt: nat, answer: Option<Plan>, cancelled: bool)

  /** What the renderer holds. */
  datatype Renderer = Renderer(pushCount: nat, plans: map<string, Plan>)

  /** The host's plans, the pushes on their way, the loads under way, and the renderer. */
  datatype World = World(host: map<string, Plan>, pushes: seq<Push>, loads: map<nat, Load>, renderer: Renderer)

  datatype Event =
    | Write(conversation: string, plan: Plan)
    | Arrive
    | Request(id: nat, conversation: string)
    | Answer(id: nat)
    | Cancel(id: nat)
    | Settle(id: nat)
    | Fail(id: nat)

  function HostPlan(host: map<string, Plan>, conversation: string): Plan {
    if conversation in host then host[conversation] else None
  }

  // ---- the renderer's two ways to learn a plan ----

  function TakePush(renderer: Renderer, push: Push): Renderer {
    Renderer(renderer.pushCount + 1, renderer.plans[push.conversation := push.plan])
  }

  /** An answer counts only if the load is still wanted and no push has landed since it was requested. */
  function TakeAnswer(renderer: Renderer, load: Load, plan: Plan): Renderer {
    if load.cancelled || renderer.pushCount != load.requestedAt then renderer
    else renderer.(plans := renderer.plans[load.conversation := plan])
  }

  /** One event; what is not possible changes nothing. Every host write sends one push. */
  function Advance(world: World, event: Event): World {
    match event
    case Write(conversation, plan) =>
      world.(host := world.host[conversation := plan], pushes := world.pushes + [Push(conversation, plan)])
    case Arrive =>
      if world.pushes == [] then world
      else world.(pushes := world.pushes[1..], renderer := TakePush(world.renderer, world.pushes[0]))
    case Request(id, conversation) =>
      if id in world.loads then world
      else world.(loads := world.loads[id := Load(conversation, world.renderer.pushCount, None, false)])
    case Answer(id) =>
      if id !in world.loads || world.loads[id].answer.Some? then world
      else
        var load := world.loads[id];
        world.(loads := world.loads[id := load.(answer := Some(HostPlan(world.host, load.conversation)))])
    case Cancel(id) =>
      if id !in world.loads then world else world.(loads := world.loads[id := world.loads[id].(cancelled := true)])
    case Settle(id) =>
      if id !in world.loads || world.loads[id].answer.None? then world
      else
        var load := world.loads[id];
        world.(loads := world.loads - {id}, renderer := TakeAnswer(world.renderer, load, load.answer.value))
    case Fail(id) =>
      world.(loads := world.loads - {id})
  }

  function Play(world: World, events: seq<Event>): World
    decreases |events|
  {
    if events == [] then world else Play(Advance(world, events[0]), events[1..])
  }

  // ---- the invariant ----

  ghost predicate Pending(pushes: seq<Push>, conversation: string) {
    exists i :: 0 <= i < |pushes| && pushes[i].conversation == conversation
  }

  /** The last push on its way for a conversation carries the host's plan. */
  ghost predicate LastCarries(host: map<string, Plan>, pushes: seq<Push>) {
    forall i :: 0 <= i < |pushes| && (forall j :: i < j < |pushes| ==> pushes[j].conversation != pushes[i].conversation) ==>
      HostPlan(host, pushes[i].conversation) == pushes[i].plan
  }

  /** A displayed plan, or an answer that will count, is the host's unless a push is on its way. */
  ghost predicate Current(world: World) {
    && LastCarries(world.host, world.pushes)
    && (forall c :: c in world.renderer.plans && !Pending(world.pushes, c) ==> world.renderer.plans[c] == HostPlan(world.host, c))
    && (forall id :: id in world.loads ==>
          var load := world.loads[id];
          load.requestedAt <= world.renderer.pushCount &&
          (load.requestedAt == world.renderer.pushCount && load.answer.Some? && !Pending(world.pushes, load.conversation) ==>
             load.answer.value == HostPlan(world.host, load.conversation)))
  }

  lemma WriteStaysCurrent(world: World, conversation: string, plan: Plan)
    requires Current(world)
    ensures Current(Advance(world, Write(conversation, plan)))
  {
    var after := Advance(world, Write(conversation, plan));
    assert after.pushes[|world.pushes|].conversation == conversation;
    assert Pending(after.pushes, conversation);
    forall c
      ensures Pending(world.pushes, c) ==> Pending(after.pushes, c)
      ensures c != conversation && Pending(after.pushes, c) ==> Pending(world.pushes, c)
    {
      if Pending(world.pushes, c) {
        var i :| 0 <= i < |world.pushes| && world.pushes[i].conversation == c;
        assert after.pushes[i].conversation == c;
      }
    }
    forall i | 0 <= i < |after.pushes| && forall j :: i < j < |after.pushes| ==> after.pushes[j].conversation != after.pushes[i].conversation
      ensures HostPlan(after.host, after.pushes[i].conversation) == after.pushes[i].plan
    {
      if i < |world.pushes| {
        assert after.pushes[|world.pushes|].conversation != after.pushes[i].conversation;
        assert forall j :: i < j < |world.pushes| ==> after.pushes[j] == world.pushes[j];
        assert after.pushes[i] == world.pushes[i];
      }
    }
  }

  lemma LastCarriesTail(host: map<string, Plan>, pushes: seq<Push>)
    requires LastCarries(host, pushes) && pushes != []
    ensures LastCarries(host, pushes[1..])
    ensures !Pending(pushes[1..], pushes[0].conversation) ==> HostPlan(host, pushes[0].conversation) == pushes[0].plan
  {
    var rest := pushes[1..];
    assert forall i :: 0 < i < |pushes| ==> pushes[i] == rest[i - 1];
    forall i | 0 <= i < |rest| && forall j :: i < j < |rest| ==> rest[j].conversation != rest[i].conversation
      ensures HostPlan(host, rest[i].conversation) == rest[i].plan
    {
      assert pushes[i + 1] == rest[i];
    }
  }

  lemma PendingTail(pushes: seq<Push>, c: string)
    requires pushes != [] && Pending(pushes, c) && c != pushes[0].conversation
    ensures Pending(pushes[1..], c)
  {
  }

  lemma ArriveStaysCurrent(world: World)
    requires Current(world) && world.pushes != []
    ensures Current(Advance(world, Arrive))
  {
    var after := Advance(world, Arrive);
    LastCarriesTail(world.host, world.pushes);
    forall c | c in after.renderer.plans && !Pending(after.pushes, c)
      ensures after.renderer.plans[c] == HostPlan(after.host, c)
    {
      if c != world.pushes[0].conversation && Pending(world.pushes, c) { PendingTail(world.pushes, c); }
    }
  }

  lemma AdvanceStaysCurrent(world: World, event: Event)
    requires Current(world)
    ensures Current(Advance(world, event))
  {
    match event
    case Write(conversation, plan) => WriteStaysCurrent(world, conversation, plan);
    case Arrive => if world.pushes != [] { ArriveStaysCurrent(world); }
    case _ =>
  }

  lemma {:induction false} PlayStaysCurrent(world: World, events: seq<Event>)
    requires Current(world)
    ensures Current(Play(world, events))
    decreases |events|
  {
    if events != [] {
      AdvanceStaysCurrent(world, events[0]);
      PlayStaysCurrent(Advance(world, events[0]), events[1..]);
    }
  }

  /** A renderer that has just begun, beside a host with any plans. */
  function Begun(host: map<string, Plan>): World {
    World(host, [], map[], Renderer(0, map[]))
  }

  /** For every interleaving of host writes, in-order pushes, and loads that are read at any moment,
      answered, dropped or failed: a displayed plan for which no push is on its way is the host's
      current plan; so with no push on its way, every displayed plan is. */
  lemma DisplayedPlansAreCurrent(host: map<string, Plan>, events: seq<Event>, conversation: string)
    requires var world := Play(Begun(host), events);
             conversation in world.renderer.plans && !Pending(world.pushes, conversation)
    ensures var world := Play(Begun(host), events);
            world.renderer.plans[conversation] == HostPlan(world.host, conversation)
  {
    PlayStaysCurrent(Begun(host), events);
  }

  /** The guard at work: a load read before a write and answered after its push would put the old plan
      back; the count has moved, so the answer is dropped. */
  lemma StaleAnswerIsDropped()
    ensures var before := Play(Begun(map[]), [Request(0, "c"), Answer(0), Write("c", Some("new")), Arrive]);
            0 in before.loads && before.pushes == [] && before.loads[0].answer == Some(None) &&
            HostPlan(before.host, "c") == Some("new") &&
            Advance(before, Settle(0)).renderer.plans == map["c" := Some("new")]
  {
  }

  // ---- what is displayed ----

  /** A push that arrives displays its plan and leaves every other displayed plan as it was; a load that
      settles can change only its own conversation's; nothing else changes any, and none is ever taken
      away. */
  lemma DisplayChangesBy(world: World, event: Event, conversation: string)
    ensures var before, after := world.renderer.plans, Advance(world, event).renderer.plans;
            (conversation in before ==> conversation in after) &&
            (event.Arrive? && world.pushes != [] && world.pushes[0].conversation == conversation ==>
               conversation in after && after[conversation] == world.pushes[0].plan) &&
            (Shown(before, conversation) != Shown(after, conversation) ==>
               (event.Arrive? && world.pushes != [] && world.pushes[0].conversation == conversation) ||
               (event.Settle? && event.id in world.loads && world.loads[event.id].conversation == conversation))
  {
  }

  /** A load is under way from its request until it settles, answered, or fails. */
  lemma LoadsAre(world: World, event: Event, id: nat)
    ensures id in Advance(world, event).loads <==>
              (id in world.loads && event != Fail(id) && !(event == Settle(id) && world.loads[id].answer.Some?)) ||
              (event.Request? && event.id == id)
  {
  }

  function Shown(plans: map<string, Plan>, conversation: string): Option<Plan> {
    if conversation in plans then Some(plans[conversation]) else None
  }

  /** The host has written the conversation's plan somewhere in the run. */
  predicate Written(events: seq<Event>, conversation: string) {
    events != [] && ((events[0].Write? && events[0].conversation == conversation) || Written(events[1..], conversation))
  }

  lemma PendingGrows(pushes: seq<Push>, push: Push, c: string)
    ensures Pending(pushes + [push], c) <==> Pending(pushes, c) || push.conversation == c
  {
    var all := pushes + [push];
    assert all[|pushes|] == push;
    if Pending(pushes, c) {
      var i :| 0 <= i < |pushes| && pushes[i].conversation == c;
      assert all[i] == pushes[i];
    }
  }

  /** A plan displayed or on its way stays so. */
  lemma StaysOnItsWay(world: World, event: Event, conversation: string)
    requires conversation in world.renderer.plans || Pending(world.pushes, conversation)
    ensures var after := Advance(world, event); conversation in after.renderer.plans || Pending(after.pushes, conversation)
  {
    match event
    case Write(c, plan) => PendingGrows(world.pushes, Push(c, plan), conversation);
    case Arrive =>
      if world.pushes != [] && conversation != world.pushes[0].conversation && Pending(world.pushes, conversation) {
        PendingTail(world.pushes, conversation);
      }
    case _ =>
  }

  lemma {:induction false} WrittenIsOnItsWay(world: World, events: seq<Event>, conversation: string)
    requires conversation in world.renderer.plans || Pending(world.pushes, conversation) || Written(events, conversation)
    ensures var after := Play(world, events); conversation in after.renderer.plans || Pending(after.pushes, conversation)
    decreases |events|
  {
    if events != [] {
      var next := Advance(world, events[0]);
      if conversation in world.renderer.plans || Pending(world.pushes, conversation) {
        StaysOnItsWay(world, events[0], conversation);
      } else if events[0].Write? && events[0].conversation == conversation {
        PendingGrows(world.pushes, Push(conversation, events[0].plan), conversation);
      }
      WrittenIsOnItsWay(next, events[1..], conversation);
    }
  }

  /** In every run, a plan that the host has written is displayed, and is the host's, once no push about it
      is on its way. */
  lemma WrittenPlansAreDisplayed(host: map<string, Plan>, events: seq<Event>, conversation: string)
    requires Written(events, conversation) && !Pending(Play(Begun(host), events).pushes, conversation)
    ensures var world := Play(Begun(host), events);
            conversation in world.renderer.plans && world.renderer.plans[conversation] == HostPlan(world.host, conversation)
  {
    WrittenIsOnItsWay(Begun(host), events, conversation);
    DisplayedPlansAreCurrent(host, events, conversation);
  }

  // ---- when an answer counts ----

  /** How many pushes arrive in a run. */
  function Arrivals(world: World, events: seq<Event>): nat
    decreases |events|
  {
    if events == [] then 0
    else (if events[0].Arrive? && world.pushes != [] then 1 else 0) + Arrivals(Advance(world, events[0]), events[1..])
  }

  /** The load is under way all through a run. */
  ghost predicate UnderWay(world: World, id: nat, events: seq<Event>)
    decreases |events|
  {
    id in world.loads && (events != [] ==> UnderWay(Advance(world, events[0]), id, events[1..]))
  }

  lemma {:induction false} LoadKeeps(world: World, id: nat, events: seq<Event>)
    requires UnderWay(world, id, events)
    ensures var after := Play(world, events);
            id in after.loads &&
            after.renderer.pushCount == world.renderer.pushCount + Arrivals(world, events) &&
            after.loads[id].conversation == world.loads[id].conversation &&
            after.loads[id].requestedAt == world.loads[id].requestedAt &&
            (after.loads[id].cancelled <==> world.loads[id].cancelled || Cancel(id) in events)
    decreases |events|
  {
    if events != [] { LoadKeeps(Advance(world, events[0]), id, events[1..]); }
  }

  /** The world right after a load has been requested. */
  function Requesting(host: map<string, Plan>, before: seq<Event>, id: nat, conversation: string): World {
    Advance(Play(Begun(host), before), Request(id, conversation))
  }

  /** A load requested at any moment of any run, once answered and settled, is taken exactly when no
      push, about whatever conversation, has arrived since it was requested and it was not cancelled.
      Taken, its answer is displayed; dropped, nothing changes, so a plan not displayed before is
      displayed exactly in the first case. */
  lemma AnswerIsTakenIff(host: map<string, Plan>, before: seq<Event>, id: nat, conversation: string, between: seq<Event>)
    requires id !in Play(Begun(host), before).loads
    requires UnderWay(Requesting(host, before, id, conversation), id, between)
    requires var world := Play(Requesting(host, before, id, conversation), between);
             id in world.loads && world.loads[id].answer.Some?
    ensures var world := Play(Requesting(host, before, id, conversation), between);
            var after := Advance(world, Settle(id));
            var taken := Arrivals(Requesting(host, before, id, conversation), between) == 0 && Cancel(id) !in between;
            (taken ==> after.renderer.plans == world.renderer.plans[conversation := world.loads[id].answer.value]) &&
            (!taken ==> after.renderer.plans == world.renderer.plans) &&
            (conversation !in world.renderer.plans ==> (conversation in after.renderer.plans <==> taken))
  {
    LoadKeeps(Requesting(host, before, id, conversation), id, between);
  }

  /** The count is one for all conversations: a push about another conversation is enough to drop an
      answer, and then nothing is displayed for this one. */
  lemma AnotherPushDropsTheAnswer(world: World, id: nat, other: Push)
    requires id in world.loads && world.loads[id].answer.Some? && world.loads[id].requestedAt == world.renderer.pushCount
    requires world.pushes == [other] && other.conversation != world.loads[id].conversation
    requires world.loads[id].conversation !in world.renderer.plans
    ensures world.loads[id].conversation !in Advance(Advance(world, Arrive), Settle(id)).renderer.plans
  {
  }

  // ---- the renderer as it runs ----

  class Plans {
    var pushCount: nat
    var plans: map<string, Plan>

    function View(): Renderer
      reads this
    {
      Renderer(pushCount, plans)
    }

    constructor ()
      ensures View() == Renderer(0, map[])
    {
      pushCount, plans := 0, map[];
    }

    /** A plan pushed by the host. */
    method Pushed(push: Push)
      modifies this
      ensures View() == TakePush(old(View()), push)
    {
      pushCount := pushCount + 1;
      plans := plans[push.conversation := push.plan];
    }

    /** A load begins: the push count it will be checked against. */
    method Requested(conversation: string) returns (load: Load)
      ensures load == Load(conversation, pushCount, None, false)
    {
      load := Load(conversation, pushCount, None, false);
    }

    /** The answer to a load. */
    method Answered(load: Load, plan: Plan)
      modifies this
      ensures View() == TakeAnswer(old(View()), load, plan)
    {
      if load.cancelled { return; }
      if pushCount != load.requestedAt { return; }
      plans := plans[load.conversation := plan];
    }
  }
}
