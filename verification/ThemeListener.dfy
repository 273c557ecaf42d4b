/** The native theme subscription across starts, stops and asynchronous connects. */
module ThemeListener {
  import opened Base

  datatype Theme = Day | Night

  /** A connect under way for one generation: waiting for the window's theme, then for its
      subscription, which may be live before the caller learns of it. */
  datatype Connect = AwaitingTheme | AwaitingSubscription(registered: Option<nat>)

  /** The store, the connects under way by generation, and the native subscriptions that are live,
      with the generation each belongs to. Subscriptions are numbered. */
  datatype World = World(started: bool, generation: nat, systemTheme: Theme, stopNative: Option<nat>, mediaAttached: bool,
                         connects: map<nat, Connect>, live: map<nat, nat>, nextSubscription: nat)

  const FRESH := World(false, 0, Day, None, false, map[], map[], 0)

  datatype Event =
    | Start(media: Option<Theme>, native: bool)
    | Stop
    | ThemeRead(generation: nat, initial: Option<Theme>)
    | Registers(generation: nat)
    | Subscribed(generation: nat)
    | ConnectFails(generation: nat)
    | NativeChange(generation: nat, theme: Theme)
    | MediaChange(theme: Theme)

  /** Whether a continuation of `generation` still counts. */
  predicate Counts(world: World, generation: nat) { world.started && generation == world.generation }

  function StopListening(world: World, subscription: Option<nat>): World {
    if subscription.Some? then world.(live := world.live - {subscription.value}) else world
  }

  /** One event; what is not possible changes nothing. */
  function Advance(world: World, event: Event): World {
    match event
    case Start(media, native) =>
      if world.started then world
      else
        var generation := world.generation + 1;
        world.(started := true, generation := generation, mediaAttached := media.Some?,
               systemTheme := if media.Some? then media.value else world.systemTheme,
               connects := if native then world.connects[generation := AwaitingTheme] else world.connects)
    case Stop =>
      if !world.started then world
      else
        StopListening(world, world.stopNative).(
          started := false, generation := world.generation + 1, mediaAttached := false, stopNative := None)
    case ThemeRead(g, theme) =>
      if g !in world.connects || !world.connects[g].AwaitingTheme? then world
      else if !Counts(world, g) then world.(connects := world.connects - {g})
      else
        world.(systemTheme := if theme.Some? then theme.value else world.systemTheme,
               connects := world.connects[g := AwaitingSubscription(None)])
    case Registers(g) =>
      if g !in world.connects || world.connects[g] != AwaitingSubscription(None) then world
      else
        world.(connects := world.connects[g := AwaitingSubscription(Some(world.nextSubscription))],
               live := world.live[world.nextSubscription := g], nextSubscription := world.nextSubscription + 1)
    case Subscribed(g) =>
      if g !in world.connects || world.connects[g].AwaitingTheme? || world.connects[g].registered.None? then world
      else
        var subscription := world.connects[g].registered;
        var done := world.(connects := world.connects - {g});
        if !Counts(world, g) then StopListening(done, subscription)
        else StopListening(done, world.stopNative).(stopNative := subscription)
    case ConnectFails(g) =>
      if g in world.connects && (world.connects[g].AwaitingTheme? || world.connects[g].registered.None?)
      then world.(connects := world.connects - {g}) else world
    case NativeChange(g, theme) => if Counts(world, g) then world.(systemTheme := theme) else world
    case MediaChange(theme) => if world.mediaAttached then world.(systemTheme := theme) else world
  }

  function Play(world: World, events: seq<Event>): World
    decreases |events|
  {
    if events == [] then world else Play(Advance(world, events[0]), events[1..])
  }

  // ---- the invariant ----

  /** A connect of generation `g` holds subscription `s`. */
  predicate Holds(world: World, g: nat, s: nat) {
    g in world.connects && world.connects[g] == AwaitingSubscription(Some(s))
  }

  /** Every live subscription is the store's own or held by a connect of its generation; the store's is
      of the current generation, which then has no connect under way; a stopped store has none. */
  ghost predicate Sound(world: World) {
    && (forall g :: g in world.connects ==> g <= world.generation)
    && (forall s :: s in world.live ==> s < world.nextSubscription && (world.stopNative == Some(s) || Holds(world, world.live[s], s)))
    && (forall g, s :: Holds(world, g, s) ==> s in world.live && world.live[s] == g && world.stopNative != Some(s))
    && (world.stopNative.Some? ==>
          world.started && world.stopNative.value in world.live && world.live[world.stopNative.value] == world.generation &&
          world.generation !in world.connects)
  }

  lemma StartIsSound(world: World, media: Option<Theme>, native: bool)
    requires Sound(world)
    ensures Sound(Advance(world, Start(media, native)))
  {
    var after := Advance(world, Start(media, native));
    assert forall g, s :: Holds(after, g, s) <==> Holds(world, g, s);
  }

  lemma StopIsSound(world: World)
    requires Sound(world)
    ensures Sound(Advance(world, Stop))
  {
    var after := Advance(world, Stop);
    assert forall g, s :: Holds(after, g, s) <==> Holds(world, g, s);
  }

  lemma ThemeReadIsSound(world: World, g: nat, theme: Option<Theme>)
    requires Sound(world)
    ensures Sound(Advance(world, ThemeRead(g, theme)))
  {
    var after := Advance(world, ThemeRead(g, theme));
    assert forall h, s :: Holds(after, h, s) <==> Holds(world, h, s);
  }

  lemma RegistersIsSound(world: World, g: nat)
    requires Sound(world)
    ensures Sound(Advance(world, Registers(g)))
  {
    var after := Advance(world, Registers(g));
    if g in world.connects && world.connects[g] == AwaitingSubscription(None) {
      var issued := world.nextSubscription;
      assert issued !in world.live;
      assert Holds(after, g, issued);
      assert forall h, s :: Holds(after, h, s) <==> Holds(world, h, s) || (h == g && s == issued);
    }
  }

  lemma SubscribedIsSound(world: World, g: nat)
    requires Sound(world)
    ensures Sound(Advance(world, Subscribed(g)))
  {
    var after := Advance(world, Subscribed(g));
    if g in world.connects && world.connects[g].AwaitingSubscription? && world.connects[g].registered.Some? {
      var own := world.connects[g].registered.value;
      assert Holds(world, g, own);
      assert forall h, s :: Holds(after, h, s) <==> Holds(world, h, s) && h != g;
    }
  }

  lemma AdvanceIsSound(world: World, event: Event)
    requires Sound(world)
    ensures Sound(Advance(world, event))
    ensures world.generation <= Advance(world, event).generation
  {
    match event
    case Start(media, native) => StartIsSound(world, media, native);
    case Stop => StopIsSound(world);
    case ThemeRead(g, theme) => ThemeReadIsSound(world, g, theme);
    case Registers(g) => RegistersIsSound(world, g);
    case Subscribed(g) => SubscribedIsSound(world, g);
    case _ =>
      var after := Advance(world, event);
      assert forall h, s :: Holds(after, h, s) <==> Holds(world, h, s);
  }

  lemma {:induction false} PlayIsSound(world: World, events: seq<Event>)
    requires Sound(world)
    ensures Sound(Play(world, events)) && world.generation <= Play(world, events).generation
    decreases |events|
  {
    if events != [] {
      AdvanceIsSound(world, events[0]);
      PlayIsSound(Advance(world, events[0]), events[1..]);
    }
  }

  /** In every reachable state with no connect under way, what is live natively is exactly the store's
      own subscription: at most one, none when stopped. */
  lemma OneSubscriptionAtMost(events: seq<Event>)
    requires Play(FRESH, events).connects == map[]
    ensures var world := Play(FRESH, events);
            world.live.Keys == (if world.stopNative.Some? then {world.stopNative.value} else {}) &&
            |world.live| <= 1 && (!world.started ==> world.live == map[])
  {
    PlayIsSound(FRESH, events);
    var world := Play(FRESH, events);
    var own := if world.stopNative.Some? then {world.stopNative.value} else {};
    assert forall s :: s in world.live.Keys <==> s in own;
    assert world.live.Keys == own && |world.live| == |world.live.Keys|;
  }

  /** Once a generation is over, nothing of it ever changes the system theme again: not its
      subscription's callbacks, not the theme its connect reads. */
  lemma OldGenerationsAreSilent(events: seq<Event>, later: seq<Event>, g: nat, theme: Theme)
    requires g < Play(FRESH, events).generation ||
             (g == Play(FRESH, events).generation && !Play(FRESH, events).started)
    ensures var world := Play(Play(FRESH, events), later);
            Advance(world, NativeChange(g, theme)) == world &&
            Advance(world, ThemeRead(g, Some(theme))).systemTheme == world.systemTheme
  {
    PlayIsSound(FRESH, events);
    StaysOver(Play(FRESH, events), later, g);
  }

  lemma {:induction false} StaysOver(world: World, events: seq<Event>, g: nat)
    requires Sound(world)
    requires g < world.generation || (g == world.generation && !world.started)
    ensures !Counts(Play(world, events), g)
    decreases |events|
  {
    if events != [] {
      AdvanceIsSound(world, events[0]);
      StaysOver(Advance(world, events[0]), events[1..], g);
    }
  }

  // ---- what the store does hear ----

  /** The system theme takes the value of a callback of the current generation, of the theme its connect
      reads, of the media query while its listener is attached, and of the media query at a start; nothing
      else changes it. */
  lemma ThemeFollows(world: World, event: Event)
    ensures Advance(world, event).systemTheme ==
              match event
              case NativeChange(g, theme) => if world.started && g == world.generation then theme else world.systemTheme
              case MediaChange(theme) => if world.mediaAttached then theme else world.systemTheme
              case ThemeRead(g, Some(theme)) =>
                if world.started && g == world.generation && g in world.connects && world.connects[g].AwaitingTheme?
                then theme else world.systemTheme
              case Start(Some(theme), _) => if world.started then world.systemTheme else theme
              case _ => world.systemTheme
  {
  }

  /** A start of a stopped store begins a new generation, with a connect when there is a native window and a
      listener when there is a media query; a stop ends both, with the store's own subscription. */
  lemma StartsAndStops(world: World, media: Option<Theme>, native: bool)
    requires Sound(world)
    ensures !world.started ==>
              var after := Advance(world, Start(media, native));
              after.started && after.generation == world.generation + 1 && after.mediaAttached == media.Some? &&
              after.live == world.live &&
              (after.generation in after.connects <==> native) && (native ==> after.connects[after.generation].AwaitingTheme?)
    ensures world.started ==>
              var after := Advance(world, Stop);
              !after.started && after.generation > world.generation && !after.mediaAttached && after.stopNative.None? && after.connects == world.connects &&
              (forall s :: s in after.live <==> s in world.live && world.stopNative != Some(s))
  {
  }

  /** A connect goes on, one step after the other, exactly while its generation counts: it reads the theme,
      subscribes, and hands its subscription over to the store; else it ends, and with it a subscription
      it holds. Until it holds one it may fail, and ends. */
  lemma ConnectGoesOn(world: World, g: nat, theme: Option<Theme>)
    requires Sound(world) && g in world.connects
    ensures world.connects[g].AwaitingTheme? ==>
              var after := Advance(world, ThemeRead(g, theme));
              if world.started && g == world.generation
              then g in after.connects && after.connects[g] == AwaitingSubscription(None) else g !in after.connects
    ensures world.connects[g] == AwaitingSubscription(None) ==>
              var after := Advance(world, Registers(g));
              exists s :: s !in world.live && after.live == world.live[s := g] && Holds(after, g, s)
    ensures forall s :: Holds(world, g, s) ==>
              var after := Advance(world, Subscribed(g));
              g !in after.connects && (s in after.live <==> world.started && g == world.generation) &&
              (world.started && g == world.generation ==> after.stopNative == Some(s) && after.live[s] == g) &&
              (!(world.started && g == world.generation) ==> after.stopNative == world.stopNative)
    ensures world.connects[g] in {AwaitingTheme, AwaitingSubscription(None)} ==>
              Advance(world, ConnectFails(g)) == world.(connects := world.connects - {g})
  {
    if world.connects[g] == AwaitingSubscription(None) {
      var s, after := world.nextSubscription, Advance(world, Registers(g));
      assert s !in world.live && after.live == world.live[s := g] && Holds(after, g, s);
    }
  }

  /** The store listens with subscription `s` of its current generation. */
  ghost predicate Listens(world: World, g: nat, s: nat) {
    world.started && world.generation == g && world.stopNative == Some(s) && s in world.live && world.live[s] == g
  }

  lemma {:induction false} ListensOn(world: World, events: seq<Event>, g: nat, s: nat)
    requires Sound(world) && Listens(world, g, s) && forall i :: 0 <= i < |events| ==> events[i] != Stop
    ensures Listens(Play(world, events), g, s)
    decreases |events|
  {
    if events != [] {
      AdvanceIsSound(world, events[0]);
      assert forall i :: 0 <= i < |events[1..]| ==> events[1..][i] == events[i + 1];
      ListensOn(Advance(world, events[0]), events[1..], g, s);
    }
  }

  /** In every run, a connect that completes while its generation counts leaves its subscription live, and
      until the store is stopped it stays so and every callback of it sets the system theme. */
  lemma ListensUntilStopped(events: seq<Event>, later: seq<Event>, g: nat, s: nat, theme: Theme)
    requires var world := Play(FRESH, events); Holds(world, g, s) && world.started && g == world.generation
    requires forall i :: 0 <= i < |later| ==> later[i] != Stop
    ensures var world := Play(Advance(Play(FRESH, events), Subscribed(g)), later);
            Listens(world, g, s) && Advance(world, NativeChange(g, theme)).systemTheme == theme
  {
    PlayIsSound(FRESH, events);
    AdvanceIsSound(Play(FRESH, events), Subscribed(g));
    ListensOn(Advance(Play(FRESH, events), Subscribed(g)), later, g, s);
  }

  // ---- the store as it runs ----

  class Appearance {
    var started: bool
    var generation: nat
    var systemTheme: Theme
    var stopNative: Option<nat>
    var mediaAttached: bool
    /** The connects under way and the window's live subscriptions. */
    var connects: map<nat, Connect>
    var live: map<nat, nat>
    var nextSubscription: nat

    function View(): World
      reads this
    {
      World(started, generation, systemTheme, stopNative, mediaAttached, connects, live, nextSubscription)
    }

    constructor ()
      ensures View() == FRESH
    {
      started, generation, systemTheme, stopNative, mediaAttached := false, 0, Day, None, false;
      connects, live, nextSubscription := map[], map[], 0;
    }

    method StartAppearance(media: Option<Theme>, native: bool)
      modifies this
      ensures View() == Advance(old(View()), Start(media, native))
    {
      if started { return; }
      started := true;
      if media.Some? { systemTheme := media.value; }
      mediaAttached := media.Some?;
      generation := generation + 1;
      if native { connects := connects[generation := AwaitingTheme]; }
    }

    method StopAppearance()
      modifies this
      ensures View() == Advance(old(View()), Stop)
    {
      if !started { return; }
      started := false;
      generation := generation + 1;
      mediaAttached := false;
      if stopNative.Some? { live := live - {stopNative.value}; }
      stopNative := None;
    }

    /** The window's theme arrives for the connect of generation `g`. */
    method ThemeArrives(g: nat, theme: Option<Theme>)
      requires g in connects && connects[g].AwaitingTheme?
      modifies this
      ensures View() == Advance(old(View()), ThemeRead(g, theme))
    {
      if !started || g != generation {
        connects := connects - {g};
        return;
      }
      if theme.Some? { systemTheme := theme.value; }
      connects := connects[g := AwaitingSubscription(None)];
    }

    /** The subscription of generation `g`, already live, is handed over. */
    method SubscriptionArrives(g: nat)
      requires g in connects && connects[g].AwaitingSubscription? && connects[g].registered.Some?
      modifies this
      ensures View() == Advance(old(View()), Subscribed(g))
    {
      var subscription := connects[g].registered;
      connects := connects - {g};
      if !started || g != generation {
        live := live - {subscription.value};
        return;
      }
      if stopNative.Some? { live := live - {stopNative.value}; }
      stopNative := subscription;
    }

    /** The native callback of a subscription of generation `g`. */
    method ThemeChanged(g: nat, theme: Theme)
      modifies `systemTheme
      ensures View() == Advance(old(View()), NativeChange(g, theme))
    {
      if !started || g != generation { return; }
      systemTheme := theme;
    }
  }
}
