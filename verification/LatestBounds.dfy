/** The page-bounds sender: a page has one request out at a time, and keeps the latest one back. */
module LatestBounds {
  import opened Base

  /** A page's queue: whether a request is in flight, and the one waiting behind it. Requests are
      numbered in the order they are submitted. */
  datatype Queue = Queue(busy: bool, next: Option<nat>)

  /** The queue of one page with everything that has happened to it: how many requests were submitted,
      which were started, and which of these have not settled yet. */
  datatype Page = Page(queue: Queue, submitted: nat, started: seq<nat>, inFlight: set<nat>)

  const QUIET := Page(Queue(false, None), 0, [], {})

  datatype Event = Submit | Complete(task: nat)

  /** Nothing here keeps a second request from being started while one is in flight. */
  function Begin(page: Page, task: nat): Page {
    page.(started := page.started + [task], inFlight := page.inFlight + {task})
  }

  /** One event; only a request in flight can complete. */
  function Advance(page: Page, event: Event): Page {
    match event
    case Submit =>
      var task := page.submitted;
      var taken := page.(submitted := task + 1);
      if page.queue.busy then taken.(queue := page.queue.(next := Some(task)))
      else Begin(taken.(queue := page.queue.(busy := true)), task)
    case Complete(task) =>
      if task !in page.inFlight then page
      else
        var settled := page.(inFlight := page.inFlight - {task}, queue := page.queue.(next := None));
        if page.queue.next.Some? then Begin(settled, page.queue.next.value)
        else settled.(queue := Queue(false, None))
  }

  function Play(page: Page, events: seq<Event>): Page
    decreases |events|
  {
    if events == [] then page else Play(Advance(page, events[0]), events[1..])
  }

  // ---- the invariant ----

  ghost predicate Rising(tasks: seq<nat>, limit: nat) {
    && (forall i, j :: 0 <= i < j < |tasks| ==> tasks[i] < tasks[j])
    && forall i :: 0 <= i < |tasks| ==> tasks[i] < limit
  }

  /** The last request started. */
  function Last(page: Page): set<nat> {
    if page.started == [] then {} else {page.started[|page.started| - 1]}
  }

  /** What is in flight is the last request started while the queue is busy, else nothing; the one
      waiting is the last one submitted; nothing waiting means the last submitted has been started. */
  ghost predicate Orderly(page: Page) {
    && page.inFlight == (if page.queue.busy then Last(page) else {})
    && (page.queue.busy ==> page.started != [])
    && (page.queue.next.Some? ==> page.queue.busy && page.queue.next.value + 1 == page.submitted)
    && Rising(page.started, page.submitted)
    && (page.queue.next.None? && page.submitted > 0 ==>
          page.started != [] && page.started[|page.started| - 1] + 1 == page.submitted)
    && (page.queue.next.Some? ==> page.started != [] && page.started[|page.started| - 1] < page.queue.next.value)
  }

  lemma AdvanceIsOrderly(page: Page, event: Event)
    requires Orderly(page)
    ensures Orderly(Advance(page, event))
  {
    var after := Advance(page, event);
    assert Last(page) - Last(page) == {};
    assert after.inFlight == if after.queue.busy then Last(after) else {};
  }

  lemma {:induction false} PlayIsOrderly(page: Page, events: seq<Event>)
    requires Orderly(page)
    ensures Orderly(Play(page, events))
    decreases |events|
  {
    if events != [] {
      AdvanceIsOrderly(page, events[0]);
      PlayIsOrderly(Advance(page, events[0]), events[1..]);
    }
  }

  /** How many completions a page still has before it is idle, when nothing more is submitted. */
  function Remaining(page: Page): nat {
    if !page.queue.busy then 0 else if page.queue.next.None? then 1 else 2
  }

  /** Every event of the run completes a request then in flight. */
  ghost predicate AllComplete(page: Page, events: seq<Event>)
    decreases |events|
  {
    events == [] ||
    (events[0].Complete? && events[0].task in page.inFlight && AllComplete(Advance(page, events[0]), events[1..]))
  }

  /** Completions alone bring the page to rest after exactly as many as remain. */
  lemma {:induction false} DrainsIn(page: Page, events: seq<Event>)
    requires Orderly(page) && AllComplete(page, events)
    ensures |events| + Remaining(Play(page, events)) == Remaining(page)
    ensures Play(page, events).submitted == page.submitted
    decreases |events|
  {
    if events != [] {
      AdvanceIsOrderly(page, events[0]);
      DrainsIn(Advance(page, events[0]), events[1..]);
    }
  }

  /** Over every run of submissions and completions: at most one request is in flight, and one is
      exactly while the queue is busy; a waiting request implies a busy queue; requests are started in
      the order they were submitted and never twice; and whenever the queue is idle the last one
      started is the last one submitted. */
  lemma LatestWins(events: seq<Event>)
    ensures var page := Play(QUIET, events);
            |page.inFlight| <= 1 && (page.queue.busy <==> page.inFlight != {}) &&
            (page.queue.next.Some? ==> page.queue.busy) &&
            Rising(page.started, page.submitted) &&
            (!page.queue.busy && page.submitted > 0 ==>
               page.started != [] && page.started[|page.started| - 1] == page.submitted - 1)
  {
    PlayIsOrderly(QUIET, events);
  }

  /** After the last submission of a run, at most two completions remain: whenever nothing is in flight
      any more the page is idle, with the last request submitted the last one started. */
  lemma SettlesInTwo(events: seq<Event>, tail: seq<Event>)
    requires AllComplete(Play(QUIET, events), tail)
    ensures var page := Play(Play(QUIET, events), tail);
            |tail| <= 2 && (|tail| == 2 || page.inFlight == {} ==> !page.queue.busy) &&
            page.submitted == Play(QUIET, events).submitted &&
            (!page.queue.busy && page.submitted > 0 ==>
               page.started != [] && page.started[|page.started| - 1] == page.submitted - 1)
  {
    PlayIsOrderly(QUIET, events);
    DrainsIn(Play(QUIET, events), tail);
    PlayIsOrderly(Play(QUIET, events), tail);
  }

  // ---- the sender as it runs ----

  class Sender {
    /** The queues by page, made when a page is first seen. */
    var queues: map<string, Queue>
    /** What has happened to each page. */
    ghost var pages: map<string, Page>

    function QueueOf(page: string): Queue
      reads this
    {
      if page in queues then queues[page] else Queue(false, None)
    }

    ghost function PageOf(page: string): Page
      reads this
    {
      if page in pages then pages[page] else QUIET
    }

    ghost predicate Valid()
      reads this
    {
      forall page :: PageOf(page).queue == QueueOf(page) && Orderly(PageOf(page))
    }

    constructor ()
      ensures Valid() && queues == map[] && pages == map[]
    {
      queues, pages := map[], map[];
    }

    /** Takes one rectangle for a page: `start` is the request to send now, if any. */
    method SendLatest(page: string, task: nat) returns (start: Option<nat>)
      requires Valid() && task == PageOf(page).submitted
      modifies this
      ensures Valid() && PageOf(page) == Advance(old(PageOf(page)), Submit)
      ensures forall other :: other != page ==> PageOf(other) == old(PageOf(other)) && QueueOf(other) == old(QueueOf(other))
      ensures start == if old(QueueOf(page)).busy then None else Some(task)
    {
      AdvanceIsOrderly(PageOf(page), Submit);
      ghost var after := Advance(PageOf(page), Submit);
      var queue := QueueOf(page);
      if queue.busy {
        queues := queues[page := queue.(next := Some(task))];
        start := None;
      } else {
        queues := queues[page := queue.(busy := true)];
        start := Some(task);
      }
      pages := pages[page := after];
      forall other
        ensures PageOf(other).queue == QueueOf(other) && Orderly(PageOf(other))
      {
        if other != page { assert PageOf(other) == old(PageOf(other)) && QueueOf(other) == old(QueueOf(other)); }
      }
    }

    /** A request of a page has settled, well or badly: `start` is what follows it. */
    method Settled(page: string, task: nat) returns (start: Option<nat>)
      requires Valid() && task in PageOf(page).inFlight
      modifies this
      ensures Valid() && PageOf(page) == Advance(old(PageOf(page)), Complete(task))
      ensures forall other :: other != page ==> PageOf(other) == old(PageOf(other)) && QueueOf(other) == old(QueueOf(other))
      ensures start == old(QueueOf(page)).next
    {
      AdvanceIsOrderly(PageOf(page), Complete(task));
      ghost var after := Advance(PageOf(page), Complete(task));
      var queue := QueueOf(page);
      start := queue.next;
      queue := queue.(next := None);
      if start.None? { queue := queue.(busy := false); }
      queues := queues[page := queue];
      pages := pages[page := after];
      forall other
        ensures PageOf(other).queue == QueueOf(other) && Orderly(PageOf(other))
      {
        if other != page { assert PageOf(other) == old(PageOf(other)) && QueueOf(other) == old(QueueOf(other)); }
      }
    }
  }
}
