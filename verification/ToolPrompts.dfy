/** Approval cards: prompts queued per conversation, and callers of this renderer waiting for the
    answer to a card they raised themselves. Queue updates are handed to the view and applied later,
    in order, against the waiters of that moment. */
module ToolPrompts {
  datatype Update =
    | Add(conversation: string, prompt: string)
    | Remove(conversation: string, prompt: string)
    | KeepAlive(conversation: string, alive: set<string>)
    | KeepManual(conversation: string)

  type Queues = map<string, seq<string>>

  /** The waiters, the queues as drawn, and the updates still to be applied; which prompts were raised
      here and where, which have an answer on its way to the host, and which callers have been settled,
      in order. A caller is known by the prompt it raised. */
  datatype Board = Board(waiters: set<string>, queues: Queues, updates: seq<Update>,
                         raised: map<string, string>, answering: set<string>, settled: seq<string>)

  const EMPTY := Board({}, map[], [], map[], {}, [])

  datatype Event =
    | Raise(conversation: string, prompt: string)
    | OpenHosted(conversation: string, prompt: string)
    | Decide(conversation: string, prompt: string)
    | HostResolved(conversation: string, prompt: string)
    | Answered(prompt: string)
    | Listed(conversation: string, alive: set<string>)
    | ListFailed(conversation: string)
    | Draw

  function QueueOf(queues: Queues, conversation: string): seq<string> {
    if conversation in queues then queues[conversation] else []
  }

  function Without(queue: seq<string>, prompt: string): (r: seq<string>)
    ensures forall p :: p in r <==> p in queue && p != prompt
  {
    if queue == [] then []
    else (if queue[0] == prompt then [] else [queue[0]]) + Without(queue[1..], prompt)
  }

  function Only(queue: seq<string>, kept: set<string>): (r: seq<string>)
    ensures forall p :: p in r <==> p in queue && p in kept
  {
    if queue == [] then []
    else (if queue[0] in kept then [queue[0]] else []) + Only(queue[1..], kept)
  }

  /** An empty queue is not kept. */
  function WithQueue(queues: Queues, conversation: string, queue: seq<string>): (r: Queues)
    ensures QueueOf(r, conversation) == queue
    ensures forall other :: other != conversation ==> QueueOf(r, other) == QueueOf(queues, other)
  {
    if queue == [] then queues - {conversation} else queues[conversation := queue]
  }

  function Apply(queues: Queues, update: Update, waiters: set<string>): Queues {
    var queue := QueueOf(queues, update.conversation);
    match update
    case Add(c, prompt) => if prompt in queue then queues else queues[c := queue + [prompt]]
    case Remove(c, prompt) => if prompt in queue then WithQueue(queues, c, Without(queue, prompt)) else queues
    case KeepAlive(c, alive) => if c in queues then WithQueue(queues, c, Only(queue, alive + waiters)) else queues
    case KeepManual(c) => if c in queues then WithQueue(queues, c, Only(queue, waiters)) else queues
  }

  /** The card is withdrawn: a caller still waiting for it is settled with a refusal. */
  function Closed(board: Board, conversation: string, prompt: string): Board {
    var told := if prompt in board.waiters
                then board.(waiters := board.waiters - {prompt}, settled := board.settled + [prompt]) else board;
    told.(updates := told.updates + [Remove(conversation, prompt)])
  }

  /** One event; what is not possible changes nothing. Prompt ids are minted by the host and raised
      here at most once. */
  function Advance(board: Board, event: Event): Board {
    match event
    case Raise(c, prompt) =>
      if prompt in board.raised then board
      else
        board.(waiters := board.waiters + {prompt}, raised := board.raised[prompt := c],
               updates := board.updates + [Add(c, prompt)])
    case OpenHosted(c, prompt) => board.(updates := board.updates + [Add(c, prompt)])
    case Decide(c, prompt) =>
      var answering := if prompt in board.waiters then board.answering + {prompt} else board.answering;
      Closed(board.(waiters := board.waiters - {prompt}, answering := answering), c, prompt)
    case HostResolved(c, prompt) => Closed(board, c, prompt)
    case Answered(prompt) =>
      if prompt in board.answering
      then board.(answering := board.answering - {prompt}, settled := board.settled + [prompt]) else board
    case Listed(c, alive) => board.(updates := board.updates + [KeepAlive(c, alive)])
    case ListFailed(c) => board.(updates := board.updates + [KeepManual(c)])
    case Draw =>
      if board.updates == [] then board
      else board.(queues := Apply(board.queues, board.updates[0], board.waiters), updates := board.updates[1..])
  }

  function Play(board: Board, events: seq<Event>): Board
    decreases |events|
  {
    if events == [] then board else Play(Advance(board, events[0]), events[1..])
  }

  // ---- the invariant ----

  ghost predicate Distinct(queue: seq<string>) {
    forall i, j :: 0 <= i < j < |queue| ==> queue[i] != queue[j]
  }

  /** Whether a waiting caller's card is drawn once the updates have been applied. */
  function Lands(drawn: bool, updates: seq<Update>, conversation: string, prompt: string): bool
    decreases |updates|
  {
    if updates == [] then drawn
    else
      Lands(if updates[0] == Add(conversation, prompt) then true
            else if updates[0] == Remove(conversation, prompt) then false
            else drawn, updates[1..], conversation, prompt)
  }

  lemma {:induction false} LandsAfter(drawn: bool, updates: seq<Update>, update: Update, conversation: string, prompt: string)
    ensures Lands(drawn, updates + [update], conversation, prompt) ==
              if update == Add(conversation, prompt) then true
              else if update == Remove(conversation, prompt) then false
              else Lands(drawn, updates, conversation, prompt)
    decreases |updates|
  {
    if updates == [] {
      assert updates + [update] == [update] && [update][1..] == [];
    } else {
      assert (updates + [update])[1..] == updates[1..] + [update];
      LandsAfter(if updates[0] == Add(conversation, prompt) then true
                 else if updates[0] == Remove(conversation, prompt) then false
                 else drawn, updates[1..], update, conversation, prompt);
    }
  }

  /** Every caller is waiting, being answered, or settled, never two of these; a waiting caller's card
      is drawn or on its way; no queue and no list of settlements repeats itself. */
  ghost predicate Sound(board: Board) {
    && board.waiters <= board.raised.Keys && board.answering <= board.raised.Keys
    && (forall p :: p in board.raised <==> p in board.waiters || p in board.answering || p in board.settled)
    && board.waiters !! board.answering
    && (forall p :: p in board.settled ==> p !in board.waiters && p !in board.answering)
    && Distinct(board.settled)
    && (forall c :: Distinct(QueueOf(board.queues, c)))
    && (forall p :: p in board.waiters ==>
          Lands(p in QueueOf(board.queues, board.raised[p]), board.updates, board.raised[p], p))
  }

  lemma {:induction false} WithoutIsDistinct(queue: seq<string>, prompt: string)
    requires Distinct(queue)
    ensures Distinct(Without(queue, prompt))
  {
    if queue != [] {
      assert forall i :: 0 <= i < |queue[1..]| ==> queue[1..][i] == queue[i + 1];
      WithoutIsDistinct(queue[1..], prompt);
      var rest := Without(queue[1..], prompt);
      assert forall i :: 0 <= i < |rest| ==> rest[i] in rest;
    }
  }

  lemma {:induction false} OnlyIsDistinct(queue: seq<string>, kept: set<string>)
    requires Distinct(queue)
    ensures Distinct(Only(queue, kept))
  {
    if queue != [] {
      assert forall i :: 0 <= i < |queue[1..]| ==> queue[1..][i] == queue[i + 1];
      OnlyIsDistinct(queue[1..], kept);
      var rest := Only(queue[1..], kept);
      assert forall i :: 0 <= i < |rest| ==> rest[i] in rest;
    }
  }

  lemma ApplyIsDistinct(queues: Queues, update: Update, waiters: set<string>, conversation: string)
    requires Distinct(QueueOf(queues, conversation))
    ensures Distinct(QueueOf(Apply(queues, update, waiters), conversation))
  {
    var queue := QueueOf(queues, conversation);
    if update.conversation == conversation {
      match update
      case Add(_, prompt) =>
      case Remove(_, prompt) => WithoutIsDistinct(queue, prompt);
      case KeepAlive(_, alive) => OnlyIsDistinct(queue, alive + waiters);
      case KeepManual(_) => OnlyIsDistinct(queue, waiters);
    }
  }

  /** Applying an update draws a waiting caller's card exactly as `Lands` foresees. */
  lemma ApplyDraws(queues: Queues, update: Update, waiters: set<string>, conversation: string, prompt: string)
    requires prompt in waiters
    ensures prompt in QueueOf(Apply(queues, update, waiters), conversation) <==>
              if update == Add(conversation, prompt) then true
              else if update == Remove(conversation, prompt) then false
              else prompt in QueueOf(queues, conversation)
  {
  }

  /** A reconciliation leaves in its conversation's queue exactly the cards the host still holds and
      those of callers waiting at the moment it is applied (only these, when the host could not say),
      and touches no other queue. */
  lemma ReconcilingKeeps(queues: Queues, conversation: string, alive: set<string>, waiters: set<string>, prompt: string)
    ensures prompt in QueueOf(Apply(queues, KeepAlive(conversation, alive), waiters), conversation) <==>
              prompt in QueueOf(queues, conversation) && (prompt in alive || prompt in waiters)
    ensures prompt in QueueOf(Apply(queues, KeepManual(conversation), waiters), conversation) <==>
              prompt in QueueOf(queues, conversation) && prompt in waiters
    ensures forall other :: other != conversation ==>
              QueueOf(Apply(queues, KeepAlive(conversation, alive), waiters), other) == QueueOf(queues, other) &&
              QueueOf(Apply(queues, KeepManual(conversation), waiters), other) == QueueOf(queues, other)
  {
  }

  lemma DrawIsSound(board: Board)
    requires Sound(board) && board.updates != []
    ensures Sound(Advance(board, Draw))
  {
    var after, update := Advance(board, Draw), board.updates[0];
    forall c
      ensures Distinct(QueueOf(after.queues, c))
    {
      ApplyIsDistinct(board.queues, update, board.waiters, c);
    }
    forall p | p in after.waiters
      ensures Lands(p in QueueOf(after.queues, after.raised[p]), after.updates, after.raised[p], p)
    {
      ApplyDraws(board.queues, update, board.waiters, board.raised[p], p);
    }
  }

  /** Handing over an update that removes no waiting caller's card keeps all of them landing. */
  lemma HandOverLands(board: Board, update: Update)
    requires Sound(board)
    requires forall p :: p in board.waiters ==> update != Remove(board.raised[p], p)
    ensures Sound(board.(updates := board.updates + [update]))
  {
    forall p | p in board.waiters
      ensures Lands(p in QueueOf(board.queues, board.raised[p]), board.updates + [update], board.raised[p], p)
    {
      LandsAfter(p in QueueOf(board.queues, board.raised[p]), board.updates, update, board.raised[p], p);
    }
  }

  lemma RaiseIsSound(board: Board, conversation: string, prompt: string)
    requires Sound(board) && prompt !in board.raised
    ensures Sound(Advance(board, Raise(conversation, prompt)))
  {
    var after := Advance(board, Raise(conversation, prompt));
    forall p | p in after.waiters
      ensures Lands(p in QueueOf(after.queues, after.raised[p]), after.updates, after.raised[p], p)
    {
      LandsAfter(p in QueueOf(board.queues, after.raised[p]), board.updates, Add(conversation, prompt), after.raised[p], p);
    }
  }

  lemma ClosedIsSound(board: Board, conversation: string, prompt: string)
    requires Sound(board)
    ensures Sound(Closed(board, conversation, prompt))
  {
    var told := if prompt in board.waiters
                then board.(waiters := board.waiters - {prompt}, settled := board.settled + [prompt]) else board;
    assert Sound(told);
    HandOverLands(told, Remove(conversation, prompt));
  }

  lemma AdvanceIsSound(board: Board, event: Event)
    requires Sound(board)
    ensures Sound(Advance(board, event))
  {
    match event
    case Raise(c, prompt) => if prompt !in board.raised { RaiseIsSound(board, c, prompt); }
    case OpenHosted(c, prompt) => HandOverLands(board, Add(c, prompt));
    case Decide(c, prompt) =>
      var answering := if prompt in board.waiters then board.answering + {prompt} else board.answering;
      ClosedIsSound(board.(waiters := board.waiters - {prompt}, answering := answering), c, prompt);
    case HostResolved(c, prompt) => ClosedIsSound(board, c, prompt);
    case Answered(prompt) =>
    case Listed(c, alive) => HandOverLands(board, KeepAlive(c, alive));
    case ListFailed(c) => HandOverLands(board, KeepManual(c));
    case Draw => if board.updates != [] { DrawIsSound(board); }
  }

  lemma {:induction false} PlayIsSound(board: Board, events: seq<Event>)
    requires Sound(board)
    ensures Sound(Play(board, events))
    decreases |events|
  {
    if events != [] {
      AdvanceIsSound(board, events[0]);
      PlayIsSound(Advance(board, events[0]), events[1..]);
    }
  }

  function Occurrences(queue: seq<string>, prompt: string): nat {
    if queue == [] then 0 else (if queue[0] == prompt then 1 else 0) + Occurrences(queue[1..], prompt)
  }

  lemma {:induction false} DistinctOnce(queue: seq<string>, prompt: string)
    requires Distinct(queue)
    ensures Occurrences(queue, prompt) == if prompt in queue then 1 else 0
  {
    if queue != [] {
      assert forall i :: 0 <= i < |queue[1..]| ==> queue[1..][i] == queue[i + 1];
      DistinctOnce(queue[1..], prompt);
    }
  }

  /** In every reachable state: no caller is settled twice; no prompt is queued twice; and a caller not
      settled yet has an answer on its way at the host, or a card that is drawn once the updates handed
      over are applied: exactly one card in its queue when none is outstanding. */
  lemma NoCallerIsLost(events: seq<Event>, prompt: string)
    ensures var board := Play(EMPTY, events);
            Occurrences(board.settled, prompt) <= 1 &&
            (forall c :: Occurrences(QueueOf(board.queues, c), prompt) <= 1) &&
            (prompt in board.raised && prompt !in board.settled ==>
               prompt in board.answering ||
               (Lands(prompt in QueueOf(board.queues, board.raised[prompt]), board.updates, board.raised[prompt], prompt) &&
                (board.updates == [] ==> Occurrences(QueueOf(board.queues, board.raised[prompt]), prompt) == 1)))
  {
    PlayIsSound(EMPTY, events);
    var board := Play(EMPTY, events);
    DistinctOnce(board.settled, prompt);
    forall c
      ensures Occurrences(QueueOf(board.queues, c), prompt) == if prompt in QueueOf(board.queues, c) then 1 else 0
    {
      DistinctOnce(QueueOf(board.queues, c), prompt);
    }
  }

  /** What becomes of callers: a waiting one is settled at once only by the host resolving its prompt;
      decided, it is settled by the host's answer and not before; nothing else touches any of them. */
  lemma CallersAreTold(board: Board, event: Event)
    ensures var after := Advance(board, event);
            after.settled == board.settled +
              (if (event.HostResolved? && event.prompt in board.waiters) || (event.Answered? && event.prompt in board.answering)
               then [event.prompt] else []) &&
            (forall p :: p in after.waiters <==>
               (p in board.waiters && !((event.HostResolved? || event.Decide?) && p == event.prompt)) ||
               (event.Raise? && event.prompt !in board.raised && p == event.prompt)) &&
            (forall p :: p in after.answering <==>
               (p in board.answering && !(event.Answered? && p == event.prompt)) ||
               (event.Decide? && p in board.waiters && p == event.prompt)) &&
            (forall p :: p in after.raised <==> p in board.raised || (event.Raise? && p == event.prompt))
  {
  }

  // ---- which cards are drawn ----

  /** The last word on a card in a run: it is to be drawn, not to be, or that is the host's to say. */
  datatype Word = In | Out | HostSays

  /** Raising a new prompt or opening a hosted one draws its card; deciding it or its resolution by the host
      takes it away; a reconciliation leaves it to the host, unless the host has just named it. */
  function WordAfter(word: Word, board: Board, event: Event, conversation: string, prompt: string): Word {
    match event
    case Raise(c, p) => if c == conversation && p == prompt && p !in board.raised then In else word
    case OpenHosted(c, p) => if c == conversation && p == prompt then In else word
    case Decide(c, p) => if c == conversation && p == prompt then Out else word
    case HostResolved(c, p) => if c == conversation && p == prompt then Out else word
    case Listed(c, alive) => if c == conversation && word.In? && prompt !in alive then HostSays else word
    case ListFailed(c) => if c == conversation && word.In? then HostSays else word
    case Answered(_) => word
    case Draw => word
  }

  function LastWord(word: Word, board: Board, events: seq<Event>, conversation: string, prompt: string): Word
    decreases |events|
  {
    if events == [] then word
    else LastWord(WordAfter(word, board, events[0], conversation, prompt), Advance(board, events[0]), events[1..], conversation, prompt)
  }

  /** Whether a card is drawn once the updates are applied even if no caller waits for it. */
  function Surely(drawn: bool, updates: seq<Update>, conversation: string, prompt: string): bool
    decreases |updates|
  {
    if updates == [] then drawn
    else
      Surely(match updates[0]
             case Add(c, p) => drawn || (c == conversation && p == prompt)
             case Remove(c, p) => drawn && !(c == conversation && p == prompt)
             case KeepAlive(c, alive) => drawn && (c == conversation ==> prompt in alive)
             case KeepManual(c) => drawn && c != conversation,
             updates[1..], conversation, prompt)
  }

  lemma {:induction false} SurelyAfter(drawn: bool, updates: seq<Update>, update: Update, conversation: string, prompt: string)
    ensures var before := Surely(drawn, updates, conversation, prompt);
            Surely(drawn, updates + [update], conversation, prompt) ==
              match update
              case Add(c, p) => before || (c == conversation && p == prompt)
              case Remove(c, p) => before && !(c == conversation && p == prompt)
              case KeepAlive(c, alive) => before && (c == conversation ==> prompt in alive)
              case KeepManual(c) => before && c != conversation
    decreases |updates|
  {
    if updates == [] {
      assert updates + [update] == [update] && [update][1..] == [];
    } else {
      assert (updates + [update])[1..] == updates[1..] + [update];
      SurelyAfter(match updates[0]
                  case Add(c, p) => drawn || (c == conversation && p == prompt)
                  case Remove(c, p) => drawn && !(c == conversation && p == prompt)
                  case KeepAlive(c, alive) => drawn && (c == conversation ==> prompt in alive)
                  case KeepManual(c) => drawn && c != conversation,
                  updates[1..], update, conversation, prompt);
    }
  }

  /** A card drawn now is drawn then, if it would be though it were not drawn now. */
  lemma {:induction false} DrawnHelps(updates: seq<Update>, conversation: string, prompt: string)
    ensures Lands(false, updates, conversation, prompt) ==> Lands(true, updates, conversation, prompt)
    ensures Surely(false, updates, conversation, prompt) ==> Surely(true, updates, conversation, prompt)
    decreases |updates|
  {
    if updates != [] { DrawnHelps(updates[1..], conversation, prompt); }
  }

  /** The board obeys the last word. */
  ghost predicate Obeys(board: Board, word: Word, conversation: string, prompt: string) {
    var drawn := prompt in QueueOf(board.queues, conversation);
    && (word.In? ==> Surely(drawn, board.updates, conversation, prompt))
    && (word.Out? ==> !Lands(drawn, board.updates, conversation, prompt))
  }

  lemma DrawObeys(board: Board, word: Word, conversation: string, prompt: string)
    requires Obeys(board, word, conversation, prompt) && board.updates != []
    ensures Obeys(Advance(board, Draw), word, conversation, prompt)
  {
    DrawnHelps(board.updates[1..], conversation, prompt);
  }

  lemma AdvanceObeys(board: Board, word: Word, event: Event, conversation: string, prompt: string)
    requires Obeys(board, word, conversation, prompt)
    ensures Obeys(Advance(board, event), WordAfter(word, board, event, conversation, prompt), conversation, prompt)
  {
    var after, drawn := Advance(board, event), prompt in QueueOf(board.queues, conversation);
    if event.Draw? {
      if board.updates != [] { DrawObeys(board, word, conversation, prompt); }
    } else if after.updates != board.updates {
      var update := after.updates[|board.updates|];
      assert after.updates == board.updates + [update];
      SurelyAfter(drawn, board.updates, update, conversation, prompt);
      LandsAfter(drawn, board.updates, update, conversation, prompt);
    }
  }

  lemma {:induction false} PlayObeys(board: Board, word: Word, events: seq<Event>, conversation: string, prompt: string)
    requires Obeys(board, word, conversation, prompt)
    ensures Obeys(Play(board, events), LastWord(word, board, events, conversation, prompt), conversation, prompt)
    decreases |events|
  {
    if events != [] {
      AdvanceObeys(board, word, events[0], conversation, prompt);
      PlayObeys(Advance(board, events[0]), WordAfter(word, board, events[0], conversation, prompt), events[1..], conversation, prompt);
    }
  }

  /** In every run, a card follows the last word on it: decided here or resolved by the host and not opened
      again since, it is not drawn once the updates are applied; raised or opened and not given to the host
      to say since, it is. A card never opened is never drawn. */
  lemma CardsFollowTheLastWord(events: seq<Event>, conversation: string, prompt: string)
    ensures var board, word := Play(EMPTY, events), LastWord(Out, EMPTY, events, conversation, prompt);
            var drawn := prompt in QueueOf(board.queues, conversation);
            (word.Out? ==> !Lands(drawn, board.updates, conversation, prompt) && (board.updates == [] ==> !drawn)) &&
            (word.In? ==> Surely(drawn, board.updates, conversation, prompt) && (board.updates == [] ==> drawn))
  {
    PlayObeys(EMPTY, Out, events, conversation, prompt);
  }

  /** A prompt raised here whose caller waits no more, because it was decided or resolved, has no card in its
      conversation once the updates are applied, unless it was opened again since. */
  lemma WaitedForNoMore(events: seq<Event>, more: seq<Event>, conversation: string, prompt: string, ending: Event)
    requires ending == Decide(conversation, prompt) || ending == HostResolved(conversation, prompt)
    requires forall i :: 0 <= i < |more| ==> more[i] != OpenHosted(conversation, prompt)
    requires prompt in Play(EMPTY, events).raised
    ensures var board := Play(Advance(Play(EMPTY, events), ending), more);
            !Lands(prompt in QueueOf(board.queues, conversation), board.updates, conversation, prompt) &&
            (board.updates == [] ==> prompt !in QueueOf(board.queues, conversation))
  {
    var board := Play(EMPTY, events);
    var word := LastWord(Out, EMPTY, events, conversation, prompt);
    PlayObeys(EMPTY, Out, events, conversation, prompt);
    AdvanceObeys(board, word, ending, conversation, prompt);
    StaysOut(Advance(board, ending), more, conversation, prompt);
    PlayObeys(Advance(board, ending), Out, more, conversation, prompt);
  }

  lemma {:induction false} StaysOut(board: Board, events: seq<Event>, conversation: string, prompt: string)
    requires prompt in board.raised
    requires forall i :: 0 <= i < |events| ==> events[i] != OpenHosted(conversation, prompt)
    ensures LastWord(Out, board, events, conversation, prompt) == Out
    decreases |events|
  {
    if events != [] {
      assert forall i :: 0 <= i < |events[1..]| ==> events[1..][i] == events[i + 1];
      assert prompt in Advance(board, events[0]).raised;
      StaysOut(Advance(board, events[0]), events[1..], conversation, prompt);
    }
  }

  /** Whether the host would have a card stand that no caller here waits for: after one event, after a run. */
  function StandsAfter(stood: bool, event: Event, conversation: string, prompt: string): bool {
    match event
    case OpenHosted(c, p) => stood || (c == conversation && p == prompt)
    case Decide(c, p) => stood && !(c == conversation && p == prompt)
    case HostResolved(c, p) => stood && !(c == conversation && p == prompt)
    case Listed(c, alive) => stood && (c == conversation ==> prompt in alive)
    case ListFailed(c) => stood && c != conversation
    case Raise(_, _) => stood
    case Answered(_) => stood
    case Draw => stood
  }

  function Stands(stood: bool, events: seq<Event>, conversation: string, prompt: string): bool
    decreases |events|
  {
    if events == [] then stood else Stands(StandsAfter(stood, events[0], conversation, prompt), events[1..], conversation, prompt)
  }

  /** Whether the board will draw the card, were no caller waiting for it. */
  predicate WillDraw(board: Board, conversation: string, prompt: string) {
    Surely(prompt in QueueOf(board.queues, conversation), board.updates, conversation, prompt)
  }

  lemma DrawnAsForeseen(board: Board, conversation: string, prompt: string)
    requires board.updates != [] && prompt !in board.waiters
    ensures WillDraw(Advance(board, Draw), conversation, prompt) == WillDraw(board, conversation, prompt)
  {
  }

  lemma HostedCard(board: Board, event: Event, conversation: string, prompt: string)
    requires prompt !in board.waiters && (event.Raise? ==> event.prompt != prompt)
    ensures WillDraw(Advance(board, event), conversation, prompt) ==
            StandsAfter(WillDraw(board, conversation, prompt), event, conversation, prompt)
  {
    var after := Advance(board, event);
    if event.Draw? {
      if board.updates != [] { DrawnAsForeseen(board, conversation, prompt); }
    } else if after.updates != board.updates {
      var update := after.updates[|board.updates|];
      assert after.updates == board.updates + [update];
      SurelyAfter(prompt in QueueOf(board.queues, conversation), board.updates, update, conversation, prompt);
    }
  }

  lemma {:induction false} HostedCards(board: Board, events: seq<Event>, conversation: string, prompt: string)
    requires prompt !in board.waiters && forall i :: 0 <= i < |events| && events[i].Raise? ==> events[i].prompt != prompt
    ensures WillDraw(Play(board, events), conversation, prompt) ==
            Stands(WillDraw(board, conversation, prompt), events, conversation, prompt)
    decreases |events|
  {
    if events != [] {
      HostedCard(board, events[0], conversation, prompt);
      assert forall i :: 0 <= i < |events[1..]| ==> events[1..][i] == events[i + 1];
      HostedCards(Advance(board, events[0]), events[1..], conversation, prompt);
    }
  }

  /** In every run, a card of the host's, which no caller here waits for, is drawn once the updates are
      applied if and only if the host would have it stand: it was opened, and since then neither decided
      nor resolved, nor missing from what the host has listed for its conversation, nor has that failed. */
  lemma HostedCardsIff(events: seq<Event>, conversation: string, prompt: string)
    requires forall i :: 0 <= i < |events| && events[i].Raise? ==> events[i].prompt != prompt
    ensures var board := Play(EMPTY, events);
            var drawn := prompt in QueueOf(board.queues, conversation);
            (WillDraw(board, conversation, prompt) <==> Stands(false, events, conversation, prompt)) &&
            (board.updates == [] ==> (drawn <==> Stands(false, events, conversation, prompt)))
  {
    HostedCards(EMPTY, events, conversation, prompt);
  }

  // ---- the order of the cards ----

  /** `part` is left of `whole` when some of it is taken away. */
  predicate Within(part: seq<string>, whole: seq<string>) {
    part == [] || (whole != [] && (Within(part, whole[1..]) || (part[0] == whole[0] && Within(part[1..], whole[1..]))))
  }

  lemma {:induction false} AllIsWithin(queue: seq<string>)
    ensures Within(queue, queue)
  {
    if queue != [] { AllIsWithin(queue[1..]); }
  }

  lemma {:induction false} WithoutIsWithin(queue: seq<string>, prompt: string)
    ensures Within(Without(queue, prompt), queue)
  {
    if queue != [] {
      var rest := Without(queue[1..], prompt);
      WithoutIsWithin(queue[1..], prompt);
      if queue[0] == prompt {
        assert Without(queue, prompt) == rest;
      } else {
        assert Without(queue, prompt) == [queue[0]] + rest && ([queue[0]] + rest)[1..] == rest;
      }
    }
  }

  lemma {:induction false} OnlyIsWithin(queue: seq<string>, kept: set<string>)
    ensures Within(Only(queue, kept), queue)
  {
    if queue != [] {
      var rest := Only(queue[1..], kept);
      OnlyIsWithin(queue[1..], kept);
      if queue[0] !in kept {
        assert Only(queue, kept) == rest;
      } else {
        assert Only(queue, kept) == [queue[0]] + rest && ([queue[0]] + rest)[1..] == rest;
      }
    }
  }

  lemma {:induction false} NoEmptyQueues(board: Board, events: seq<Event>)
    requires forall c :: c in board.queues ==> board.queues[c] != []
    ensures forall c :: c in Play(board, events).queues ==> Play(board, events).queues[c] != []
    decreases |events|
  {
    if events != [] { NoEmptyQueues(Advance(board, events[0]), events[1..]); }
  }

  /** In every run, no empty queue is kept; and from one moment to the next a queue keeps its order: cards
      go from anywhere, and one that comes stands last. */
  lemma CardsKeepTheirOrder(events: seq<Event>, next: Event, conversation: string)
    ensures var queues := Play(EMPTY, events).queues; conversation in queues ==> queues[conversation] != []
    ensures var before := QueueOf(Play(EMPTY, events).queues, conversation);
            var after := QueueOf(Advance(Play(EMPTY, events), next).queues, conversation);
            Within(after, before) || exists card :: card !in before && after == before + [card]
  {
    NoEmptyQueues(EMPTY, events);
    var board := Play(EMPTY, events);
    var queue := QueueOf(board.queues, conversation);
    AllIsWithin(queue);
    if next.Draw? && board.updates != [] && board.updates[0].conversation == conversation {
      match board.updates[0]
      case Add(_, prompt) =>
      case Remove(_, prompt) => WithoutIsWithin(queue, prompt);
      case KeepAlive(_, alive) => OnlyIsWithin(queue, alive + board.waiters);
      case KeepManual(_) => OnlyIsWithin(queue, board.waiters);
    }
  }

  // ---- the board as it runs ----

  class Prompts {
    var waiters: set<string>
    var queues: Queues
    var updates: seq<Update>
    var raised: map<string, string>
    var answering: set<string>
    var settled: seq<string>

    function View(): Board
      reads this
    {
      Board(waiters, queues, updates, raised, answering, settled)
    }

    ghost predicate Valid()
      reads this
    {
      Sound(View())
    }

    constructor ()
      ensures View() == EMPTY && Valid()
    {
      waiters, queues, updates, raised, answering, settled := {}, map[], [], map[], {}, [];
    }

    method OpenToolPrompt(conversation: string, prompt: string)
      requires Valid()
      modifies `updates
      ensures Valid() && View() == Advance(old(View()), OpenHosted(conversation, prompt))
    {
      AdvanceIsSound(View(), OpenHosted(conversation, prompt));
      updates := updates + [Add(conversation, prompt)];
    }

    method CloseToolPrompt(conversation: string, prompt: string)
      requires Valid()
      modifies this
      ensures Valid() && View() == Closed(old(View()), conversation, prompt)
    {
      ClosedIsSound(View(), conversation, prompt);
      if prompt in waiters {
        waiters := waiters - {prompt};
        settled := settled + [prompt];
      }
      updates := updates + [Remove(conversation, prompt)];
    }

    method AwaitManualToolApproval(conversation: string, prompt: string)
      requires Valid() && prompt !in raised
      modifies this
      ensures Valid() && View() == Advance(old(View()), Raise(conversation, prompt))
    {
      RaiseIsSound(View(), conversation, prompt);
      waiters := waiters + {prompt};
      raised := raised[prompt := conversation];
      updates := updates + [Add(conversation, prompt)];
    }

    method DecideToolPrompt(conversation: string, prompt: string)
      requires Valid()
      modifies this
      ensures Valid() && View() == Advance(old(View()), Decide(conversation, prompt))
    {
      ghost var before := View();
      var waiting := prompt in waiters;
      waiters := waiters - {prompt};
      if waiting { answering := answering + {prompt}; }
      assert View() == before.(waiters := before.waiters - {prompt},
        answering := if prompt in before.waiters then before.answering + {prompt} else before.answering);
      assert Sound(View());
      CloseToolPrompt(conversation, prompt);
    }

    /** The host has taken the answer to a prompt: its caller gets the grant, or the refusal. */
    method AnswerArrives(prompt: string)
      requires Valid() && prompt in answering
      modifies this
      ensures Valid() && View() == Advance(old(View()), Answered(prompt))
    {
      AdvanceIsSound(View(), Answered(prompt));
      answering := answering - {prompt};
      settled := settled + [prompt];
    }

    /** The view applies the oldest update, against the waiters of this moment. */
    method DrawNext()
      requires Valid() && updates != []
      modifies this
      ensures Valid() && View() == Advance(old(View()), Draw)
    {
      DrawIsSound(View());
      queues := Apply(queues, updates[0], waiters);
      updates := updates[1..];
    }
  }
}
