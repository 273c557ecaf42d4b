/** Lowering a rejected `reasoning_effort` until the endpoint takes it, with a process-wide memo
    of what each endpoint answered. */
module EffortFallback {
  import opened Base
  import opened EffortLevels
  import opened EffortChains

  datatype Effort = Absent | Level(level: string) | NotText(json: string)

  /** A request body: none, one that is not a JSON object, or an object; `rest` is all its other
      fields. */
  datatype Body = NoBody | Unparsed(text: string) | Parsed(model: Option<string>, effort: Effort, rest: string)

  datatype Response = Response(status: nat, text: string)

  /** An endpoint answers a request that names a level by url, model and level. */
  datatype Endpoint = Endpoint(answer: (string, string, string) -> Response, otherwise: (string, Body) -> Response)

  type Memo = map<string, Option<string>>

  predicate Names(body: Body) { body.Parsed? && body.effort.Level? }

  function ModelName(body: Body): string
    requires body.Parsed?
  {
    if body.model.Some? then body.model.value else ""
  }

  function WithEffort(body: Body, level: Option<string>): Body
    requires body.Parsed?
  {
    body.(effort := if level.Some? then Level(level.value) else Absent)
  }

  function Reply(endpoint: Endpoint, url: string, body: Body): Response {
    if Names(body) then endpoint.answer(url, ModelName(body), body.effort.level) else endpoint.otherwise(url, body)
  }

  predicate IsOk(response: Response) { 200 <= response.status < 300 }

  /** A client error that speaks of the level; any other failure is left as it is. */
  predicate BlamesEffort(response: Response) {
    (response.status == 400 || response.status == 422) && MentionsEffort(response.text)
  }

  /** A rejection is a 400 or a 422 whose text has the field's name in it somewhere. */
  lemma BlamesIff(response: Response)
    ensures BlamesEffort(response) <==>
              response.status in {400, 422} && exists k: nat :: FieldAt(response.text, k)
  {
    MentionsIff(response.text);
  }

  function Key(url: string, model: string, level: string): string {
    url + "\n" + model + "\n" + level
  }

  function KeyOf(url: string, body: Body): string
    requires Names(body)
  {
    Key(url, ModelName(body), body.effort.level)
  }

  // ---- one call, as a sequence of synchronous steps between awaits ----

  /** A call under way: what was asked, what is sent next, how many step-downs led there (cached
      ones included), and what has been sent and rejected so far. */
  datatype Call = Call(url: string, asked: Body, body: Body, walked: nat, sent: seq<Body>)

  datatype Finished = Finished(url: string, asked: Body, walked: nat, sent: seq<Body>, response: Response)

  /** Follow what the endpoint already answered, at most `steps` times. */
  function Prefetch(memo: Memo, url: string, body: Body, steps: nat): (r: (Body, nat))
    ensures r.1 <= steps
    decreases steps
  {
    if steps == 0 || !Names(body) || KeyOf(url, body) !in memo then (body, 0)
    else
      var r := Prefetch(memo, url, WithEffort(body, memo[KeyOf(url, body)]), steps - 1);
      (r.0, r.1 + 1)
  }

  function Begin(memo: Memo, url: string, body: Body): Call {
    var r := Prefetch(memo, url, body, |LADDER|);
    Call(url, body, r.0, r.1, [])
  }

  predicate StepsDown(call: Call, response: Response) {
    Names(call.body) && |call.sent| < |LADDER| && BlamesEffort(response)
  }

  /** The memo after a response to `call`. */
  function Noted(memo: Memo, call: Call, response: Response): Memo {
    if StepsDown(call, response) && call.url != ""
    then memo[KeyOf(call.url, call.body) := EffortNamedIn(response.text, call.body.effort.level)]
    else memo
  }

  function Retried(call: Call, response: Response): Call
    requires StepsDown(call, response)
  {
    call.(body := WithEffort(call.body, EffortNamedIn(response.text, call.body.effort.level)),
          walked := call.walked + 1, sent := call.sent + [call.body])
  }

  function Completed(call: Call, response: Response): Finished {
    Finished(call.url, call.asked, call.walked, call.sent + [call.body], response)
  }

  /** A call run to its end with nothing in between. */
  function Run(memo: Memo, endpoint: Endpoint, call: Call): (Memo, Finished)
    decreases |LADDER| - |call.sent|
  {
    var response := Reply(endpoint, call.url, call.body);
    if StepsDown(call, response)
    then Run(Noted(memo, call, response), endpoint, Retried(call, response))
    else (memo, Completed(call, response))
  }

  /** What one endpoint does to the levels sent to it for one model. */
  function Ladder(endpoint: Endpoint, url: string, model: string): Steps {
    (level: string) =>
      var response := endpoint.answer(url, model, level);
      if BlamesEffort(response) then Leads(EffortNamedIn(response.text, level)) else Stays
  }

  lemma LadderIsNamed(endpoint: Endpoint, url: string, model: string)
    ensures NamesLadder(Ladder(endpoint, url, model))
  {
    forall level | Ladder(endpoint, url, model)(level).Leads?
      ensures Ladder(endpoint, url, model)(level).instead.Some? ==>
                Ladder(endpoint, url, model)(level).instead.value in LADDER
    {
      EffortNamedIsBest(endpoint.answer(url, model, level).text, level);
    }
  }

  // ---- keys ----

  predicate OneLine(text: string) { '\n' !in text }

  /** The memo's key tells a model and a level apart from every other pair with a one-line level exactly
      when the level is one line, whatever the model; and from every other pair at all exactly when
      both are. */
  lemma KeyIsUnambiguousIff(url: string, model: string, level: string)
    ensures (forall model', level' :: OneLine(level') && Key(url, model', level') == Key(url, model, level) ==>
               model' == model && level' == level)
            <==> OneLine(level)
    ensures (forall model', level' :: Key(url, model', level') == Key(url, model, level) ==> model' == model && level' == level)
            <==> OneLine(model) && OneLine(level)
  {
    if OneLine(level) {
      forall model', level' | OneLine(level') && Key(url, model', level') == Key(url, model, level)
        ensures model' == model && level' == level
      {
        KeyDetermines(url, model, level, url, model', level');
      }
      if OneLine(model) {
        forall model', level' | Key(url, model', level') == Key(url, model, level)
          ensures model' == model && level' == level
        {
          KeyDetermines(url, model, level, url, model', level');
        }
      } else {
        ModelSplits(url, model, level);
      }
    } else {
      var model', level' := LevelSplits(url, model, level);
    }
  }

  lemma ModelSplits(url: string, model: string, level: string)
    requires !OneLine(model)
    ensures exists model', level' :: Key(url, model', level') == Key(url, model, level) && model' != model
  {
    var i :| 0 <= i < |model| && model[i] == '\n';
    var model', level' := model[..i], model[i + 1..] + "\n" + level;
    assert model == model[..i] + "\n" + model[i + 1..];
    assert Key(url, model', level') == Key(url, model, level);
    assert |model'| != |model|;
  }

  /** Split after its last line break, a level shares its key with a one-line one. */
  lemma {:induction false} LevelSplits(url: string, model: string, level: string) returns (model': string, level': string)
    requires !OneLine(level)
    ensures OneLine(level') && Key(url, model', level') == Key(url, model, level) && |model'| > |model|
    decreases |level|
  {
    var i :| 0 <= i < |level| && level[i] == '\n';
    assert level == level[..i] + "\n" + level[i + 1..];
    model', level' := model + "\n" + level[..i], level[i + 1..];
    assert Key(url, model', level') == Key(url, model, level);
    if !OneLine(level') { model', level' := LevelSplits(url, model', level'); }
  }

  lemma TailDetermines(model: string, level: string, model': string, level': string)
    requires OneLine(level) && (OneLine(level') || OneLine(model))
    requires model + "\n" + level == model' + "\n" + level'
    ensures model == model' && level == level'
  {
    var tail := model + "\n" + level;
    assert tail[|model|] == '\n' && tail[|model'|] == '\n';
    assert forall i :: |model| < i < |tail| ==> tail[i] == level[i - |model| - 1];
    assert forall i :: |model'| < i < |tail| ==> tail[i] == level'[i - |model'| - 1];
    assert forall i :: 0 <= i < |model| ==> tail[i] == model[i];
    assert |model| == |model'|;
    assert model == tail[..|model|] == model';
    assert level == tail[|model| + 1..] == level';
  }

  /** Keys of one-line urls are equal only for equal urls, models and levels, where both levels are one
      line, or one of them and its model are. */
  lemma KeyDetermines(url: string, model: string, level: string, url': string, model': string, level': string)
    requires (OneLine(url) && OneLine(url')) || url == url'
    requires OneLine(level) && (OneLine(level') || OneLine(model))
    requires Key(url, model, level) == Key(url', model', level')
    ensures url == url' && model == model' && level == level'
  {
    var key := Key(url, model, level);
    assert key[|url|] == '\n' && key[|url'|] == '\n';
    assert forall i :: 0 <= i < |url| ==> key[i] == url[i];
    assert forall i :: 0 <= i < |url'| ==> key[i] == url'[i];
    assert |url| == |url'|;
    assert url == key[..|url|] == url';
    assert model + "\n" + level == key[|url| + 1..] == model' + "\n" + level';
    TailDetermines(model, level, model', level');
  }
}
