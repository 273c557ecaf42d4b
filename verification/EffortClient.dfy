/** The step-down as the program runs it: a loop over attempts that reads and writes the memo. */
module EffortClient {
  import opened Base
  import opened EffortLevels
  import opened EffortFallback

  lemma RunOnce(memo: Memo, endpoint: Endpoint, call: Call, response: Response)
    requires response == Reply(endpoint, call.url, call.body)
    ensures Run(memo, endpoint, call) ==
              if StepsDown(call, response)
              then Run(Noted(memo, call, response), endpoint, Retried(call, response))
              else (memo, Completed(call, response))
  {
  }

  class Client {
    /** What each endpoint answered to a level it rejected. */
    var fallbacks: Memo

    constructor ()
      ensures fallbacks == map[]
    {
      fallbacks := map[];
    }

    /** The body to start from: what the memo leads to, in at most as many steps as there are levels. */
    method Resume(url: string, asked: Body) returns (body: Body, step: nat)
      ensures (body, step) == Prefetch(fallbacks, url, asked, |LADDER|)
    {
      body, step := asked, 0;
      while step < |LADDER| && Names(body) && KeyOf(url, body) in fallbacks
        invariant step <= |LADDER|
        invariant var rest := Prefetch(fallbacks, url, body, |LADDER| - step);
                  Prefetch(fallbacks, url, asked, |LADDER|) == (rest.0, rest.1 + step)
      {
        body := WithEffort(body, fallbacks[KeyOf(url, body)]);
        step := step + 1;
      }
    }

    /** Takes in one answer: `Some` body to send instead, or nothing when the answer is final. */
    method Answered(call: Call, response: Response) returns (instead: Option<Body>)
      modifies this
      ensures instead.Some? <==> StepsDown(call, response)
      ensures instead.Some? ==> instead.value == Retried(call, response).body
      ensures instead.Some? ==>
                instead.value.Parsed? && instead.value.model == call.body.model && instead.value.rest == call.body.rest &&
                match EffortNamedIn(response.text, call.body.effort.level)
                case Some(level) => instead.value.effort == Level(level)
                case None => instead.value.effort == Absent
      ensures fallbacks == Noted(old(fallbacks), call, response)
    {
      if !Names(call.body) || IsOk(response) || response.status >= 500 || |call.sent| >= |LADDER| { return None; }
      if !BlamesEffort(response) { return None; }
      var level := EffortNamedIn(response.text, call.body.effort.level);
      if call.url != "" { fallbacks := fallbacks[KeyOf(call.url, call.body) := level]; }
      instead := Some(WithEffort(call.body, level));
    }

    /** Sends one request, from where the memo leads, stepping down at each rejection. `sent` are all
        the bodies sent, the last of them answered by `response`. */
    method Fetch(endpoint: Endpoint, url: string, asked: Body) returns (response: Response, sent: seq<Body>)
      modifies this
      ensures var (memo, end) := Run(old(fallbacks), endpoint, Begin(old(fallbacks), url, asked));
              fallbacks == memo && response == end.response && sent == end.sent
      ensures 1 <= |sent| <= 6
    {
      var body, walked := Resume(url, asked);
      var call := Call(url, asked, body, walked, []);
      ghost var end := Run(fallbacks, endpoint, call);
      assert call == Begin(fallbacks, url, asked);
      while true
        invariant |call.sent| <= |LADDER|
        invariant call.url == url
        invariant Run(fallbacks, endpoint, call) == end
        decreases |LADDER| - |call.sent|
      {
        response := Reply(endpoint, url, call.body);
        RunOnce(fallbacks, endpoint, call, response);
        var instead := Answered(call, response);
        sent := call.sent + [call.body];
        if instead.None? { return; }
        call := call.(body := instead.value, walked := call.walked + 1, sent := sent);
      }
    }
  }
}
