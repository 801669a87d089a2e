/** The worker process: one answer line per request line, in order, until its input ends or it recycles itself. */
module AdvanceWorker {
  import opened Framing
  import opened AdvanceQueues
  import opened AdvanceWorkers
  import opened Options

  const DEFAULT_MAX_TASKS := 200

  /** One request line: the plan it names when it is a well-formed request, the payload the advance returns for it,
      and the modification time of the env file after it was answered. */
  datatype Request = Request(plan: Option<Plan>, result: Bytes, envTime: Option<int>)

  /** The recycle threshold; `raw` is the environment value when it is set, and its integer when it parses. */
  function MaxTasks(raw: Option<Option<int>>): (n: nat)
    ensures n > 0
    ensures raw.Some? && raw.value.Some? && raw.value.value > 0 ==> n == raw.value.value
    ensures raw.None? || raw.value.None? || raw.value.value <= 0 ==> n == 200
  {
    if raw.None? || raw.value.None? || raw.value.value <= 0 then DEFAULT_MAX_TASKS else raw.value.value
  }

  function Reply(r: Request, refusal: Bytes): Bytes {
    if r.plan.Some? && ValidKey(r.plan.value) then r.result else refusal
  }

  /** The env file is there and is not the one the worker started with. */
  predicate EnvChanged(time: Option<int>, startTime: Option<int>) {
    match time
    case None => false
    case Some(t) => startTime != Some(t)
  }

  /** Writes one line; the pipe may accept it piece by piece. */
  method WriteLine(output: Bytes, payload: Bytes, pieces: seq<nat>) returns (r: Bytes)
    ensures r == output + payload + [LF]
  {
    r := output;
    var data := payload + [LF];
    var i := 0;
    while data != []
      invariant r + data == output + payload + [LF]
      decreases |data|
    {
      var n := if i < |pieces| && 0 < pieces[i] < |data| then pieces[i] else |data|;
      assert data == data[..n] + data[n..];
      assert r + data == (r + data[..n]) + data[n..];
      r, data := r + data[..n], data[n..];
      i := i + 1;
    }
  }

  function Replies(requests: seq<Request>, refusal: Bytes): (r: seq<Bytes>)
    ensures |r| == |requests|
  {
    seq(|requests|, i requires 0 <= i < |requests| => Reply(requests[i], refusal))
  }

  lemma OneMoreReply(requests: seq<Request>, k: nat, refusal: Bytes)
    requires k < |requests|
    ensures Join(Replies(requests[..k + 1], refusal))
            == Join(Replies(requests[..k], refusal)) + Reply(requests[k], refusal) + [LF]
  {
    var all := Replies(requests[..k + 1], refusal);
    assert all[..|all| - 1] == Replies(requests[..k], refusal);
  }

  lemma NoReplies(refusal: Bytes)
    ensures Join(Replies([], refusal)) == []
  {
  }

  /** The request loop. The stream it writes is exactly one line for each of the first `answered` requests; it stops
      only after an answer, at the first one it recycles on, or when the requests end. */
  method Serve(requests: seq<Request>, cap: Option<Option<int>>, startTime: Option<int>, refusal: Bytes,
               pieces: seq<nat>)
    returns (output: Bytes, answered: nat)
    ensures answered <= |requests| && output == Join(Replies(requests[..answered], refusal))
    ensures forall i | 0 <= i < answered - 1 :: !EnvChanged(requests[i].envTime, startTime)
    ensures answered == |requests|
            || (answered > 0 && (answered == MaxTasks(cap) || EnvChanged(requests[answered - 1].envTime, startTime)))
    ensures answered <= MaxTasks(cap)
  {
    hide Replies, Join, ValidKey;
    var maxTasks := MaxTasks(cap);
    output, answered := [], 0;
    NoReplies(refusal);
    for k := 0 to |requests|
      invariant answered == k < maxTasks && output == Join(Replies(requests[..k], refusal))
      invariant forall i | 0 <= i < k :: !EnvChanged(requests[i].envTime, startTime)
    {
      var request := requests[k];
      if request.plan.None? || !ValidKey(request.plan.value) {
        output := WriteLine(output, refusal, pieces);
      } else {
        output := WriteLine(output, request.result, pieces);
      }
      answered := answered + 1;
      OneMoreReply(requests, k, refusal);
      if answered >= maxTasks {
        return;
      }
      if request.envTime.Some? && request.envTime != startTime {
        return;
      }
    }
    assert requests[..|requests|] == requests;
  }

  /** The requests a worker was sent, with the answers it gives to them. */
  predicate Served(child: Child, requests: seq<Request>)
    reads child
  {
    && |requests| == |child.answers|
    && forall i | 0 <= i < |requests| ::
         && requests[i].plan.Some? && ValidKey(requests[i].plan.value) && requests[i].result == child.answers[i]
  }

  /** The stream the parent reads is the stream the request loop writes: one answer line per request, in order. */
  lemma StreamIsServed(child: Child, requests: seq<Request>, refusal: Bytes)
    requires Served(child, requests)
    ensures Join(Replies(requests, refusal)) == Join(child.answers)
  {
    assert Replies(requests, refusal) == child.answers;
  }

  /** End to end: whatever part of the loop's output has arrived, and however it was cut, the lines the parent has taken
      are the replies to its first requests, one for one. */
  lemma LinesAreReplies(requests: seq<Request>, refusal: Bytes, got: seq<Bytes>, buffer: Bytes, received: nat)
    requires OneLine(refusal) && forall i | 0 <= i < |requests| :: OneLine(requests[i].result)
    requires AllLines(got) && received <= |Join(Replies(requests, refusal))|
    requires Join(Replies(requests, refusal))[..received] == Join(got) + buffer
    ensures |got| <= |requests|
    ensures forall i | 0 <= i < |got| ::
              got[i] == match requests[i].plan
                        case Some(plan) => if ValidKey(plan) then requests[i].result else refusal
                        case None => refusal
  {
    hide Join;
    LinesReadAreLinesWritten(got, buffer, Replies(requests, refusal), received);
  }
}
