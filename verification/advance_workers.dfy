/** The supervised worker slots and their request/response pipes. A worker writes one line per request; the parent
    reads its stream in arbitrary pieces, and may stop waiting at any moment. */
module AdvanceWorkers {
  import opened Framing
  import opened AdvanceQueues
  import opened AdvanceRuntime

  /** What one wait on the pipe brings: up to `size` of the bytes the worker has written, an interrupted wait,
      nothing within the deadline, the end of the pipe, or an error. */
  datatype Arrival = Chunk(size: nat) | Interrupted | Quiet | Eof | Broken

  datatype Read = Line(bytes: Bytes) | Ended | TimedOut

  /** How many bytes a read waits for before something ends the wait. */
  function Offered(arrivals: seq<Arrival>): nat {
    if arrivals == [] then 0
    else match arrivals[0]
      case Chunk(n) => if n == 0 then 0 else n + Offered(arrivals[1..])
      case Interrupted => Offered(arrivals[1..])
      case _ => 0
  }

  /** An arrival after which a read goes on waiting. */
  predicate GoesOn(a: Arrival) {
    a.Interrupted? || (a.Chunk? && a.size > 0)
  }

  /** The first arrival that ends the wait is the end of the pipe, an error, or an empty read. */
  predicate HungUp(arrivals: seq<Arrival>) {
    exists k | 0 <= k < |arrivals| ::
      && (forall i | 0 <= i < k :: GoesOn(arrivals[i]))
      && (arrivals[k].Eof? || arrivals[k].Broken? || arrivals[k] == Chunk(0))
  }

  lemma StopsAt(arrivals: seq<Arrival>, i: nat)
    requires i <= |arrivals| && forall k | 0 <= k < i :: GoesOn(arrivals[k])
    ensures i == |arrivals| ==> !HungUp(arrivals)
    ensures i < |arrivals| && !GoesOn(arrivals[i]) ==> (HungUp(arrivals) <==> !arrivals[i].Quiet?)
  {
  }

  function Min(a: nat, b: nat): nat {
    if a < b then a else b
  }

  /** One worker: the parent's two pipe ends and read buffer, and the worker's own side, which answers every request
      it has been sent with one line. `received` is what the parent has read of that stream, `got` the lines it has
      taken out of the buffer. */
  class Child {
    var buffer: Bytes
    var inOpen: bool
    var outOpen: bool
    var answers: seq<Bytes>
    var received: nat
    ghost var sent: seq<Plan>
    ghost var got: seq<Bytes>

    constructor ()
      ensures Idle() && sent == []
    {
      buffer, inOpen, outOpen, answers, received := [], true, true, [], 0;
      sent, got := [], [];
    }

    /** What was read of the worker's stream is the lines taken and the buffer. */
    ghost predicate Valid()
      reads this
    {
      && AllLines(got) && AllLines(answers) && |answers| == |sent|
      && received <= |Join(answers)| && Join(answers)[..received] == Join(got) + buffer
    }

    /** Between two requests: every answer has been read. */
    ghost predicate Idle()
      reads this
    {
      Valid() && got == answers && buffer == [] && inOpen && outOpen
    }

    /** One request is outstanding, with the whole of its answer still to be read. */
    ghost predicate Waiting()
      reads this
    {
      && Valid() && |sent| > 0 && got == answers[..|sent| - 1] && buffer == [] && inOpen && outOpen
    }

    /** Writes one request line; the worker will answer it with `answer`. */
    method Send(plan: Plan, broken: bool, answer: Bytes) returns (ok: bool)
      requires Idle() && OneLine(answer)
      modifies this`sent, this`answers
      ensures ok <==> !broken
      ensures ok ==> Waiting() && sent == old(sent) + [plan] && answers == old(answers) + [answer]
    {
      if !inOpen || broken {
        return false;
      }
      assert Join(answers)[..received] == Join(answers);
      sent, answers := sent + [plan], answers + [answer];
      assert answers[..|answers| - 1] == old(answers);
      return true;
    }

    /** Moves up to `size` of the bytes the worker has written into the buffer. */
    method ReadChunk(size: nat)
      requires Valid()
      modifies this`buffer, this`received
      ensures Valid() && received == Min(|Join(answers)|, old(received) + size)
    {
      var stream := Join(answers);
      var upTo := Min(|stream|, received + size);
      assert stream[..upTo] == stream[..received] + stream[received..upTo];
      buffer, received := buffer + stream[received..upTo], upTo;
    }

    /** Takes the line that ends at `end` out of the buffer. */
    method TakeLine(end: nat) returns (line: Bytes)
      requires Valid() && end == LineEnd(buffer, 0) < |buffer|
      modifies this`buffer, this`got
      ensures Valid() && got == old(got) + [line]
    {
      line := buffer[..end];
      JoinLine(got, buffer, end);
      buffer, got := buffer[end + 1..], got + [line];
    }

    /** The next complete line of the stream, whatever pieces it arrives in. Without a line, everything offered has
        been read and holds none, and the read ends because the pipe was hung up, or else because the time was up. */
    method ReadLine(arrivals: seq<Arrival>) returns (r: Read)
      requires Valid() && outOpen
      modifies this`buffer, this`received, this`got
      ensures Valid() && received <= old(received) + Offered(arrivals)
      ensures r.Line? ==> got == old(got) + [r.bytes]
      ensures !r.Line? ==> got == old(got) && OneLine(buffer)
                           && received == Min(|Join(answers)|, old(received) + Offered(arrivals))
      ensures r.Ended? ==> HungUp(arrivals)
      ensures r.TimedOut? && old(received) + Offered(arrivals) <= |Join(answers)| ==> !HungUp(arrivals)
    {
      hide HungUp;
      var i := 0;
      while true
        invariant 0 <= i <= |arrivals| && Valid() && got == old(got)
        invariant forall k | 0 <= k < i :: GoesOn(arrivals[k])
        invariant Offered(arrivals[i..]) <= Offered(arrivals)
        invariant received == Min(|Join(answers)|, old(received) + Offered(arrivals) - Offered(arrivals[i..]))
        decreases |arrivals| - i
      {
        StopsAt(arrivals, i);
        var end := LineEnd(buffer, 0);
        if end < |buffer| {
          var line := TakeLine(end);
          return Line(line);
        }
        if i == |arrivals| {
          return TimedOut;
        }
        assert arrivals[i..][0] == arrivals[i] && arrivals[i..][1..] == arrivals[i + 1..];
        match arrivals[i] {
          case Interrupted =>
          case Quiet =>
            return TimedOut;
          case Eof =>
            return Ended;
          case Broken =>
            return Ended;
          case Chunk(size) =>
            if size == 0 {
              return Ended;
            }
            if received == |Join(answers)| {
              return TimedOut;
            }
            ReadChunk(size);
        }
        i := i + 1;
      }
    }

    method Close()
      modifies this`inOpen, this`outOpen
      ensures !inOpen && !outOpen
    {
      inOpen, outOpen := false, false;
    }
  }

  lemma JoinLine(got: seq<Bytes>, buffer: Bytes, end: nat)
    requires end < |buffer| && buffer[end] == LF
    ensures Join(got + [buffer[..end]]) + buffer[end + 1..] == Join(got) + buffer
  {
    assert (got + [buffer[..end]])[..|got|] == got;
    assert buffer == buffer[..end] + [LF] + buffer[end + 1..];
  }

  /** However the stream is cut into pieces, the lines read are the first lines the worker wrote, in order, and when
      none is missing nothing is left over. */
  lemma LinesReadAreLinesWritten(got: seq<Bytes>, buffer: Bytes, answers: seq<Bytes>, received: nat)
    requires AllLines(got) && AllLines(answers)
    requires received <= |Join(answers)| && Join(answers)[..received] == Join(got) + buffer
    ensures got <= answers
    ensures |got| == |answers| ==> buffer == []
    ensures OneLine(buffer) && received == |Join(answers)| ==> got == answers
  {
    var s := Join(answers);
    assert s == (Join(got) + buffer) + s[received..];
    LinesArePrefix(got, buffer, answers);
    if |got| == |answers| {
      assert got == answers;
      assert |Join(got) + buffer| == |Join(got)| + |buffer|;
    }
    if OneLine(buffer) && received == |s| {
      ReadingIsUnique(got, buffer, answers, []);
    }
  }

  /** What one advance meets: whether the idle child had exited, whether spawning or the write fails, what arrives
      while the answer is awaited, the answer itself, and whether it parses as a result object. */
  datatype Luck = Luck(
    exited: bool, spawnFails: bool, writeFails: bool, arrivals: seq<Arrival>, answer: Bytes, parses: bool)

  datatype Outcome =
    | Accepted(line: Bytes) | InvalidPlan | SpawnFailed | Deadline | WriteFailed | PipeClosed | Unparsable

  /** There is a worker to ask: the idle one that has not exited, or a new one. */
  predicate HasChild(child: Child?, luck: Luck) {
    (child != null && !luck.exited) || !luck.spawnFails
  }

  /** The pool's counters. */
  class Counters {
    var advances: nat
    var timeouts: nat
    var respawns: nat
    var spawns: nat

    constructor ()
      ensures advances == timeouts == respawns == spawns == 0
    {
      advances, timeouts, respawns, spawns := 0, 0, 0, 0;
    }

    /** Reaps a child and forgets it. */
    method Recycle(child: Child)
      modifies this`respawns, child`inOpen, child`outOpen
      ensures respawns == old(respawns) + 1 && !child.inOpen && !child.outOpen
    {
      respawns := respawns + 1;
      child.Close();
    }

    /** Ends a child that let the deadline pass. */
    method OnTimeout(child: Child)
      modifies this`timeouts, child`inOpen, child`outOpen
      ensures timeouts == old(timeouts) + 1 && !child.inOpen && !child.outOpen
    {
      timeouts := timeouts + 1;
      child.Close();
    }

    /** A live child for the next request: the idle one unless it has exited. */
    method Provide(child: Child?, luck: Luck) returns (next: Child?)
      requires child != null ==> child.Idle()
      modifies this`respawns, this`spawns, child
      ensures next != null ==> next.Idle() && (fresh(next) || (next == child && !luck.exited))
      ensures next == null <==> (child == null || luck.exited) && luck.spawnFails
      ensures child != null && luck.exited ==> !child.inOpen && !child.outOpen
      ensures spawns == old(spawns) + (if (child == null || luck.exited) && !luck.spawnFails then 1 else 0)
      ensures respawns == old(respawns) + (if child != null && luck.exited then 1 else 0)
    {
      next := child;
      if next != null && luck.exited {
        Recycle(next);
        next := null;
      }
      if next == null && !luck.spawnFails {
        next := new Child();
        spawns := spawns + 1;
      }
    }

    /** One request and its answer. The child is kept only when its answer was read and parsed. */
    method Exchange(child: Child, plan: Plan, luck: Luck) returns (outcome: Outcome)
      requires child.Idle() && OneLine(luck.answer)
      modifies this`advances, this`timeouts, this`respawns, child
      ensures outcome.Accepted? <==> !luck.writeFails && Offered(luck.arrivals) > |luck.answer| && luck.parses
      ensures outcome.Accepted? ==>
                outcome.line == luck.answer && child.Idle() && child.sent == old(child.sent) + [plan]
      ensures !outcome.Accepted? ==> !child.inOpen && !child.outOpen
      ensures outcome.Accepted? || outcome in {Deadline, WriteFailed, PipeClosed, Unparsable}
      ensures outcome.WriteFailed? <==> luck.writeFails
      ensures outcome.Unparsable? <==> !luck.writeFails && Offered(luck.arrivals) > |luck.answer| && !luck.parses
      ensures outcome.PipeClosed? <==>
                !luck.writeFails && Offered(luck.arrivals) <= |luck.answer| && HungUp(luck.arrivals)
      ensures outcome.Deadline? <==>
                !luck.writeFails && Offered(luck.arrivals) <= |luck.answer| && !HungUp(luck.arrivals)
      ensures advances == old(advances) + (if outcome.Accepted? then 1 else 0)
      ensures timeouts == old(timeouts) + (if outcome.Deadline? then 1 else 0)
      ensures respawns == old(respawns) + (if outcome.Accepted? || outcome.Deadline? then 0 else 1)
    {
      var sent := child.Send(plan, luck.writeFails, luck.answer);
      if !sent {
        Recycle(child);
        return WriteFailed;
      }
      var r := child.ReadLine(luck.arrivals);
      AnswerRead(child, luck, r);
      match r {
        case TimedOut =>
          OnTimeout(child);
          return Deadline;
        case Ended =>
          Recycle(child);
          return PipeClosed;
        case Line(line) =>
          if !luck.parses {
            Recycle(child);
            return Unparsable;
          }
          advances := advances + 1;
          return Accepted(line);
      }
    }

    /** Advances `plan` on `child`. A line is accepted exactly when nothing fails and the worker's whole answer arrives
        in time, and then it is the worker's answer to this very request: a child is never used again while an
        answer to an earlier request could still arrive. */
    method Advance(child: Child?, plan: Plan, luck: Luck) returns (next: Child?, outcome: Outcome)
      requires (child != null ==> child.Idle()) && OneLine(luck.answer)
      modifies this, child
      ensures outcome.InvalidPlan? <==> !ValidKey(plan)
      ensures outcome.Accepted?
              <==> ValidKey(plan) && HasChild(child, luck) && !luck.writeFails
                   && Offered(luck.arrivals) > |luck.answer| && luck.parses
      ensures outcome.SpawnFailed? <==> ValidKey(plan) && !HasChild(child, luck)
      ensures outcome.WriteFailed? <==> ValidKey(plan) && HasChild(child, luck) && luck.writeFails
      ensures outcome.Unparsable? <==>
                && ValidKey(plan) && HasChild(child, luck) && !luck.writeFails
                && Offered(luck.arrivals) > |luck.answer| && !luck.parses
      ensures outcome.PipeClosed? <==>
                && ValidKey(plan) && HasChild(child, luck) && !luck.writeFails
                && Offered(luck.arrivals) <= |luck.answer| && HungUp(luck.arrivals)
      ensures outcome.Deadline? <==>
                && ValidKey(plan) && HasChild(child, luck) && !luck.writeFails
                && Offered(luck.arrivals) <= |luck.answer| && !HungUp(luck.arrivals)
      ensures outcome.Accepted? ==> outcome.line == luck.answer
      ensures next != null ==> next.Idle() && (next == child || fresh(next))
      ensures next != null <==> outcome.Accepted? || (outcome.InvalidPlan? && child != null)
      ensures outcome.Accepted? ==> |next.sent| > 0 && next.sent[|next.sent| - 1] == plan
      ensures advances == old(advances) + (if outcome.Accepted? then 1 else 0)
      ensures timeouts == old(timeouts) + (if outcome.Deadline? then 1 else 0)
      ensures spawns == old(spawns)
                        + if ValidKey(plan) && (child == null || luck.exited) && !luck.spawnFails then 1 else 0
      ensures respawns == old(respawns) + (if ValidKey(plan) && child != null && luck.exited then 1 else 0)
                          + (if outcome in {WriteFailed, PipeClosed, Unparsable} then 1 else 0)
    {
      if !ValidKey(plan) {
        return child, InvalidPlan;
      }
      next := Provide(child, luck);
      if next == null {
        return null, SpawnFailed;
      }
      outcome := Exchange(next, plan, luck);
      if !outcome.Accepted? {
        next := null;
      }
    }
  }

  /** After a read for an outstanding request: a line is its answer and leaves the child idle, and a line is read
      exactly when enough was offered. */
  lemma AnswerRead(child: Child, luck: Luck, r: Read)
    requires child.Valid() && child.inOpen && child.outOpen && |child.answers| > 0
    requires child.answers[|child.answers| - 1] == luck.answer
    requires child.received <= |Join(child.answers[..|child.answers| - 1])| + Offered(luck.arrivals)
    requires var n := |child.answers| - 1;
             if r.Line? then child.got == child.answers[..n] + [r.bytes]
             else child.got == child.answers[..n] && OneLine(child.buffer)
                  && child.received == Min(|Join(child.answers)|, |Join(child.answers[..n])| + Offered(luck.arrivals))
    ensures r.Line? ==> r.bytes == luck.answer && child.Idle()
    ensures r.Line? <==> Offered(luck.arrivals) > |luck.answer|
  {
    LinesReadAreLinesWritten(child.got, child.buffer, child.answers, child.received);
    assert r.Line? ==> child.received >= |Join(child.got)|;
    assert |Join(child.answers)| == |Join(child.answers[..|child.answers| - 1])| + |luck.answer| + 1;
  }

  /** Everybody else: a slot's takes and finishes are its own. */
  predicate OthersOf(ops: seq<Op>, w: nat) {
    forall i | 0 <= i < |ops| :: Foreign(ops[i], w)
  }

  /** The request goes out, and the whole answer comes back and parses. */
  predicate AnswersInTime(luck: Luck) {
    !luck.writeFails && Offered(luck.arrivals) > |luck.answer| && luck.parses
  }

  /** What became of one go of a slot: a look at step `at` that found nothing to take, or a plan taken and finished at
      these steps. */
  datatype Turn = NoTurn(at: nat) | Turn(plan: Plan, first: nat, last: nat)

  predicate TurnIn(trace: seq<Op>, w: nat, t: Turn, now: int) {
    match t
    case NoTurn(at) => FoundNothing(trace, w, at)
    case Turn(plan, first, last) => IsTurn(trace, w, first, last, plan, now)
  }

  predicate FoundNothing(trace: seq<Op>, w: nat, at: nat) {
    at < |trace| && trace[at] == Take(w) && (At(trace, at).q.closed || At(trace, at).q.waiting == [])
  }

  lemma {:induction false} OthersKeepSlot(s: Sys, ops: seq<Op>, w: nat)
    requires OthersOf(ops, w) && w !in s.held
    ensures w !in Run(s, ops).held
    decreases |ops|
  {
    if ops != [] {
      OthersKeepSlot(s, ops[..|ops| - 1], w);
    }
  }

  lemma TurnMade(prefix: seq<Op>, during: seq<Op>, w: nat, plan: Plan, now: int)
    requires w !in At(prefix, |prefix|).held && TakeFrom(At(prefix, |prefix|).q) == Got(plan) && OthersOf(during, w)
    ensures var trace := prefix + [Take(w)] + during + [Finish(w, now)];
            IsTurn(trace, w, |prefix|, |trace| - 1, plan, now) && w !in At(trace, |trace|).held
  {
    hide At;
    var trace := prefix + [Take(w)] + during + [Finish(w, now)];
    AtPrefix(prefix, trace, |prefix|);
    assert forall m | |prefix| < m < |trace| - 1 :: trace[m] == during[m - |prefix| - 1];
    TurnFinishesPlan(trace, w, |prefix|, |trace| - 1, plan, now);
  }

  /** One go of slot `w`: take, advance, finish, while the others act before the take and during the advance. */
  method TakeTurn(pool: Counters, rt: Runtime, w: nat, child: Child?, luck: Luck, now: int, before: seq<Op>,
                  during: seq<Op>)
    returns (next: Child?, outcome: Outcome, ghost t: Turn)
    requires rt.Valid() && w !in rt.held && OthersOf(before, w) && OthersOf(during, w)
    requires (child != null ==> child.Idle()) && OneLine(luck.answer)
    modifies pool, rt, rt.queue, child
    ensures rt.Valid() && w !in rt.held && old(rt.trace) <= rt.trace
    ensures next != null ==> next.Idle() && (next == child || fresh(next))
    ensures TurnIn(rt.trace, w, t, now)
    ensures t.NoTurn? ==> next == child && outcome.InvalidPlan?
    ensures t.Turn? ==>
              && (outcome.InvalidPlan? <==> !ValidKey(t.plan))
              && (outcome.Accepted? <==>
                    ValidKey(t.plan) && HasChild(child, luck) && AnswersInTime(luck))
    ensures pool.advances == old(pool.advances) + (if outcome.Accepted? then 1 else 0)
    ensures outcome.Accepted? ==>
              && t.Turn? && outcome.line == luck.answer && Offered(luck.arrivals) > |luck.answer|
              && next != null && |next.sent| > 0 && next.sent[|next.sent| - 1] == t.plan
  {
    hide IsTurn, OthersOf, At, Run, ValidKey, Inv, OneLine, Offered;
    OthersKeepSlot(rt.State(), before, w);
    rt.ActAll(before);
    ghost var prefix := rt.trace;
    var taken := rt.Act(Take(w));
    next, outcome, t := child, InvalidPlan, NoTurn(|prefix|);
    AtPrefix(prefix, rt.trace, |prefix|);
    if taken.Got? {
      next, outcome := pool.Advance(child, taken.plan, luck);
      rt.ActAll(during);
      var _ := rt.Act(Finish(w, now));
      TurnMade(prefix, during, w, taken.plan, now);
      t := Turn(taken.plan, |prefix|, |rt.trace| - 1);
    }
  }

  /** The life of one slot among the others: before each take and during each advance they do what they like, other
      than acting for this slot. Every plan the slot takes it finishes, whatever happened, and every line it accepts is
      its worker's answer to the plan it had just sent. Its last worker is closed when it stops. */
  method RunSlot(pool: Counters, rt: Runtime, w: nat, luck: seq<Luck>, clock: seq<int>, others: seq<seq<Op>>)
    returns (outcomes: seq<Outcome>, ghost turns: seq<Turn>, ghost last: Child?)
    requires |clock| == |luck| && |others| == 2 * |luck|
    requires forall i | 0 <= i < |luck| :: OneLine(luck[i].answer)
    requires forall i | 0 <= i < |others| :: OthersOf(others[i], w)
    requires rt.Valid() && w !in rt.held
    modifies pool, rt, rt.queue
    ensures rt.Valid() && w !in rt.held && old(rt.trace) <= rt.trace
    ensures |outcomes| == |turns| == |luck|
    ensures forall i | 0 <= i < |luck| :: TurnIn(rt.trace, w, turns[i], clock[i])
    ensures forall i | 0 <= i < |luck| && outcomes[i].Accepted? ::
              turns[i].Turn? && outcomes[i].line == luck[i].answer && Offered(luck[i].arrivals) > |luck[i].answer|
    ensures forall i | 0 <= i < |luck| && turns[i].Turn? && ValidKey(turns[i].plan) ::
              !luck[i].spawnFails && AnswersInTime(luck[i]) ==> outcomes[i].Accepted?
    ensures pool.advances == old(pool.advances) + AcceptedIn(outcomes)
    ensures last != null ==> fresh(last) && !last.inOpen && !last.outOpen
  {
    hide OthersOf, TurnIn, OneLine, ValidKey, Inv, AnswersInTime;
    var child: Child? := null;
    outcomes, turns := [], [];
    for n := 0 to |luck|
      invariant rt.Valid() && w !in rt.held && old(rt.trace) <= rt.trace && |outcomes| == |turns| == n
      invariant child != null ==> child.Idle() && fresh(child)
      invariant forall i | 0 <= i < n :: TurnIn(rt.trace, w, turns[i], clock[i])
      invariant pool.advances == old(pool.advances) + AcceptedIn(outcomes)
      invariant forall i | 0 <= i < n && turns[i].Turn? && ValidKey(turns[i].plan) ::
                  !luck[i].spawnFails && AnswersInTime(luck[i]) ==> outcomes[i].Accepted?
      invariant forall i | 0 <= i < n && outcomes[i].Accepted? ::
                  turns[i].Turn? && outcomes[i].line == luck[i].answer && Offered(luck[i].arrivals) > |luck[i].answer|
    {
      ghost var before := rt.trace;
      var outcome;
      ghost var t;
      child, outcome, t := TakeTurn(pool, rt, w, child, luck[n], clock[n], others[2 * n], others[2 * n + 1]);
      TurnsStay(before, rt.trace, w, turns, clock);
      OneMoreAccepted(outcomes, outcome);
      outcomes, turns := outcomes + [outcome], turns + [t];
    }
    last := child;
    if child != null {
      child.Close();
    }
  }

  function AcceptedIn(outcomes: seq<Outcome>): nat {
    if outcomes == [] then 0
    else
      var n := |outcomes| - 1;
      AcceptedIn(outcomes[..n]) + if outcomes[n].Accepted? then 1 else 0
  }

  lemma OneMoreAccepted(outcomes: seq<Outcome>, o: Outcome)
    ensures AcceptedIn(outcomes + [o]) == AcceptedIn(outcomes) + if o.Accepted? then 1 else 0
  {
    assert (outcomes + [o])[..|outcomes|] == outcomes;
  }

  lemma TurnsStay(trace: seq<Op>, more: seq<Op>, w: nat, turns: seq<Turn>, clock: seq<int>)
    requires trace <= more && |turns| <= |clock| && forall i | 0 <= i < |turns| :: TurnIn(trace, w, turns[i], clock[i])
    ensures forall i | 0 <= i < |turns| :: TurnIn(more, w, turns[i], clock[i])
  {
    hide IsTurn, At;
    forall i | 0 <= i < |turns| ensures TurnIn(more, w, turns[i], clock[i]) {
      match turns[i]
      case Turn(plan, first, last) => TurnStays(trace, more, w, first, last, plan, clock[i]);
      case NoTurn(at) => AtPrefix(trace, more, at);
    }
  }
}
