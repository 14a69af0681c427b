/**
 The pipe protocol between one shared-model broker and its simulator workers, as atomic steps: workers ask,
 receive, finish or fail; the broker collects requests, coalesces more, and answers them together.
 */
module BrokerProtocol {
  import opened Common
  import opened ModelBroker

  datatype Message = Infer(id: nat, obs: Observation) | Done | Error

  datatype Reply = Actions(id: nat, outputs: seq<Output>)

  /** A worker computes on its own, waits for an answer, or has sent its last message. */
  datatype Status = Computing | Waiting | Stopped

  /** A worker with its two pipe directions, what it asked so far and what it was given. */
  datatype Worker = Worker(status: Status, sent: seq<Message>, replies: seq<Reply>, asked: seq<Observation>,
                           given: seq<seq<Output>>)

  datatype Request = Request(worker: nat, id: nat, obs: Observation)

  /** The broker blocks for any message, or coalesces further requests until its window closes. */
  datatype Phase = Gathering | Coalescing | Finished | Failed

  datatype State = State(workers: seq<Worker>, active: set<nat>, pending: seq<Request>, phase: Phase)

  datatype Event = Ask(worker: nat, obs: Observation) | Receive(worker: nat) | Finish(worker: nat) | Fail(worker: nat)
                 | Collect(worker: nat) | Close | GiveUp | Respond

  //////////////////////////// Steps ////////////////////////////

  function Requested(pending: seq<Request>): set<nat> {
    set i | 0 <= i < |pending| :: pending[i].worker
  }

  function Observations(pending: seq<Request>): (requests: seq<Observation>)
    ensures |requests| == |pending|
  {
    seq(|pending|, i requires 0 <= i < |pending| => pending[i].obs)
  }

  /** The joined requests are accepted and the model answers all of them in its two shapes. */
  predicate CanServe(model: Model, pending: seq<Request>) {
    && pending != [] && SameFields(Observations(pending)) && AllOk(Observations(pending))
    && forall i :: 0 <= i < |pending| ==> AllShaped(Answer(model, Observations(pending)[i]))
  }

  /** The reply that a request's slice of the joined outputs makes. */
  function ReplyTo(model: Model, pending: seq<Request>, i: nat): Reply
    requires i < |pending| && CanServe(model, pending)
  {
    var requests := Observations(pending);
    MergedOk(requests);
    SliceIsOwnAnswer(model, requests, i);
    Actions(pending[i].id, Answer(model, Merged(requests))[Offset(requests, i)..Offset(requests, i + 1)])
  }

  /** The workers after the broker sent the replies to the first `n` requests. */
  function Replied(model: Model, workers: seq<Worker>, pending: seq<Request>, n: nat): (after: seq<Worker>)
    requires n <= |pending| && CanServe(model, pending)
    ensures |after| == |workers|
  {
    if n == 0 then workers
    else
      var before := Replied(model, workers, pending, n - 1);
      var w := pending[n - 1].worker;
      if w < |before| then before[w := before[w].(replies := before[w].replies + [ReplyTo(model, pending, n - 1)])] else before
  }

  /** The next message of an active worker that may be read in this phase: none has a request pending. */
  predicate Readable(s: State, w: nat) {
    && w < |s.workers| && w in s.active && s.workers[w].sent != []
    && (s.phase == Gathering || s.phase == Coalescing) && w !in Requested(s.pending)
  }

  function Read(s: State, w: nat): State
    requires Readable(s, w)
  {
    var worker := s.workers[w];
    var rest := s.(workers := s.workers[w := worker.(sent := worker.sent[1..])], phase := Coalescing);
    match worker.sent[0]
    case Infer(id, obs) => rest.(pending := s.pending + [Request(w, id, obs)])
    case Done => rest.(active := s.active - {w})
    case Error => rest.(phase := Failed)
  }

  predicate Enabled(s: State, e: Event) {
    match e
    case Ask(w, obs) => w < |s.workers| && s.workers[w].status == Computing
    case Receive(w) => w < |s.workers| && s.workers[w].status == Waiting && s.workers[w].replies != []
    case Finish(w) => w < |s.workers| && s.workers[w].status == Computing
    case Fail(w) => w < |s.workers|
    case Collect(w) => Readable(s, w)
    case Close => s.phase == Gathering && s.active == {}
    case GiveUp => s.phase == Gathering && s.active != {}
    case Respond => s.phase == Coalescing
  }

  /**
   One atomic step. `Fail` is any error of a worker, also the timeout of one that waits and an error while it
   closes after it has finished. `Respond` ends the coalescing window, which may happen at any time; `Close` ends
   the outer loop, and `GiveUp` is its reaction to a dead process or a long silence.
   */
  function Next(model: Model, s: State, e: Event): State
    requires Enabled(s, e)
  {
    match e
    case Ask(w, obs) =>
      var worker := s.workers[w];
      s.(workers := s.workers[w := worker.(status := Waiting, sent := worker.sent + [Infer(|worker.asked|, obs)],
                                           asked := worker.asked + [obs])])
    case Receive(w) =>
      var worker := s.workers[w];
      var reply := worker.replies[0];
      var rest := worker.(replies := worker.replies[1..]);
      if reply.id == |worker.asked| - 1 then
        s.(workers := s.workers[w := rest.(status := Computing, given := worker.given + [reply.outputs])])
      else s.(workers := s.workers[w := rest.(status := Stopped, sent := worker.sent + [Error])])
    case Finish(w) => s.(workers := s.workers[w := s.workers[w].(status := Stopped, sent := s.workers[w].sent + [Done])])
    case Fail(w) => s.(workers := s.workers[w := s.workers[w].(status := Stopped, sent := s.workers[w].sent + [Error])])
    case Collect(w) => Read(s, w)
    case Close => s.(phase := Finished)
    case GiveUp => s.(phase := Failed)
    case Respond =>
      if s.pending == [] then s.(phase := Gathering)
      else if CanServe(model, s.pending) then
        s.(workers := Replied(model, s.workers, s.pending, |s.pending|), pending := [], phase := Gathering)
      else s.(phase := Failed)
  }

  //////////////////////////// The invariant ////////////////////////////

  /** The request of a worker waits in its pipe. */
  predicate InPipe(w: Worker) {
    w.sent != [] && w.sent[0].Infer?
  }

  function Count(b: bool): nat {
    if b then 1 else 0
  }

  /** How many requests of a worker are under way: in its pipe, at the broker, or answered but not received. */
  function Outstanding(w: Worker, pending: bool): nat {
    Count(InPipe(w)) + Count(pending) + |w.replies|
  }

  /** Every answer received so far is the model's answer to that very request. */
  ghost predicate GivenOk(model: Model, w: Worker) {
    && |w.given| <= |w.asked| <= |w.given| + 1
    && forall j :: 0 <= j < |w.given| ==> w.asked[j].Ok() && w.given[j] == Answer(model, w.asked[j]) && AllShaped(w.given[j])
  }

  /** What is under way is the latest request, unaltered, or its own answer. */
  ghost predicate UnderWayOk(model: Model, w: Worker) {
    && (InPipe(w) ==> w.asked != [] && w.sent[0] == Infer(|w.asked| - 1, w.asked[|w.asked| - 1]))
    && (w.replies != [] ==>
          && w.asked != [] && w.asked[|w.asked| - 1].Ok()
          && w.replies[0] == Actions(|w.asked| - 1, Answer(model, w.asked[|w.asked| - 1])) && AllShaped(w.replies[0].outputs))
    && forall i :: 1 <= i < |w.sent| ==> w.sent[i].Error?
  }

  ghost predicate WorkerOk(model: Model, w: Worker, pending: bool, active: bool) {
    && GivenOk(model, w) && UnderWayOk(model, w) && Outstanding(w, pending) <= 1
    && (w.status == Computing ==> w.sent == [] && Outstanding(w, pending) == 0 && |w.given| == |w.asked|)
    && (w.status == Waiting ==> Outstanding(w, pending) == 1 && |w.asked| == |w.given| + 1 && |w.sent| <= 1 && (w.sent != [] ==> InPipe(w)))
    && (w.status == Stopped && InPipe(w) ==> |w.sent| > 1)
    && (Outstanding(w, pending) == 1 ==> |w.asked| == |w.given| + 1)
    && (w.sent != [] && w.sent[0].Done? ==> Outstanding(w, pending) == 0 && |w.asked| == |w.given|)
    && (!active ==> w.status == Stopped && Outstanding(w, pending) == 0 && |w.asked| == |w.given|)
  }

  ghost predicate PendingOk(s: State) {
    && (forall i :: 0 <= i < |s.pending| ==>
          && s.pending[i].worker < |s.workers| && s.pending[i].worker in s.active
          && var asked := s.workers[s.pending[i].worker].asked;
             asked != [] && s.pending[i].id == |asked| - 1 && s.pending[i].obs == asked[|asked| - 1])
    && (forall i, j :: 0 <= i < j < |s.pending| ==> s.pending[i].worker != s.pending[j].worker)
  }

  ghost predicate Inv(model: Model, s: State) {
    && PendingOk(s)
    && (forall w :: w in s.active ==> w < |s.workers|)
    && (s.phase == Gathering || s.phase == Finished ==> s.pending == [])
    && (s.phase == Finished ==> s.active == {})
    && (s.phase != Failed ==> forall w :: w in s.active && w < |s.workers| && s.workers[w].status == Stopped ==> s.workers[w].sent != [])
    && forall w :: 0 <= w < |s.workers| ==> WorkerOk(model, s.workers[w], w in Requested(s.pending), w in s.active)
  }

  function Below(n: nat): (ids: set<nat>)
    ensures forall w: nat :: w in ids <==> w < n
  {
    if n == 0 then {} else Below(n - 1) + {n - 1}
  }

  function Start(n: nat): State {
    State(seq(n, _ => Worker(Computing, [], [], [], [])), Below(n), [], Gathering)
  }

  lemma StartIsOk(model: Model, n: nat)
    ensures Inv(model, Start(n))
  {
  }

  //////////////////////////// Worker steps ////////////////////////////

  /** A step that changes one worker only, and nothing at the broker. */
  lemma OneWorkerChanges(model: Model, s: State, w: nat, worker: Worker)
    requires Inv(model, s) && w < |s.workers|
    requires worker.asked == s.workers[w].asked || w !in Requested(s.pending)
    requires WorkerOk(model, worker, w in Requested(s.pending), w in s.active)
    requires worker.status == Stopped ==> worker.sent != []
    ensures Inv(model, s.(workers := s.workers[w := worker]))
  {
    hide WorkerOk;
    forall i | 0 <= i < |s.pending| ensures s.pending[i].worker == w ==> worker.asked == s.workers[w].asked {
      assert s.pending[i].worker in Requested(s.pending);
    }
  }

  lemma WorkerStepKeepsInv(model: Model, s: State, e: Event)
    requires Inv(model, s) && Enabled(s, e) && (e.Ask? || e.Receive? || e.Finish? || e.Fail?)
    ensures Inv(model, Next(model, s, e))
    ensures e.Receive? ==> s.workers[e.worker].replies[0].id == |s.workers[e.worker].asked| - 1
  {
    hide Answer, AllShaped;
    var w := e.worker;
    assert WorkerOk(model, s.workers[w], w in Requested(s.pending), w in s.active);
    OneWorkerChanges(model, s, w, Next(model, s, e).workers[w]);
  }

  //////////////////////////// Broker steps ////////////////////////////

  lemma CollectKeepsInv(model: Model, s: State, w: nat)
    requires Inv(model, s) && Readable(s, w)
    ensures Inv(model, Read(s, w))
  {
    hide Inv, Read;
    if s.workers[w].sent[0].Infer? {
      CollectRequest(model, s, w);
    } else {
      CollectTerminal(model, s, w);
    }
  }

  lemma RequestRead(model: Model, w: Worker)
    requires WorkerOk(model, w, false, true) && InPipe(w)
    ensures var rest := w.(sent := w.sent[1..]);
      WorkerOk(model, rest, true, true) && (w.status == Stopped ==> rest.sent != [])
    ensures w.asked != [] && w.sent[0] == Infer(|w.asked| - 1, w.asked[|w.asked| - 1])
  {
    RestOfPipe(w);
  }

  lemma TerminalRead(model: Model, w: Worker)
    requires WorkerOk(model, w, false, true) && w.sent != [] && !InPipe(w)
    ensures WorkerOk(model, w.(sent := w.sent[1..]), false, !w.sent[0].Done?)
  {
    RestOfPipe(w);
  }

  lemma CollectRequest(model: Model, s: State, w: nat)
    requires Inv(model, s) && Readable(s, w) && s.workers[w].sent[0].Infer?
    ensures Inv(model, Read(s, w))
  {
    hide WorkerOk, Requested;
    var worker, after := s.workers[w], Read(s, w);
    RequestRead(model, worker);
    RequestedGrows(s.pending, Request(w, worker.sent[0].id, worker.sent[0].obs));
    PendingWorkers(s.pending);
    assert Readable(s, w);
  }

  lemma CollectTerminal(model: Model, s: State, w: nat)
    requires Inv(model, s) && Readable(s, w) && !s.workers[w].sent[0].Infer?
    ensures Inv(model, Read(s, w))
  {
    hide WorkerOk, Requested;
    TerminalRead(model, s.workers[w]);
    PendingWorkers(s.pending);
  }

  lemma PendingWorkers(pending: seq<Request>)
    ensures forall i :: 0 <= i < |pending| ==> pending[i].worker in Requested(pending)
  {
  }

  lemma RestOfPipe(w: Worker)
    requires w.sent != [] && forall i :: 1 <= i < |w.sent| ==> w.sent[i].Error?
    ensures forall i :: 0 <= i < |w.sent[1..]| ==> w.sent[1..][i].Error?
  {
  }

  lemma RequestedGrows(pending: seq<Request>, r: Request)
    ensures Requested(pending + [r]) == Requested(pending) + {r.worker}
  {
    var more := pending + [r];
    assert forall i :: 0 <= i < |pending| ==> more[i] == pending[i];
    forall v | v in Requested(pending) + {r.worker} ensures v in Requested(more) {
      if v == r.worker {
        assert more[|pending|].worker == v;
      } else {
        var i :| 0 <= i < |pending| && pending[i].worker == v;
        assert more[i].worker == v;
      }
    }
  }

  /** After answering, every pending worker has its own answer in its pipe; nobody else has changed. */
  lemma {:induction false} RepliedAre(model: Model, s: State, n: nat)
    requires n <= |s.pending| && CanServe(model, s.pending) && PendingOk(s)
    ensures var after := Replied(model, s.workers, s.pending, n);
      && (forall i :: 0 <= i < n ==>
            var w := s.pending[i].worker;
            after[w] == s.workers[w].(replies := s.workers[w].replies + [ReplyTo(model, s.pending, i)]))
      && forall w :: 0 <= w < |after| && (forall i :: 0 <= i < n ==> s.pending[i].worker != w) ==> after[w] == s.workers[w]
  {
    hide ReplyTo, CanServe, Observations, Replied;
    NothingReplied(model, s);
    if n > 0 {
      RepliedAre(model, s, n - 1);
      OneMoreReply(model, s, n);
      forall i | 0 <= i < n
        ensures var w := s.pending[i].worker;
          Replied(model, s.workers, s.pending, n)[w]
          == s.workers[w].(replies := s.workers[w].replies + [ReplyTo(model, s.pending, i)])
      {
        assert i < n - 1 ==> s.pending[i].worker != s.pending[n - 1].worker;
      }
    }
  }

  lemma NothingReplied(model: Model, s: State)
    requires CanServe(model, s.pending)
    ensures Replied(model, s.workers, s.pending, 0) == s.workers
  {
  }

  lemma OneMoreReply(model: Model, s: State, n: nat)
    requires 0 < n <= |s.pending| && CanServe(model, s.pending) && s.pending[n - 1].worker < |s.workers|
    ensures var before, w := Replied(model, s.workers, s.pending, n - 1), s.pending[n - 1].worker;
      Replied(model, s.workers, s.pending, n) == before[w := before[w].(replies := before[w].replies + [ReplyTo(model, s.pending, n - 1)])]
  {
    hide ReplyTo, CanServe;
  }

  /** The reply carries the answer to the request it answers, whatever else was coalesced with it. */
  lemma ReplyIsOwnAnswer(model: Model, pending: seq<Request>, i: nat)
    requires i < |pending| && CanServe(model, pending)
    ensures pending[i].obs.Ok() && ReplyTo(model, pending, i) == Actions(pending[i].id, Answer(model, pending[i].obs))
    ensures AllShaped(Answer(model, pending[i].obs))
  {
    var requests := Observations(pending);
    assert requests[i].Ok();
    SliceIsOwnAnswer(model, requests, i);
  }

  lemma AnsweredWorker(model: Model, w: Worker, active: bool)
    requires WorkerOk(model, w, true, active) && w.asked != [] && w.asked[|w.asked| - 1].Ok()
    requires AllShaped(Answer(model, w.asked[|w.asked| - 1]))
    ensures WorkerOk(model, w.(replies := w.replies + [Actions(|w.asked| - 1, Answer(model, w.asked[|w.asked| - 1]))]), false, active)
  {
    hide Answer, AllShaped;
  }

  lemma RespondedWorker(model: Model, s: State, w: nat)
    requires Inv(model, s) && CanServe(model, s.pending) && w < |s.workers|
    ensures var before, after := s.workers[w], Replied(model, s.workers, s.pending, |s.pending|)[w];
      && WorkerOk(model, after, false, w in s.active)
      && after.sent == before.sent && after.status == before.status
  {
    hide Answer, AllShaped, CanServe, ReplyTo, Replied, WorkerOk;
    RepliedAre(model, s, |s.pending|);
    PendingWorkers(s.pending);
    if w in Requested(s.pending) {
      var i :| 0 <= i < |s.pending| && s.pending[i].worker == w;
      ReplyIsOwnAnswer(model, s.pending, i);
      AnsweredWorker(model, s.workers[w], w in s.active);
    }
  }

  lemma RespondKeepsInv(model: Model, s: State)
    requires Inv(model, s) && s.phase == Coalescing
    ensures Inv(model, Next(model, s, Respond))
  {
    hide CanServe, Replied, WorkerOk;
    if s.pending != [] && CanServe(model, s.pending) {
      forall w | 0 <= w < |s.workers|
        ensures var after := Replied(model, s.workers, s.pending, |s.pending|)[w];
          WorkerOk(model, after, false, w in s.active) && after.sent == s.workers[w].sent && after.status == s.workers[w].status
      {
        RespondedWorker(model, s, w);
      }
      assert Requested([]) == {};
    }
  }

  /** Every step of worker and broker keeps the invariant. */
  lemma StepKeepsInv(model: Model, s: State, e: Event)
    requires Inv(model, s) && Enabled(s, e)
    ensures Inv(model, Next(model, s, e))
  {
    hide WorkerOk;
    match e
    case Ask(_, _) => WorkerStepKeepsInv(model, s, e);
    case Receive(_) => WorkerStepKeepsInv(model, s, e);
    case Finish(_) => WorkerStepKeepsInv(model, s, e);
    case Fail(_) => WorkerStepKeepsInv(model, s, e);
    case Collect(w) => CollectKeepsInv(model, s, w);
    case Respond => RespondKeepsInv(model, s);
    case Close =>
    case GiveUp =>
  }

  //////////////////////////// Whole runs ////////////////////////////

  /** The state after a run of events, each enabled when it happens. */
  function Run(model: Model, n: nat, events: seq<Event>): (s: Option<State>) {
    if events == [] then Some(Start(n))
    else
      var before := Run(model, n, events[..|events| - 1]);
      if before.Some? && Enabled(before.value, events[|events| - 1]) then Some(Next(model, before.value, events[|events| - 1]))
      else None
  }

  lemma {:induction false} RunKeepsInv(model: Model, n: nat, events: seq<Event>)
    requires Run(model, n, events).Some?
    ensures Inv(model, Run(model, n, events).value)
  {
    hide Inv, Next, Enabled;
    if events == [] {
      StartIsOk(model, n);
    } else {
      RunKeepsInv(model, n, events[..|events| - 1]);
      StepKeepsInv(model, Run(model, n, events[..|events| - 1]).value, events[|events| - 1]);
    }
  }

  /**
   In every run every worker has been given, in order, exactly the model's answers to its own requests, with at
   most the latest one outstanding.
   */
  lemma EveryRequestIsAnsweredOnce(model: Model, n: nat, events: seq<Event>, w: nat)
    requires Run(model, n, events).Some? && w < |Run(model, n, events).value.workers|
    ensures var s := Run(model, n, events).value;
      var worker := s.workers[w];
      && |worker.given| <= |worker.asked| <= |worker.given| + 1
      && (forall j :: 0 <= j < |worker.given| ==>
            worker.asked[j].Ok() && worker.given[j] == Answer(model, worker.asked[j]) && AllShaped(worker.given[j]))
      && Outstanding(worker, w in Requested(s.pending)) <= 1
      && (worker.status == Waiting ==> Outstanding(worker, w in Requested(s.pending)) == 1)
      && (worker.replies != [] ==> worker.replies[0].id == |worker.asked| - 1)
      && (w !in s.active ==> |worker.given| == |worker.asked|)
  {
    RunKeepsInv(model, n, events);
    var s := Run(model, n, events).value;
    assert WorkerOk(model, s.workers[w], w in Requested(s.pending), w in s.active);
  }

  /** What is received is always accepted: it is the answer to the latest request, and the worker goes on computing. */
  lemma ReceiveAccepts(model: Model, n: nat, events: seq<Event>, w: nat)
    requires Run(model, n, events).Some? && Enabled(Run(model, n, events).value, Receive(w))
    ensures var s := Run(model, n, events).value;
      var before, after := s.workers[w], Next(model, s, Receive(w)).workers[w];
      && after.status == Computing && after.asked == before.asked && |after.given| == |after.asked| && after.sent == []
      && after.given[..|before.given|] == before.given
      && before.asked[|before.asked| - 1].Ok()
      && after.given[|before.given|] == Answer(model, before.asked[|before.asked| - 1])
  {
    RunKeepsInv(model, n, events);
    hide Answer;
    var s := Run(model, n, events).value;
    assert WorkerOk(model, s.workers[w], w in Requested(s.pending), w in s.active);
  }

  /** One collected message: a request joins the pending ones, a finished worker leaves, an error fails the broker. */
  lemma CollectTakesMessage(model: Model, n: nat, events: seq<Event>, w: nat)
    requires Run(model, n, events).Some? && Enabled(Run(model, n, events).value, Collect(w))
    ensures var s := Run(model, n, events).value;
      var message, after := s.workers[w].sent[0], Next(model, s, Collect(w));
      && after.workers == s.workers[w := s.workers[w].(sent := s.workers[w].sent[1..])]
      && match message
         case Infer(id, obs) =>
           && after.pending == s.pending + [Request(w, id, obs)] && after.active == s.active && after.phase == Coalescing
           && s.workers[w].asked != [] && obs == s.workers[w].asked[|s.workers[w].asked| - 1]
         case Done => after.pending == s.pending && after.active == s.active - {w} && after.phase == Coalescing
         case Error => after.phase == Failed
  {
    RunKeepsInv(model, n, events);
    var s := Run(model, n, events).value;
    assert WorkerOk(model, s.workers[w], w in Requested(s.pending), w in s.active);
  }

  /** The worker changed only in holding the answer to its latest observation, under that observation's number. */
  ghost predicate GotAnswer(model: Model, before: Worker, after: Worker) {
    && before.asked != [] && before.asked[|before.asked| - 1].Ok()
    && after == before.(replies := [Actions(|before.asked| - 1, Answer(model, before.asked[|before.asked| - 1]))])
  }

  /** The requester of a served request holds exactly its own answer. */
  lemma RequesterGetsAnswer(model: Model, s: State, i: nat)
    requires Inv(model, s) && s.phase == Coalescing && CanServe(model, s.pending) && i < |s.pending|
    ensures var w := s.pending[i].worker;
      w < |s.workers| && GotAnswer(model, s.workers[w], Replied(model, s.workers, s.pending, |s.pending|)[w])
  {
    hide Answer, AllShaped, CanServe, ReplyTo, Replied, GivenOk, UnderWayOk;
    RepliedAre(model, s, |s.pending|);
    PendingWorkers(s.pending);
    ReplyIsOwnAnswer(model, s.pending, i);
    var w := s.pending[i].worker;
    assert WorkerOk(model, s.workers[w], w in Requested(s.pending), w in s.active);
    assert [] + [ReplyTo(model, s.pending, i)] == [ReplyTo(model, s.pending, i)];
  }

  /**
   Answering: when the requests can be served, every requester gets exactly its own answer, nobody else anything,
   and nothing stays pending; otherwise the broker fails. Without requests it goes back to waiting.
   */
  lemma RespondAnswersAll(model: Model, n: nat, events: seq<Event>)
    requires Run(model, n, events).Some? && Enabled(Run(model, n, events).value, Respond)
    ensures var s := Run(model, n, events).value;
      var after := Next(model, s, Respond);
      if s.pending == [] || CanServe(model, s.pending) then
        && after.pending == [] && after.phase == Gathering && after.active == s.active && |after.workers| == |s.workers|
        && (forall w :: 0 <= w < |s.workers| && w !in Requested(s.pending) ==> after.workers[w] == s.workers[w])
        && forall i :: 0 <= i < |s.pending| ==>
             var w := s.pending[i].worker;
             w < |s.workers| && GotAnswer(model, s.workers[w], after.workers[w])
      else after.phase == Failed && after.workers == s.workers
  {
    hide Answer, AllShaped, CanServe, ReplyTo, Replied, Inv, Run, GotAnswer;
    RunKeepsInv(model, n, events);
    var s := Run(model, n, events).value;
    if s.pending != [] && CanServe(model, s.pending) {
      PendingInOrder(model, s);
      RepliedAre(model, s, |s.pending|);
      forall i | 0 <= i < |s.pending| {
        RequesterGetsAnswer(model, s, i);
      }
    }
  }

  lemma PendingInOrder(model: Model, s: State)
    requires Inv(model, s)
    ensures PendingOk(s) && forall i :: 0 <= i < |s.pending| ==> s.pending[i].worker in Requested(s.pending)
  {
    hide WorkerOk;
    PendingWorkers(s.pending);
  }

  /** The requesting workers are active ones, each once; while some active one has not asked, the inner wait has someone to wait for. */
  lemma InnerWaitHasSomeone(model: Model, n: nat, events: seq<Event>)
    requires Run(model, n, events).Some?
    ensures var s := Run(model, n, events).value;
      && Requested(s.pending) <= s.active
      && |Requested(s.pending)| == |s.pending|
      && (|s.pending| < |s.active| ==> s.active - Requested(s.pending) != {})
  {
    RunKeepsInv(model, n, events);
    var s := Run(model, n, events).value;
    DistinctRequests(s.pending);
    NobodyLeft(s.active, Requested(s.pending));
  }

  lemma NobodyLeft(active: set<nat>, requested: set<nat>)
    requires requested <= active
    ensures active - requested == {} ==> active == requested
  {
    assert forall w :: w in active ==> w in active - requested || w in requested;
  }

  lemma {:induction false} DistinctRequests(pending: seq<Request>)
    requires forall i, j :: 0 <= i < j < |pending| ==> pending[i].worker != pending[j].worker
    ensures |Requested(pending)| == |pending|
  {
    if pending != [] {
      var front, last := pending[..|pending| - 1], pending[|pending| - 1];
      DistinctRequests(front);
      RequestedGrows(front, last);
      assert pending == front + [last];
    }
  }

  /**
   No deadlock: while the broker runs, some worker or the broker can move, and the broker itself can move
   whenever a worker waits for it.
   */
  lemma NoDeadlock(model: Model, n: nat, events: seq<Event>, w: nat)
    requires Run(model, n, events).Some?
    requires var s := Run(model, n, events).value; (s.phase == Gathering || s.phase == Coalescing) && w in s.active && w < |s.workers|
    ensures var s := Run(model, n, events).value;
      match s.workers[w].status
      case Computing => Enabled(s, Finish(w))
      case Waiting => Enabled(s, Receive(w)) || Enabled(s, Collect(w)) || Enabled(s, Respond)
      case Stopped => Enabled(s, Collect(w)) || Enabled(s, Respond)
  {
    RunKeepsInv(model, n, events);
    var s := Run(model, n, events).value;
    assert WorkerOk(model, s.workers[w], w in Requested(s.pending), true);
  }
}
