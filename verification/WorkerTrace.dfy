/** A worker's run as append-only logs: each queue is the part of a log between two cursors. */
module WorkerTrace {
  import opened Common
  import opened WorkerQueues
  import opened WorkerProtocol

  /** The handles submitted, deferred, passed to `forward_task`, let into the ring and
      let into the cross queue; and how many of the deferred have been forwarded, of the
      crossed drained, of the crossed swapped out, and of the accepted resumed. */
  datatype Logs<T> = Logs(submitted: seq<T>, defers: seq<T>, calls: seq<T>, accepted: seq<T>, crossed: seq<T>,
                          taken: nat, drained: nat, swapped: nat, resumed: nat)

  /** `forward_task` on the logs. */
  function Offer<T>(cap: nat, l: Logs<T>, h: T): Logs<T> {
    if |l.accepted| - l.resumed < cap
    then l.(calls := l.calls + [h], accepted := l.accepted + [h])
    else l.(calls := l.calls + [h], crossed := l.crossed + [h])
  }

  function Next<T>(cap: nat, l: Logs<T>, step: Step<T>): Logs<T> {
    match step
    case SpawnHere(h) => Offer(cap, l.(submitted := l.submitted + [h]), h)
    case SpawnCross(h) => l.(submitted := l.submitted + [h], crossed := l.crossed + [h])
    case Defer(h) => l.(submitted := l.submitted + [h], defers := l.defers + [h])
    case TakeBatch => l.(swapped := |l.crossed|)
    case ForwardBatch =>
      if l.drained < |l.crossed| then Offer(cap, l.(drained := l.drained + 1), l.crossed[l.drained]) else l
    case ForwardDeferred =>
      if l.taken < |l.defers| then Offer(cap, l.(taken := l.taken + 1), l.defers[l.taken]) else l
    case Resume => l.(resumed := l.resumed + 1)
  }

  function Replay<T>(cap: nat, l: Logs<T>, steps: seq<Step<T>>): Logs<T>
    decreases |steps|
  {
    if steps == [] then l else Replay(cap, Next(cap, l, steps[0]), steps[1..])
  }

  function NoLogs<T>(): Logs<T> { Logs([], [], [], [], [], 0, 0, 0, 0) }

  predicate InOrder<T>(l: Logs<T>) {
    l.taken <= |l.defers| && l.drained <= l.swapped <= |l.crossed| && l.resumed <= |l.accepted|
  }

  /** The queues are what the cursors leave of the logs. */
  ghost predicate Windows<T>(q: Queues<T>, l: Logs<T>)
    requires InOrder(l)
  {
    && q.ring == l.accepted[l.resumed..]
    && q.cross == l.crossed[l.swapped..]
    && q.batch == l.crossed[l.drained..l.swapped]
    && q.deferred == l.defers[l.taken..]
  }

  ghost predicate Histories<T>(s: State<T>, l: Logs<T>)
    requires InOrder(l)
  {
    && s.submitted == l.submitted && s.calls == l.calls && s.accepted == l.accepted && s.crossed == l.crossed
    && s.resumed == l.accepted[..l.resumed] && s.drained == l.crossed[..l.drained]
  }

  ghost predicate Agrees<T>(s: State<T>, l: Logs<T>) {
    InOrder(l) && Windows(s.q, l) && Histories(s, l)
  }

  lemma OfferAgrees<T>(cap: nat, s: State<T>, l: Logs<T>, h: T)
    requires Agrees(s, l)
    ensures Agrees(Call(cap, s, h), Offer(cap, l, h))
  {
  }

  lemma DeferredAgrees<T>(s: State<T>, l: Logs<T>)
    requires Agrees(s, l) && s.q.deferred != []
    ensures l.taken < |l.defers| && s.q.deferred[0] == l.defers[l.taken]
    ensures Agrees(s.(q := s.q.(deferred := s.q.deferred[1..])), l.(taken := l.taken + 1))
  {
  }

  lemma BatchAgrees<T>(s: State<T>, l: Logs<T>)
    requires Agrees(s, l) && s.q.batch != []
    ensures l.drained < |l.crossed| && s.q.batch[0] == l.crossed[l.drained]
    ensures Agrees(s.(q := s.q.(batch := s.q.batch[1..]), drained := s.drained + [s.q.batch[0]]),
                   l.(drained := l.drained + 1))
  {
  }

  lemma RingAgrees<T>(s: State<T>, l: Logs<T>)
    requires Agrees(s, l) && s.q.ring != []
    ensures Agrees(s.(q := s.q.(ring := s.q.ring[1..]), resumed := s.resumed + [s.q.ring[0]]), l.(resumed := l.resumed + 1))
  {
  }

  lemma SpawnAgrees<T>(s: State<T>, l: Logs<T>, h: T)
    requires Agrees(s, l)
    ensures Agrees(s.(submitted := s.submitted + [h]), l.(submitted := l.submitted + [h]))
    ensures Agrees(s.(q := s.q.(cross := s.q.cross + [h]), submitted := s.submitted + [h], crossed := s.crossed + [h]),
                   l.(submitted := l.submitted + [h], crossed := l.crossed + [h]))
    ensures Agrees(s.(q := s.q.(deferred := s.q.deferred + [h]), submitted := s.submitted + [h]),
                   l.(submitted := l.submitted + [h], defers := l.defers + [h]))
  {
  }

  lemma SwapAgrees<T>(s: State<T>, l: Logs<T>)
    requires Agrees(s, l) && s.q.batch == []
    ensures Agrees(s.(q := s.q.(batch := s.q.cross, cross := [])), l.(swapped := |l.crossed|))
  {
  }

  lemma StepAgrees<T>(cap: nat, s: State<T>, step: Step<T>, l: Logs<T>)
    requires Enabled(s, step) && Agrees(s, l)
    ensures Agrees(Apply(cap, s, step), Next(cap, l, step))
  {
    match step
    case SpawnHere(h) =>
      SpawnAgrees(s, l, h);
      OfferAgrees(cap, s.(submitted := s.submitted + [h]), l.(submitted := l.submitted + [h]), h);
    case SpawnCross(h) => SpawnAgrees(s, l, h);
    case Defer(h) => SpawnAgrees(s, l, h);
    case TakeBatch => SwapAgrees(s, l);
    case ForwardBatch =>
      var b := s.q.batch;
      BatchAgrees(s, l);
      OfferAgrees(cap, s.(q := s.q.(batch := b[1..]), drained := s.drained + [b[0]]), l.(drained := l.drained + 1), b[0]);
    case ForwardDeferred =>
      var d := s.q.deferred;
      DeferredAgrees(s, l);
      OfferAgrees(cap, s.(q := s.q.(deferred := d[1..])), l.(taken := l.taken + 1), d[0]);
    case Resume => RingAgrees(s, l);
  }

  lemma {:induction false} RunAgrees<T>(cap: nat, s: State<T>, steps: seq<Step<T>>, l: Logs<T>)
    requires Runs(cap, s, steps) && Agrees(s, l)
    decreases |steps|
    ensures Agrees(Exec(cap, s, steps), Replay(cap, l, steps))
  {
    if steps != [] {
      StepAgrees(cap, s, steps[0], l);
      RunAgrees(cap, Apply(cap, s, steps[0]), steps[1..], Next(cap, l, steps[0]));
    }
  }

  /** In every run the queues and histories are those the steps alone tell: everything
      enters its log last and leaves in the order of the log, and a swap takes all of
      the cross queue. */
  lemma QueuesFromSteps<T>(cap: nat, steps: seq<Step<T>>)
    requires Runs(cap, Init(), steps)
    ensures var s, l := Exec(cap, Init(), steps), Replay(cap, NoLogs<T>(), steps);
            InOrder(l) && Windows(s.q, l) && Histories(s, l)
  {
    RunAgrees(cap, Init(), steps, NoLogs<T>());
  }
}
