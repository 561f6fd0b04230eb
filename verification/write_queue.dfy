/** The write queue with its dead-letter queue as interleaved steps (src/queue.rs, src/workers/db_writer.rs).
    Any number of writers and replays may be under way; decoding, storing and publishing may fail. */
module WriteQueue {
  import opened Models

  datatype Message =
    | PoolStateUpdate(pool: PoolState)
    | PoolTickDataUpdate(ticks: PoolTickData)
    | SwapEventLog(eventId: string)

  datatype DlqEntry = DlqEntry(message: Message, failureReason: string, attempts: nat)

  /** A consumed message with the number of failed attempts to store it. */
  datatype Job = Job(message: Message, attempts: nat)

  datatype Cause = UndecodedMessage | DlqPushFailed | UndecodedEntry | RepublishFailed | Crashed

  datatype Loss = Loss(message: Message, cause: Cause)

  const MAX_ATTEMPTS: nat := 3

  /** Where every published message is. */
  datatype System = System(
    published: seq<Message>,
    queue: seq<Message>,
    writing: seq<Job>,
    persisted: seq<Message>,
    dead: seq<DlqEntry>,
    replaying: seq<Message>,
    lost: seq<Loss>)

  const EMPTY: System := System([], [], [], [], [], [], [])

  datatype Label =
    | Publish(message: Message)
    | Consume(decodes: bool)
    | PersistOk(job: nat)
    | PersistFail(job: nat, reason: string, dlqAccepts: bool)
    | PopDead(decodes: bool)
    | Republish(entry: nat, accepted: bool)
    | Crash

  function Remove<T>(s: seq<T>, k: nat): seq<T>
    requires k < |s|
  {
    s[..k] + s[k + 1..]
  }

  predicate Enabled(s: System, l: Label) {
    match l
    case Publish(_) => true
    case Consume(_) => s.queue != []
    case PersistOk(k) => k < |s.writing|
    case PersistFail(k, _, _) => k < |s.writing|
    case PopDead(_) => s.dead != []
    case Republish(k, _) => k < |s.replaying|
    case Crash => true
  }

  function Step(s: System, l: Label): System
    requires Enabled(s, l)
  {
    match l
    case Publish(m) => s.(published := s.published + [m], queue := s.queue + [m])
    case Consume(decodes) =>
      var m, rest := s.queue[0], s.(queue := s.queue[1..]);
      if decodes then rest.(writing := s.writing + [Job(m, 0)])
      else rest.(lost := s.lost + [Loss(m, UndecodedMessage)])
    case PersistOk(k) =>
      s.(writing := Remove(s.writing, k), persisted := s.persisted + [s.writing[k].message])
    case PersistFail(k, reason, dlqAccepts) =>
      var job := s.writing[k].(attempts := s.writing[k].attempts + 1);
      if job.attempts < MAX_ATTEMPTS then s.(writing := s.writing[k := job])
      else if dlqAccepts then
        s.(writing := Remove(s.writing, k), dead := s.dead + [DlqEntry(job.message, reason, job.attempts)])
      else s.(writing := Remove(s.writing, k), lost := s.lost + [Loss(job.message, DlqPushFailed)])
    case PopDead(decodes) =>
      var m, rest := s.dead[0].message, s.(dead := s.dead[1..]);
      if decodes then rest.(replaying := s.replaying + [m])
      else rest.(lost := s.lost + [Loss(m, UndecodedEntry)])
    case Republish(k, accepted) =>
      var m, rest := s.replaying[k], s.(replaying := Remove(s.replaying, k));
      if accepted then rest.(queue := s.queue + [m])
      else rest.(lost := s.lost + [Loss(m, RepublishFailed)])
    case Crash =>
      s.(writing := [], replaying := [],
         lost := s.lost + Losses(JobMessages(s.writing) + s.replaying, Crashed))
  }

  /** The state after a sequence of steps, if each is enabled in its turn. */
  function Run(s: System, labels: seq<Label>): Option<System>
    decreases |labels|
  {
    if labels == [] then Some(s)
    else if Enabled(s, labels[0]) then Run(Step(s, labels[0]), labels[1..])
    else None
  }

  function JobMessages(jobs: seq<Job>): (r: seq<Message>)
    ensures |r| == |jobs|
  {
    seq(|jobs|, i requires 0 <= i < |jobs| => jobs[i].message)
  }

  function DeadMessages(dead: seq<DlqEntry>): (r: seq<Message>)
    ensures |r| == |dead|
  {
    seq(|dead|, i requires 0 <= i < |dead| => dead[i].message)
  }

  function LostMessages(lost: seq<Loss>): (r: seq<Message>)
    ensures |r| == |lost|
  {
    seq(|lost|, i requires 0 <= i < |lost| => lost[i].message)
  }

  function Losses(messages: seq<Message>, cause: Cause): (r: seq<Loss>)
    ensures |r| == |messages|
  {
    seq(|messages|, i requires 0 <= i < |messages| => Loss(messages[i], cause))
  }

  // ----- conservation

  /** How often `m` occurs. */
  function Count(s: seq<Message>, m: Message): nat {
    if s == [] then 0 else Count(s[..|s| - 1], m) + if s[|s| - 1] == m then 1 else 0
  }

  lemma {:induction false} CountConcat(a: seq<Message>, b: seq<Message>, m: Message)
    ensures Count(a + b, m) == Count(a, m) + Count(b, m)
  {
    if b == [] {
      assert a + b == a;
    } else {
      CountConcat(a, b[..|b| - 1], m);
      assert (a + b)[..|a + b| - 1] == a + b[..|b| - 1];
    }
  }

  lemma CountAdded(s: seq<Message>, x: Message, m: Message)
    ensures Count(s + [x], m) == Count(s, m) + Count([x], m)
  {
    CountConcat(s, [x], m);
  }

  lemma CountRemoved(s: seq<Message>, k: nat, m: Message)
    requires k < |s|
    ensures Count(s, m) == Count(Remove(s, k), m) + Count([s[k]], m)
  {
    assert s == s[..k] + ([s[k]] + s[k + 1..]);
    CountConcat(s[..k], [s[k]] + s[k + 1..], m);
    CountConcat([s[k]], s[k + 1..], m);
    CountConcat(s[..k], s[k + 1..], m);
  }

  /** Copies of `m` anywhere in the system. */
  function Copies(s: System, m: Message): nat {
    Count(s.queue, m) + Count(JobMessages(s.writing), m) + Count(s.persisted, m)
    + Count(DeadMessages(s.dead), m) + Count(s.replaying, m) + Count(LostMessages(s.lost), m)
  }

  /** Every copy of every published message is in exactly one place. */
  ghost predicate Conserved(s: System) {
    forall m :: Copies(s, m) == Count(s.published, m)
  }

  lemma JobAdded(jobs: seq<Job>, job: Job, m: Message)
    ensures Count(JobMessages(jobs + [job]), m) == Count(JobMessages(jobs), m) + Count([job.message], m)
  {
    assert JobMessages(jobs + [job]) == JobMessages(jobs) + [job.message];
    CountAdded(JobMessages(jobs), job.message, m);
  }

  lemma JobRemoved(jobs: seq<Job>, k: nat, m: Message)
    requires k < |jobs|
    ensures Count(JobMessages(jobs), m) == Count(JobMessages(Remove(jobs, k)), m) + Count([jobs[k].message], m)
  {
    CountRemoved(JobMessages(jobs), k, m);
    assert Remove(JobMessages(jobs), k) == JobMessages(Remove(jobs, k));
  }

  lemma DeadAdded(dead: seq<DlqEntry>, entry: DlqEntry, m: Message)
    ensures Count(DeadMessages(dead + [entry]), m) == Count(DeadMessages(dead), m) + Count([entry.message], m)
  {
    assert DeadMessages(dead + [entry]) == DeadMessages(dead) + [entry.message];
    CountAdded(DeadMessages(dead), entry.message, m);
  }

  lemma DeadPopped(dead: seq<DlqEntry>, m: Message)
    requires dead != []
    ensures Count(DeadMessages(dead), m) == Count(DeadMessages(dead[1..]), m) + Count([dead[0].message], m)
  {
    CountRemoved(DeadMessages(dead), 0, m);
    assert Remove(DeadMessages(dead), 0) == DeadMessages(dead[1..]);
  }

  lemma LossAdded(lost: seq<Loss>, loss: Loss, m: Message)
    ensures Count(LostMessages(lost + [loss]), m) == Count(LostMessages(lost), m) + Count([loss.message], m)
  {
    assert LostMessages(lost + [loss]) == LostMessages(lost) + [loss.message];
    CountAdded(LostMessages(lost), loss.message, m);
  }

  lemma QueuePopped(queue: seq<Message>, m: Message)
    requires queue != []
    ensures Count(queue, m) == Count(queue[1..], m) + Count([queue[0]], m)
  {
    CountRemoved(queue, 0, m);
    assert Remove(queue, 0) == queue[1..];
  }

  /** A step moves a message from one place to another, or adds it to both sides. */
  lemma StepMoves(s: System, l: Label, m: Message)
    requires Enabled(s, l)
    ensures Copies(Step(s, l), m) - Copies(s, m) == Count(Step(s, l).published, m) - Count(s.published, m)
  {
    match l
    case Publish(x) =>
      CountAdded(s.published, x, m);
      CountAdded(s.queue, x, m);
    case Consume(_) =>
      QueuePopped(s.queue, m);
      JobAdded(s.writing, Job(s.queue[0], 0), m);
      LossAdded(s.lost, Loss(s.queue[0], UndecodedMessage), m);
    case PersistOk(k) =>
      JobRemoved(s.writing, k, m);
      CountAdded(s.persisted, s.writing[k].message, m);
    case PersistFail(_, _, _) =>
      FailureMoves(s, l, m);
    case PopDead(_) =>
      DeadPopped(s.dead, m);
      CountAdded(s.replaying, s.dead[0].message, m);
      LossAdded(s.lost, Loss(s.dead[0].message, UndecodedEntry), m);
    case Republish(k, _) =>
      CountRemoved(s.replaying, k, m);
      CountAdded(s.queue, s.replaying[k], m);
      LossAdded(s.lost, Loss(s.replaying[k], RepublishFailed), m);
    case Crash =>
      CrashMoves(s, m);
  }

  lemma FailureMoves(s: System, l: Label, m: Message)
    requires l.PersistFail? && Enabled(s, l)
    ensures Copies(Step(s, l), m) == Copies(s, m)
  {
    var job := s.writing[l.job].(attempts := s.writing[l.job].attempts + 1);
    if job.attempts < MAX_ATTEMPTS {
      assert JobMessages(s.writing[l.job := job]) == JobMessages(s.writing);
    } else {
      JobRemoved(s.writing, l.job, m);
      if l.dlqAccepts {
        DeadAdded(s.dead, DlqEntry(job.message, l.reason, job.attempts), m);
      } else {
        LossAdded(s.lost, Loss(job.message, DlqPushFailed), m);
      }
    }
  }

  lemma CrashMoves(s: System, m: Message)
    ensures Copies(Step(s, Crash), m) == Copies(s, m)
  {
    var gone := JobMessages(s.writing) + s.replaying;
    assert LostMessages(s.lost + Losses(gone, Crashed)) == LostMessages(s.lost) + gone;
    CountConcat(LostMessages(s.lost), gone, m);
    CountConcat(JobMessages(s.writing), s.replaying, m);
    assert JobMessages([]) == [];
  }

  lemma StepConserves(s: System, l: Label)
    requires Enabled(s, l) && Conserved(s)
    ensures Conserved(Step(s, l))
  {
    forall m
      ensures Copies(Step(s, l), m) == Count(Step(s, l).published, m)
    {
      StepMoves(s, l, m);
    }
  }

  /** Over every interleaving: published = queued + being written + persisted + dead-lettered + being
      replayed + lost, message by message. */
  lemma {:induction false} RunConserves(s: System, labels: seq<Label>)
    requires Conserved(s) && Run(s, labels).Some?
    ensures Conserved(Run(s, labels).value)
    decreases |labels|
  {
    if labels != [] {
      StepConserves(s, labels[0]);
      RunConserves(Step(s, labels[0]), labels[1..]);
    }
  }

  /** The steps that lose a message, with the cause they record. */
  function LossOf(s: System, l: Label): seq<Loss>
    requires Enabled(s, l)
  {
    match l
    case Consume(false) => [Loss(s.queue[0], UndecodedMessage)]
    case PersistFail(k, _, false) =>
      if s.writing[k].attempts + 1 >= MAX_ATTEMPTS then [Loss(s.writing[k].message, DlqPushFailed)] else []
    case PopDead(false) => [Loss(s.dead[0].message, UndecodedEntry)]
    case Republish(k, false) => [Loss(s.replaying[k], RepublishFailed)]
    case Crash => Losses(JobMessages(s.writing) + s.replaying, Crashed)
    case _ => []
  }

  /** Nothing decodes badly, is refused by a queue, or is interrupted. */
  predicate Harmless(l: Label) {
    match l
    case Consume(decodes) => decodes
    case PersistFail(_, _, dlqAccepts) => dlqAccepts
    case PopDead(decodes) => decodes
    case Republish(_, accepted) => accepted
    case Crash => false
    case _ => true
  }

  lemma StepLoses(s: System, l: Label)
    requires Enabled(s, l)
    ensures Step(s, l).lost == s.lost + LossOf(s, l)
    ensures Harmless(l) ==> LossOf(s, l) == []
    ensures LossOf(s, l) == [] <==> !Loses(s, l)
  {
  }

  /** A bad decode, a third failure the dead-letter queue refuses, a refused republish, or a crash with work
      under way. */
  predicate Loses(s: System, l: Label) {
    match l
    case Consume(decodes) => !decodes
    case PersistFail(k, _, dlqAccepts) => !dlqAccepts && k < |s.writing| && s.writing[k].attempts + 1 >= MAX_ATTEMPTS
    case PopDead(decodes) => !decodes
    case Republish(_, accepted) => !accepted
    case Crash => s.writing != [] || s.replaying != []
    case _ => false
  }

  /** Step `i` of the run loses something. */
  ghost predicate LosesAt(s: System, labels: seq<Label>, i: nat)
    requires i < |labels|
  {
    Run(s, labels[..i]).Some? && Loses(Run(s, labels[..i]).value, labels[i])
  }

  /** Losses are only ever added, and a run leaves them as they were if and only if none of its steps loses
      something. */
  lemma {:induction false} RunLosesIff(s: System, labels: seq<Label>)
    requires Run(s, labels).Some?
    ensures s.lost <= Run(s, labels).value.lost
    ensures Run(s, labels).value.lost == s.lost <==> forall i :: 0 <= i < |labels| ==> !LosesAt(s, labels, i)
    decreases |labels|
  {
    if labels != [] {
      var n := |labels| - 1;
      var front, last := labels[..n], labels[n];
      assert labels == front + [last];
      RunAppend(s, front, [last]);
      var m := Run(s, front).value;
      assert [last][1..] == [];
      StepLoses(m, last);
      RunLosesIff(s, front);
      forall i | 0 <= i < n
        ensures LosesAt(s, labels, i) <==> LosesAt(s, front, i)
      {
        assert labels[..i] == front[..i];
      }
      assert LosesAt(s, labels, n) <==> Loses(m, last);
    }
  }

  /** Storing may fail as often as it likes: without a bad decode, a refused push or a crash nothing is lost. */
  lemma {:induction false} HarmlessRunsLoseNothing(s: System, labels: seq<Label>)
    requires Run(s, labels).Some? && forall i :: 0 <= i < |labels| ==> Harmless(labels[i])
    ensures Run(s, labels).value.lost == s.lost
    decreases |labels|
  {
    if labels != [] {
      StepLoses(s, labels[0]);
      HarmlessRunsLoseNothing(Step(s, labels[0]), labels[1..]);
    }
  }

  // ----- attempts

  /** A message being written has failed at most twice; a dead-lettered one exactly three times. */
  ghost predicate AttemptsBounded(s: System) {
    && (forall i :: 0 <= i < |s.writing| ==> s.writing[i].attempts < MAX_ATTEMPTS)
    && (forall i :: 0 <= i < |s.dead| ==> s.dead[i].attempts == MAX_ATTEMPTS)
  }

  lemma {:induction false} RunBoundsAttempts(s: System, labels: seq<Label>)
    requires AttemptsBounded(s) && Run(s, labels).Some?
    ensures AttemptsBounded(Run(s, labels).value)
    decreases |labels|
  {
    if labels != [] {
      RunBoundsAttempts(Step(s, labels[0]), labels[1..]);
    }
  }

  // ----- order

  /** One writer, and no message gives up its turn: it is decoded and stored within three attempts. */
  predicate InOrder(s: System, l: Label) {
    match l
    case Publish(_) => true
    case Consume(decodes) => decodes && s.writing == []
    case PersistOk(_) => true
    case PersistFail(k, _, _) => k < |s.writing| && s.writing[k].attempts + 1 < MAX_ATTEMPTS
    case _ => false
  }

  ghost predicate RunsInOrder(s: System, labels: seq<Label>)
    decreases |labels|
  {
    labels == []
    || (Enabled(s, labels[0]) && InOrder(s, labels[0]) && RunsInOrder(Step(s, labels[0]), labels[1..]))
  }

  ghost predicate Ordered(s: System) {
    |s.writing| <= 1 && s.published == s.persisted + JobMessages(s.writing) + s.queue
  }

  lemma ConsumeKeepsOrder(s: System)
    requires Ordered(s) && s.writing == [] && s.queue != []
    ensures Ordered(Step(s, Consume(true)))
  {
    assert s.queue == [s.queue[0]] + s.queue[1..];
    assert JobMessages([Job(s.queue[0], 0)]) == [s.queue[0]] && JobMessages([]) == [];
    assert Step(s, Consume(true)).writing == [Job(s.queue[0], 0)];
  }

  lemma StoreKeepsOrder(s: System)
    requires Ordered(s) && s.writing != []
    ensures Ordered(Step(s, PersistOk(0)))
  {
    assert Step(s, PersistOk(0)).writing == [];
    assert JobMessages(s.writing) == [s.writing[0].message] && JobMessages([]) == [];
  }

  lemma StepKeepsOrder(s: System, l: Label)
    requires Ordered(s) && Enabled(s, l) && InOrder(s, l)
    ensures Ordered(Step(s, l))
  {
    match l
    case Publish(m) =>
    case Consume(_) =>
      ConsumeKeepsOrder(s);
    case PersistOk(_) =>
      StoreKeepsOrder(s);
    case PersistFail(_, _, _) =>
      assert JobMessages(Step(s, l).writing) == JobMessages(s.writing);
  }

  /** Then the stored messages are a prefix of the published ones. */
  lemma {:induction false} PersistedIsPrefix(s: System, labels: seq<Label>)
    requires Ordered(s) && RunsInOrder(s, labels)
    ensures Run(s, labels).Some? && Ordered(Run(s, labels).value)
    ensures Run(s, labels).value.persisted <= Run(s, labels).value.published
    decreases |labels|
  {
    if labels != [] {
      StepKeepsOrder(s, labels[0]);
      PersistedIsPrefix(Step(s, labels[0]), labels[1..]);
    }
  }

  lemma {:induction false} RunAppend(s: System, a: seq<Label>, b: seq<Label>)
    ensures Run(s, a + b) == if Run(s, a).Some? then Run(Run(s, a).value, b) else None
    decreases |a|
  {
    if a == [] {
      assert a + b == b;
    } else {
      assert (a + b)[0] == a[0] && (a + b)[1..] == a[1..] + b;
      if Enabled(s, a[0]) {
        RunAppend(Step(s, a[0]), a[1..], b);
      }
    }
  }
}
