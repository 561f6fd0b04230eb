/** The writer and the replay as code, each shown to be a run of the queue's steps
    (src/workers/db_writer.rs, `replay_dlq` in src/queue.rs). */
module DbWriter {
  import opened Models
  import opened WriteQueue

  /** What happens to one consumed message: how each attempt to store it ends, and whether the
      dead-letter queue would take it. */
  datatype Fate = Fate(stored: nat -> bool, reason: string, dlqAccepts: bool)

  /** One round of the consumer loop: a Redis error, or a pop whose value may not decode. */
  datatype Round = QueueError | Pop(decodes: bool, fate: Fate)

  /** One round of the replay: Redis may fail to pop, the entry may not decode, the publish may fail. */
  datatype ReplayRound = PopError | Popped(decodes: bool, accepted: bool)

  /** The Redis lists and the tables behind the writer. */
  class Pipeline {
    var system: System

    constructor ()
      ensures system == EMPTY
    {
      system := EMPTY;
    }

    /** Pop the oldest message: nothing, a message now being written, or an undecodable value. */
    method ConsumeMessage(decodes: bool) returns (r: Models.Result<Option<Message>, ()>)
      modifies this
      ensures old(system).queue == [] ==> r == Ok(None) && system == old(system)
      ensures old(system).queue != [] ==>
        && system == Step(old(system), Consume(decodes))
        && r == if decodes then Ok(Some(old(system).queue[0])) else Err(())
    {
      if system.queue == [] {
        return Ok(None);
      }
      var head := system.queue[0];
      system := Step(system, Consume(decodes));
      return if decodes then Ok(Some(head)) else Err(());
    }

    /** Store the message being written as job `k`: at most three attempts, the message is stored exactly
        when one of them succeeds, and otherwise dead-lettered or, if that fails too, lost. */
    method PersistWithRetry(k: nat, fate: Fate) returns (ghost trace: seq<Label>)
      requires k < |system.writing| && system.writing[k].attempts == 0
      modifies this
      ensures |trace| <= 3 && Run(old(system), trace) == Some(system)
      ensures system.writing == Remove(old(system).writing, k)
      ensures system.queue == old(system).queue && system.published == old(system).published
      ensures var m := old(system).writing[k].message;
        if fate.stored(0) || fate.stored(1) || fate.stored(2) then
          && system.persisted == old(system).persisted + [m]
          && system.dead == old(system).dead && system.lost == old(system).lost
        else
          && system.persisted == old(system).persisted
          && system.dead == old(system).dead + (if fate.dlqAccepts then [DlqEntry(m, fate.reason, 3)] else [])
          && system.lost == old(system).lost + (if fate.dlqAccepts then [] else [Loss(m, DlqPushFailed)])
    {
      trace := [];
      var attempts := 0;
      while true
        invariant attempts < MAX_ATTEMPTS && |trace| == attempts
        invariant system == Waiting(old(system), k, attempts)
        invariant Run(old(system), trace) == Some(system)
        invariant forall i :: 0 <= i < attempts ==> !fate.stored(i)
        decreases MAX_ATTEMPTS - attempts
      {
        ghost var l := if fate.stored(attempts) then PersistOk(k) else PersistFail(k, fate.reason, fate.dlqAccepts);
        RunOne(old(system), trace, system, l);
        trace := trace + [l];
        if fate.stored(attempts) {
          system := Step(system, PersistOk(k));
          return;
        }
        system := Step(system, PersistFail(k, fate.reason, fate.dlqAccepts));
        attempts := attempts + 1;
        if attempts >= MAX_ATTEMPTS {
          return;
        }
      }
    }

    /** The consumer loop until it is told to stop: it stops between messages, so none is left half-written. */
    method RunWriter(rounds: seq<Round>) returns (ghost trace: seq<Label>)
      modifies this
      ensures Run(old(system), trace) == Some(system)
      ensures system.writing == old(system).writing && system.published == old(system).published
    {
      trace := [];
      for n := 0 to |rounds|
        invariant Run(old(system), trace) == Some(system)
        invariant system.writing == old(system).writing && system.published == old(system).published
      {
        if rounds[n].Pop? {
          ghost var before := system;
          var popped := ConsumeMessage(rounds[n].decodes);
          if before.queue != [] {
            RunOne(old(system), trace, before, Consume(rounds[n].decodes));
            trace := trace + [Consume(rounds[n].decodes)];
          }
          match popped
          case Ok(Some(message)) =>
            var k := |system.writing| - 1;
            ghost var stored := PersistWithRetry(k, rounds[n].fate);
            RunAppend(old(system), trace, stored);
            trace := trace + stored;
            assert Remove(before.writing + [Job(message, 0)], k) == before.writing;
          case _ =>
        }
      }
    }

    /** Move up to `limit` dead-lettered messages back to the queue, oldest first; the first error ends the
        replay, and takes along the entry that was popped. */
    method ReplayDlq(limit: nat, rounds: seq<ReplayRound>)
      returns (r: Models.Result<nat, ()>, ghost trace: seq<Label>)
      requires limit <= |rounds| && system.replaying == []
      modifies this
      ensures Run(old(system), trace) == Some(system) && system.replaying == []
      ensures r.Ok? ==>
        && r.value == (if limit < |old(system).dead| then limit else |old(system).dead|)
        && system.queue == old(system).queue + DeadMessages(old(system).dead[..r.value])
        && system.dead == old(system).dead[r.value..] && system.lost == old(system).lost
      ensures r.Err? ==> exists n :: 0 <= n < limit && ReplayStopped(old(system), system, rounds[n], n)
      ensures (forall i :: 0 <= i < limit ==> rounds[i] == Popped(true, true)) ==> r.Ok?
    {
      trace := [];
      var replayed := 0;
      for i := 0 to limit
        invariant replayed == i <= |old(system).dead| && system.replaying == []
        invariant Run(old(system), trace) == Some(system)
        invariant system.queue == old(system).queue + DeadMessages(old(system).dead[..i])
        invariant system.dead == old(system).dead[i..] && system.lost == old(system).lost
      {
        if rounds[i] == PopError {
          assert ReplayStopped(old(system), system, rounds[i], i);
          return Err(()), trace;
        }
        if system.dead == [] {
          return Ok(replayed), trace;
        }
        ghost var before := system;
        system := Step(system, PopDead(rounds[i].decodes));
        RunOne(old(system), trace, before, PopDead(rounds[i].decodes));
        trace := trace + [PopDead(rounds[i].decodes)];
        if !rounds[i].decodes {
          assert ReplayStopped(old(system), system, rounds[i], i);
          return Err(()), trace;
        }
        ghost var popped := system;
        system := Step(system, Republish(0, rounds[i].accepted));
        RunOne(old(system), trace, popped, Republish(0, rounds[i].accepted));
        trace := trace + [Republish(0, rounds[i].accepted)];
        if !rounds[i].accepted {
          assert ReplayStopped(old(system), system, rounds[i], i);
          return Err(()), trace;
        }
        NextReplayed(old(system), i);
        replayed := replayed + 1;
      }
      r := Ok(replayed);
    }
  }

  /** The replay moved `n` messages and stopped at the next entry, which is lost unless it was never popped. */
  ghost predicate ReplayStopped(start: System, end: System, round: ReplayRound, n: nat) {
    && n <= |start.dead| && end.queue == start.queue + DeadMessages(start.dead[..n])
    && match round
       case PopError => end.dead == start.dead[n..] && end.lost == start.lost
       case Popped(decodes, accepted) =>
         && n < |start.dead| && end.dead == start.dead[n + 1..] && !(decodes && accepted)
         && end.lost == start.lost
            + [Loss(start.dead[n].message, if decodes then RepublishFailed else UndecodedEntry)]
  }

  /** The system with job `k` after some failed attempts. */
  function Waiting(s: System, k: nat, attempts: nat): System
    requires k < |s.writing|
  {
    s.(writing := s.writing[k := s.writing[k].(attempts := attempts)])
  }

  lemma RunOne(start: System, trace: seq<Label>, s: System, l: Label)
    requires Run(start, trace) == Some(s) && Enabled(s, l)
    ensures Run(start, trace + [l]) == Some(Step(s, l))
  {
    RunAppend(start, trace, [l]);
    assert [l][1..] == [];
  }

  lemma NextReplayed(start: System, i: nat)
    requires i < |start.dead|
    ensures DeadMessages(start.dead[..i + 1]) == DeadMessages(start.dead[..i]) + [start.dead[i].message]
  {
  }
}
