/** Idempotency over whole runs: the bounded store against an unbounded history. */
module KernelDedup {
  import opened Wrappers
  import opened Contract
  import opened VehicleLog
  import opened KernelSpec
  import opened Dedup

  /** The step carries a signed envelope whose id is not in the store. */
  predicate IsFresh(k: Kernel, s: Step) {
    s.OnCommand? && s.command.Signed? && s.command.envelope.commandId !in k.dedup.acks
  }

  /** Every command answered for the first time during a run, with its answer. */
  function Answers(c: Config, k: Kernel, steps: seq<Step>): seq<Dedup.Answer> {
    if steps == [] then []
    else
      var n := |steps| - 1;
      var before := Run(c, k, steps[..n]);
      var earlier := Answers(c, k, steps[..n]);
      var acks := Next(c, before, steps[n]).1.acks;
      if IsFresh(before, steps[n]) && acks != []
      then earlier + [Dedup.Answer(steps[n].command.envelope.commandId, acks[0])]
      else earlier
  }

  /** A fresh envelope is answered once and the answer stored; nothing else touches
      the store. */
  lemma StepAnswers(c: Config, k: Kernel, s: Step)
    ensures var (k', e) := Next(c, k, s);
            if IsFresh(k, s)
            then |e.acks| == 1 && k'.dedup == Remember(k.dedup, s.command.envelope.commandId, e.acks[0])
            else k'.dedup == k.dedup
  {
  }

  lemma {:induction false} StoreRefinesHistory(c: Config, k: Kernel, steps: seq<Step>)
    requires k.dedup == EMPTY
    ensures Refines(Run(c, k, steps).dedup, Answers(c, k, steps))
  {
    if steps == [] {
      EmptyRefines();
    } else {
      var n := |steps| - 1;
      var before := Run(c, k, steps[..n]);
      StoreRefinesHistory(c, k, steps[..n]);
      StepAnswers(c, before, steps[n]);
      if IsFresh(before, steps[n]) {
        var acks := Next(c, before, steps[n]).1.acks;
        RememberRefines(before.dedup, Answers(c, k, steps[..n]), steps[n].command.envelope.commandId, acks[0]);
      }
    }
  }

  /** Memory stays bounded however long the kernel runs. */
  lemma {:induction false} StoreStaysBounded(c: Config, k: Kernel, steps: seq<Step>)
    requires k.dedup == EMPTY
    ensures |Run(c, k, steps).dedup.order| <= 4096
    ensures |Run(c, k, steps).dedup.acks| == |Run(c, k, steps).dedup.order|
  {
    StoreRefinesHistory(c, k, steps);
    StoreBounded(Run(c, k, steps).dedup, Answers(c, k, steps));
  }

  lemma AnswersStep(c: Config, k: Kernel, steps: seq<Step>)
    requires steps != []
    ensures Answers(c, k, steps[..|steps| - 1]) <= Answers(c, k, steps)
  {
  }

  lemma {:induction false} AnswersGrow(c: Config, k: Kernel, steps: seq<Step>, i: nat)
    requires i <= |steps|
    ensures Answers(c, k, steps[..i]) <= Answers(c, k, steps)
  {
    if i < |steps| {
      var front := steps[..|steps| - 1];
      AnswersGrow(c, k, front, i);
      assert front[..i] == steps[..i];
      AnswersStep(c, k, steps);
    } else {
      assert steps[..i] == steps;
    }
  }

  /** An answer stays in the store for the next 4096 answers. */
  lemma {:induction false} AnswerStays(c: Config, k: Kernel, steps: seq<Step>, i: nat, j: nat)
    requires k.dedup == EMPTY
    requires i < j <= |steps|
    requires IsFresh(Run(c, k, steps[..i]), steps[i])
    requires |Answers(c, k, steps[..j])| - |Answers(c, k, steps[..i])| <= 4096
    ensures var store := Run(c, k, steps[..j]).dedup;
            var cid := steps[i].command.envelope.commandId;
            cid in store.acks && EffectsAt(c, k, steps, i).acks == [store.acks[cid]]
  {
    var h := Answers(c, k, steps[..j]);
    var at := |Answers(c, k, steps[..i])|;
    StepAnswers(c, Run(c, k, steps[..i]), steps[i]);
    assert steps[..i + 1][..i] == steps[..i];
    AnswersGrow(c, k, steps[..j], i + 1);
    assert steps[..j][..i + 1] == steps[..i + 1];
    assert h[at] == Dedup.Answer(steps[i].command.envelope.commandId, EffectsAt(c, k, steps, i).acks[0]);
    StoreRefinesHistory(c, k, steps[..j]);
    ReplayIsExact(Run(c, k, steps[..j]).dedup, h, h[at].cid);
  }

  lemma KnownIdReplays(c: Config, k: Kernel, topic: Topic, env: Envelope, now: nat)
    requires env.commandId in k.dedup.acks
    ensures Next(c, k, OnCommand(topic, Signed(env), now)) ==
              (Contact(k, now), NOTHING.(acks := [k.dedup.acks[env.commandId]]))
  {
  }

  /** A redelivery within the next 4096 answers, on either topic, replays the
      byte-identical acknowledgement and has no other effect than cloud contact. */
  lemma {:induction false} RedeliveryReplays(c: Config, k: Kernel, steps: seq<Step>, i: nat, j: nat)
    requires k.dedup == EMPTY
    requires i < j < |steps|
    requires IsFresh(Run(c, k, steps[..i]), steps[i])
    requires steps[j].OnCommand? && steps[j].command.Signed?
    requires steps[j].command.envelope.commandId == steps[i].command.envelope.commandId
    requires |Answers(c, k, steps[..j])| - |Answers(c, k, steps[..i])| <= 4096
    ensures var before := Run(c, k, steps[..j]);
            Next(c, before, steps[j]) ==
              (Contact(before, steps[j].now), NOTHING.(acks := EffectsAt(c, k, steps, i).acks))
  {
    AnswerStays(c, k, steps, i, j);
    KnownIdReplays(c, Run(c, k, steps[..j]), steps[j].topic, steps[j].command.envelope, steps[j].now);
  }

  /** The two copies of one E-STOP, in either order: the first latches, logs one
      event and sends the stop to the bridge; the second only repeats the answer. */
  lemma {:induction false} DualEstopAppliesOnce(c: Config, k: Kernel, steps: seq<Step>, i: nat, j: nat, env: Envelope)
    requires k.dedup == EMPTY
    requires i < j < |steps| && env.payload.Action() == E_STOP && env.vehicleId == c.vehicleId
    requires steps[i].OnCommand? && steps[i].command == Signed(env)
    requires steps[j].OnCommand? && steps[j].command == Signed(env)
    requires steps[i].topic != steps[j].topic
    requires IsFresh(Run(c, k, steps[..i]), steps[i])
    requires env.tokenIssuedAt >= Run(c, k, steps[..i]).newestToken
    requires |Answers(c, k, steps[..j])| - |Answers(c, k, steps[..i])| <= 4096
    ensures var (first, second) := (EffectsAt(c, k, steps, i), EffectsAt(c, k, steps, j));
            && Run(c, k, steps[..i + 1]).latched
            && |first.logged| == 1 && second.logged == []
            && first.ipc == [StateEvent(true), CommandEvent(env.commandId, E_STOP, env.payload)] && second.ipc == []
            && first.acks == second.acks == [Acked(env.commandId)]
            && Next(c, Run(c, k, steps[..j]), steps[j]).0.latched == Run(c, k, steps[..j]).latched
  {
    RunStep(c, k, steps, i);
    RedeliveryReplays(c, k, steps, i, j);
  }
}
