/** Maneuver proposals over whole runs: one outcome each, on time, on an option
    that was offered. */
module KernelManeuver {
  import opened Wrappers
  import opened Contract
  import opened VehicleLog
  import opened KernelSpec

  /** The proposals published during a run. */
  function Offers(c: Config, k: Kernel, steps: seq<Step>): seq<Offer> {
    if steps == [] then []
    else Offers(c, k, steps[..|steps| - 1]) + EffectsAt(c, k, steps, |steps| - 1).offers
  }

  function Final(statuses: seq<ManeuverStatus>): seq<ManeuverStatus> {
    if statuses == [] then []
    else (if statuses[0].outcome == PENDING then [] else [statuses[0]]) + Final(statuses[1..])
  }

  /** The outcomes (DECIDED or TIMED_OUT) published during a run. */
  function Outcomes(c: Config, k: Kernel, steps: seq<Step>): seq<ManeuverStatus> {
    if steps == [] then []
    else Outcomes(c, k, steps[..|steps| - 1]) + Final(EffectsAt(c, k, steps, |steps| - 1).statuses)
  }

  /** Proposal ids are fresh UUIDs. */
  ghost predicate FreshIds(c: Config, k: Kernel, steps: seq<Step>) {
    forall i :: 0 <= i < |steps| && steps[i].Proposal2s? ==>
      forall o :: o in Offers(c, k, steps[..i]) ==> o.proposalId != steps[i].freshId
  }

  /** The outcome fits the offer: decided inside its window on one of its options,
      or timed out no earlier than its end with its safe default. */
  predicate Fits(o: Offer, s: ManeuverStatus) {
    && s.proposalId == o.proposalId
    && |o.optionIds| == 2
    && match s.outcome
       case PENDING => false
       case DECIDED => s.at < o.at + 30_000 && (s.selected.Some? ==> s.selected.value in o.optionIds)
       case TIMED_OUT => o.at + 30_000 <= s.at && s.selected == Some(o.optionIds[1])
  }

  ghost predicate Spaced(offers: seq<Offer>) {
    forall i, j :: 0 <= i < j < |offers| ==>
      offers[i].proposalId != offers[j].proposalId && offers[i].at + 120_000 <= offers[j].at
  }

  ghost predicate OneEach(outcomes: seq<ManeuverStatus>) {
    forall i, j :: 0 <= i < j < |outcomes| ==> outcomes[i].proposalId != outcomes[j].proposalId
  }

  ghost predicate AllFit(offers: seq<Offer>, outcomes: seq<ManeuverStatus>) {
    forall s :: s in outcomes ==> exists o :: o in offers && Fits(o, s)
  }

  /** The active proposal is the last offer, still without an outcome. */
  ghost predicate Tracks(k: Kernel, offers: seq<Offer>, outcomes: seq<ManeuverStatus>) {
    && k.lastProposalAt == (if offers == [] then 0 else offers[|offers| - 1].at)
    && (k.proposal.Some? ==>
          && offers != []
          && var last := offers[|offers| - 1];
            && |last.optionIds| == 2
            && k.proposal.value == ActiveProposal(last.proposalId, last.optionIds[1], last.at + VALIDITY_MS, last.optionIds)
            && forall s :: s in outcomes ==> s.proposalId != last.proposalId)
  }

  ghost predicate Inv(k: Kernel, offers: seq<Offer>, outcomes: seq<ManeuverStatus>) {
    Spaced(offers) && OneEach(outcomes) && AllFit(offers, outcomes) && Tracks(k, offers, outcomes)
  }

  /** What one step does to the proposals. */
  lemma {:induction false} StepProposal(c: Config, k: Kernel, s: Step)
    ensures var (k', e) := Next(c, k, s);
            if e.offers != [] then
              && s.Proposal2s? && k.proposal.None? && s.now >= k.lastProposalAt + PROPOSAL_MIN_GAP_MS
              && e.offers == [Offer(s.freshId, [OptionA(s.freshId), OptionB(s.freshId)], s.now)]
              && Final(e.statuses) == []
              && k'.lastProposalAt == s.now
              && k'.proposal == Some(ActiveProposal(s.freshId, OptionB(s.freshId), s.now + VALIDITY_MS, e.offers[0].optionIds))
            else if Final(e.statuses) != [] then
              && k.proposal.Some? && k'.proposal.None? && k'.lastProposalAt == k.lastProposalAt
              && |Final(e.statuses)| == 1
              && var st := Final(e.statuses)[0];
                && st.proposalId == k.proposal.value.proposalId && st.at == s.now
                && (st.outcome == DECIDED || st.outcome == TIMED_OUT)
                && (st.outcome == DECIDED ==> s.now < k.proposal.value.deadlineMs)
                && (st.outcome == DECIDED && st.selected.Some? ==> st.selected.value in k.proposal.value.optionIds)
                && (st.outcome == TIMED_OUT ==> s.now >= k.proposal.value.deadlineMs)
                && (st.outcome == TIMED_OUT ==> st.selected == Some(k.proposal.value.defaultOnTimeout))
            else k'.proposal == k.proposal && k'.lastProposalAt == k.lastProposalAt
  {
    if s.OnCommand? && s.command.Signed? {
      CommandProposal(c, Contact(k, s.now), s.topic, s.command.envelope, s.now);
    }
  }

  lemma CommandProposal(c: Config, k: Kernel, topic: Topic, env: Envelope, now: nat)
    ensures var v := Judge(c, k, topic, env, now);
            var (k', e) := Apply(c, k, env, now, v);
            && e.offers == [] && k'.lastProposalAt == k.lastProposalAt
            && if v.Decide? then
                 && IsManeuverDecision(env.payload)
                 && k.proposal.Some? && k'.proposal.None? && now < k.proposal.value.deadlineMs
                 && (v.selected.Some? ==> v.selected.value in k.proposal.value.optionIds)
                 && e.statuses == [ManeuverStatus(k.proposal.value.proposalId, DECIDED, v.selected, now)]
               else e.statuses == [] && k'.proposal == k.proposal
  {
    var v := Judge(c, k, topic, env, now);
    if v.Decide? {
      assert IsManeuverDecision(env.payload) && v == JudgeDecision(k, env.payload, now);
    }
  }

  lemma {:induction false} ProposalInvariant(c: Config, bootId: string, initial: ZoneType, boot: nat, steps: seq<Step>)
    requires FreshIds(c, Boot(bootId, initial, boot), steps)
    ensures var k := Boot(bootId, initial, boot);
            Inv(Run(c, k, steps), Offers(c, k, steps), Outcomes(c, k, steps))
  {
    var k := Boot(bootId, initial, boot);
    if steps != [] {
      var n := |steps| - 1;
      var front := steps[..n];
      assert forall i :: 0 <= i < n ==> front[..i] == steps[..i];
      ProposalInvariant(c, bootId, initial, boot, front);
      StepKeepsInv(c, Run(c, k, front), steps[n], Offers(c, k, front), Outcomes(c, k, front));
    }
  }

  lemma {:induction false} StepKeepsInv(c: Config, k: Kernel, s: Step, offers: seq<Offer>, outcomes: seq<ManeuverStatus>)
    requires Inv(k, offers, outcomes)
    requires s.Proposal2s? ==> forall o :: o in offers ==> o.proposalId != s.freshId
    ensures var (k', e) := Next(c, k, s);
            Inv(k', offers + e.offers, outcomes + Final(e.statuses))
  {
    StepProposal(c, k, s);
    var (k', e) := Next(c, k, s);
    if e.offers != [] {
      NewOffer(k, k', offers, outcomes, e.offers[0]);
      assert outcomes + Final(e.statuses) == outcomes && e.offers == [e.offers[0]];
    } else if Final(e.statuses) != [] {
      var st := Final(e.statuses)[0];
      assert Final(e.statuses) == [st] && offers + e.offers == offers;
      NewOutcome(k, k', offers, outcomes, st);
    } else {
      assert outcomes + Final(e.statuses) == outcomes && offers + e.offers == offers;
    }
  }

  lemma NewOffer(k: Kernel, k': Kernel, offers: seq<Offer>, outcomes: seq<ManeuverStatus>, o: Offer)
    requires Inv(k, offers, outcomes)
    requires forall p :: p in offers ==> p.proposalId != o.proposalId
    requires o.at >= k.lastProposalAt + PROPOSAL_MIN_GAP_MS && |o.optionIds| == 2
    requires k'.lastProposalAt == o.at
    requires k'.proposal == Some(ActiveProposal(o.proposalId, o.optionIds[1], o.at + VALIDITY_MS, o.optionIds))
    ensures Inv(k', offers + [o], outcomes)
  {
  }

  lemma NewOutcome(k: Kernel, k': Kernel, offers: seq<Offer>, outcomes: seq<ManeuverStatus>, st: ManeuverStatus)
    requires Inv(k, offers, outcomes)
    requires k.proposal.Some? && k'.proposal.None? && k'.lastProposalAt == k.lastProposalAt
    requires Fits(offers[|offers| - 1], st)
    ensures Inv(k', offers, outcomes + [st])
  {
  }

  /** Over any run: offers are distinct and at least 120 s apart; a proposal gets at
      most one outcome, DECIDED only before its deadline on an option it offered,
      TIMED_OUT only at or after it with its default. */
  lemma {:induction false} OneOutcomePerProposal(c: Config, bootId: string, initial: ZoneType, boot: nat, steps: seq<Step>)
    requires FreshIds(c, Boot(bootId, initial, boot), steps)
    ensures var k := Boot(bootId, initial, boot);
            var (offers, outcomes) := (Offers(c, k, steps), Outcomes(c, k, steps));
            && (forall i, j :: 0 <= i < j < |offers| ==>
                  offers[i].proposalId != offers[j].proposalId && offers[i].at + 120_000 <= offers[j].at)
            && (forall i, j :: 0 <= i < j < |outcomes| ==> outcomes[i].proposalId != outcomes[j].proposalId)
            && (forall s :: s in outcomes ==> exists o :: o in offers && Fits(o, s))
  {
    ProposalInvariant(c, bootId, initial, boot, steps);
  }

  // ------------------------------------------------------------------
  // What a decision selects
  // ------------------------------------------------------------------

  /** The active proposal's options are the two made from its id. */
  predicate OptionsMade(k: Kernel) {
    k.proposal.Some? ==> k.proposal.value.optionIds == [OptionA(k.proposal.value.proposalId), OptionB(k.proposal.value.proposalId)]
  }

  lemma {:induction false} OptionsStayMade(c: Config, bootId: string, initial: ZoneType, boot: nat, steps: seq<Step>)
    ensures OptionsMade(Run(c, Boot(bootId, initial, boot), steps))
  {
    if steps != [] {
      var front := steps[..|steps| - 1];
      OptionsStayMade(c, bootId, initial, boot, front);
      StepProposal(c, Run(c, Boot(bootId, initial, boot), front), steps[|steps| - 1]);
    }
  }

  /** What the operator asked for: the option named, the first one for a bare
      confirmation, none for a rejection. */
  function Asked(p: Payload): Option<string>
    requires IsManeuverDecision(p)
  {
    match p
    case SelectAlternative(_, o) => Some(o)
    case ConfirmManeuver(_, Some(o)) => Some(o)
    case ConfirmManeuver(id, None) => Some("opt-" + (if |id| <= 8 then id else id[..8]) + "-a")
    case RejectManeuver(_) => None
  }

  lemma StepDecides(c: Config, k: Kernel, topic: Topic, env: Envelope, now: nat, st: ManeuverStatus)
    requires OptionsMade(k) && st in Apply(c, k, env, now, Judge(c, k, topic, env, now)).1.statuses
    ensures IsManeuverDecision(env.payload)
    ensures st == ManeuverStatus(env.payload.proposalId, DECIDED, Asked(env.payload), now)
  {
    var v := Judge(c, k, topic, env, now);
    CommandProposal(c, k, topic, env, now);
    assert v == JudgeDecision(k, env.payload, now);
    assert OptionA(k.proposal.value.proposalId) != "" && OptionB(k.proposal.value.proposalId) != "";
  }

  /** In every run a proposal is decided as the operator asked. */
  lemma {:induction false} DecidedAsAsked(c: Config, bootId: string, initial: ZoneType, boot: nat, steps: seq<Step>, i: nat, st: ManeuverStatus)
    requires i < |steps| && st in EffectsAt(c, Boot(bootId, initial, boot), steps, i).statuses && st.outcome == DECIDED
    ensures steps[i].OnCommand? && steps[i].command.Signed?
    ensures var p := steps[i].command.envelope.payload;
            IsManeuverDecision(p) && st == ManeuverStatus(p.proposalId, DECIDED, Asked(p), steps[i].now)
  {
    var k := Run(c, Boot(bootId, initial, boot), steps[..i]);
    OptionsStayMade(c, bootId, initial, boot, steps[..i]);
    OnlyCommandsDecide(c, k, steps[i], st);
    StepDecides(c, Contact(k, steps[i].now), steps[i].topic, steps[i].command.envelope, steps[i].now, st);
  }

  lemma OnlyCommandsDecide(c: Config, k: Kernel, s: Step, st: ManeuverStatus)
    requires st in Next(c, k, s).1.statuses && st.outcome == DECIDED
    ensures s.OnCommand? && s.command.Signed?
  {
  }

  /** The proposal tick offers exactly when the vehicle is unlatched, nothing is pending and
      the last offer is 120 s old, with two options of which the second is the default; it
      times a proposal out exactly when unlatched and its deadline has come. */
  lemma ProposesIff(c: Config, k: Kernel, freshId: string, now: nat)
    ensures var (k', e) := Next(c, k, Proposal2s(freshId, now));
            var short := if |freshId| <= 8 then freshId else freshId[..8];
            var (first, second) := ("opt-" + short + "-a", "opt-" + short + "-b");
            && (e.offers != [] <==> !k.latched && k.proposal.None? && now - k.lastProposalAt >= 120_000)
            && (e.offers != [] ==>
                  && e == NOTHING.(offers := [Offer(freshId, [first, second], now)], statuses := [ManeuverStatus(freshId, PENDING, None, now)])
                  && k' == k.(lastProposalAt := now, proposal := Some(ActiveProposal(freshId, second, now + 30_000, [first, second]))))
            && (e.offers == [] ==>
                  if !k.latched && k.proposal.Some? && now >= k.proposal.value.deadlineMs then
                    && k' == k.(proposal := None)
                    && e == NOTHING.(statuses := [ManeuverStatus(k.proposal.value.proposalId, TIMED_OUT, Some(k.proposal.value.defaultOnTimeout), now)])
                  else k' == k && e == NOTHING)
  {
  }
}
