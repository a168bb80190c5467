/** Session phases: the linear chain OPENING → ENGAGEMENT → SYNTHESIS → CLOSURE,
    kept as an explicit lookup table. */
module SessionLifecycle {
  import opened Base
  import opened Schema

  /** `allowedPhaseTransitions` */
  function AllowedPhaseTransitions(from: SessionPhase): seq<SessionPhase> {
    match from
    case OPENING => [ENGAGEMENT]
    case ENGAGEMENT => [SYNTHESIS]
    case SYNTHESIS => [CLOSURE]
    case CLOSURE => []
  }

  /** Strict table lookup: any pair not listed is rejected. */
  predicate CanAdvancePhase(from: SessionPhase, to: SessionPhase) {
    to in AllowedPhaseTransitions(from)
  }

  /** Position of a phase along the chain; the reference the table is checked against. */
  function PhaseRank(p: SessionPhase): nat {
    match p
    case OPENING => 0
    case ENGAGEMENT => 1
    case SYNTHESIS => 2
    case CLOSURE => 3
  }

  function PhaseName(p: SessionPhase): string {
    match p
    case OPENING => "OPENING"
    case ENGAGEMENT => "ENGAGEMENT"
    case SYNTHESIS => "SYNTHESIS"
    case CLOSURE => "CLOSURE"
  }

  /** `assertPhaseAdvanceAllowed`: raises exactly when the table forbids the
      pair, with a message naming both phases. */
  function AssertPhaseAdvanceAllowed(from: SessionPhase, to: SessionPhase): (r: Outcome<()>)
    ensures r.Ok? <==> CanAdvancePhase(from, to)
    ensures r.Err? ==> r.message == "Invalid phase transition: " + PhaseName(from) + " -> " + PhaseName(to)
  {
    if !CanAdvancePhase(from, to) then
      Err("Invalid phase transition: " + PhaseName(from) + " -> " + PhaseName(to))
    else
      Ok(())
  }

  /** The table allows exactly the three forward steps. */
  lemma AllowedPairs(from: SessionPhase, to: SessionPhase)
    ensures CanAdvancePhase(from, to) <==>
      || (from == OPENING && to == ENGAGEMENT)
      || (from == ENGAGEMENT && to == SYNTHESIS)
      || (from == SYNTHESIS && to == CLOSURE)
  {
  }

  /** An advance is allowed exactly when it raises the rank by one. */
  lemma AdvanceIsNextRank(from: SessionPhase, to: SessionPhase)
    ensures CanAdvancePhase(from, to) <==> PhaseRank(to) == PhaseRank(from) + 1
  {
  }

  /** CLOSURE has no successor and no phase is its own successor. */
  lemma ClosureIsTerminal(p: SessionPhase)
    ensures !CanAdvancePhase(CLOSURE, p)
    ensures !CanAdvancePhase(p, p)
  {
  }

  /** Phase names are distinct, so the error message identifies the pair. */
  lemma PhaseNamesDistinct(p: SessionPhase, q: SessionPhase)
    ensures PhaseName(p) == PhaseName(q) ==> p == q
  {
  }

  /** A sequence of phases each of which is an allowed advance of the one before. */
  ghost predicate IsAdvanceChain(ps: seq<SessionPhase>) {
    forall i :: 0 < i < |ps| ==> CanAdvancePhase(ps[i - 1], ps[i])
  }

  lemma {:induction false} ChainRanks(ps: seq<SessionPhase>, k: nat)
    requires IsAdvanceChain(ps) && k < |ps|
    ensures PhaseRank(ps[k]) == PhaseRank(ps[0]) + k
  {
    if k > 0 {
      ChainRanks(ps, k - 1);
      AdvanceIsNextRank(ps[k - 1], ps[k]);
    }
  }

  /** Every chain of advances from OPENING visits the phases in order, has at
      most four phases, and when it has four it ends in CLOSURE. */
  lemma ChainFromOpening(ps: seq<SessionPhase>)
    requires |ps| > 0 && ps[0] == OPENING && IsAdvanceChain(ps)
    ensures |ps| <= 4
    ensures forall k :: 0 <= k < |ps| ==> PhaseRank(ps[k]) == k
    ensures |ps| == 4 ==> ps[3] == CLOSURE
  {
    forall k | 0 <= k < |ps|
      ensures PhaseRank(ps[k]) == k
    {
      ChainRanks(ps, k);
    }
    if |ps| > 4 {
      ChainRanks(ps, 4);
    }
  }
}
