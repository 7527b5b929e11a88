/**
  What a feed entry shows: the side that leads the vote (`Support`) and
  whether the entry offers the "execute" action (`isExecutable`).
 */
module ProposalItem {
  import opened Wrappers
  import opened FederationProposal

  /** `Support`: "Abstain" when abstentions beat both sides, overridden by
      "Against" when against beats for, overridden by "For" when for beats
      against; "" when none of these holds. */
  function SupportLabel(forVotes: nat, againstVotes: nat, abstainVotes: nat): (s: string)
    ensures s == "For" <==> forVotes > againstVotes
    ensures s == "Against" <==> againstVotes > forVotes
    ensures s == "Abstain" <==> forVotes == againstVotes && abstainVotes > forVotes
    ensures s == "" <==> forVotes == againstVotes && abstainVotes <= forVotes
  {
    var s := if abstainVotes > forVotes && abstainVotes > againstVotes then "Abstain" else "";
    var s := if againstVotes > forVotes then "Against" else s;
    if forVotes > againstVotes then "For" else s
  }

  /** Abstentions only show on a tie: a larger abstain count still shows the
      leading side. */
  lemma AbstainOnlyOnTie(forVotes: nat, againstVotes: nat, abstainVotes: nat)
    requires forVotes != againstVotes
    ensures SupportLabel(forVotes, againstVotes, abstainVotes) != "Abstain"
    ensures SupportLabel(forVotes, againstVotes, abstainVotes) != ""
  {
  }

  /** `isExecutable`: a proposed entry whose vote count is positive and meets
      the quorum, once the current block has reached the execution window
      that ends at the entry's end block. The federation's metadata carries
      `execWindow` only for a single-type federation; a multi-type
      federation's metadata has none, `endBlock - undefined` is NaN and the
      comparison is false. */
  predicate IsExecutable(p: ProposalRecord, currentBlock: nat, execWindow: Option<nat>) {
    && p.proposed && p.votes >= p.quorumVotes && p.votes > 0
    && execWindow.Some?
    && currentBlock as int >= p.endBlock as int - execWindow.value as int
  }

  /** Once executable, an entry stays executable as blocks pass (`isExecutable`
      has no upper bound on the block). */
  lemma ExecutableStays(p: ProposalRecord, b1: nat, b2: nat, execWindow: Option<nat>)
    requires b1 <= b2 && IsExecutable(p, b1, execWindow)
    ensures IsExecutable(p, b2, execWindow)
  {
  }

  /** An entry is not executable while nobody proposed it, while it has no
      votes or fewer than its quorum, or while the block is more than the
      window before its end block. */
  lemma NotExecutableWhen(p: ProposalRecord, currentBlock: nat, execWindow: Option<nat>)
    ensures !p.proposed ==> !IsExecutable(p, currentBlock, execWindow)
    ensures p.votes == 0 || p.votes < p.quorumVotes ==> !IsExecutable(p, currentBlock, execWindow)
    ensures execWindow.Some? && currentBlock + execWindow.value < p.endBlock ==> !IsExecutable(p, currentBlock, execWindow)
  {
  }

  /** Without an `execWindow` (a multi-type federation) nothing is
      executable. */
  lemma NoWindowNeverExecutable(p: ProposalRecord, currentBlock: nat)
    ensures !IsExecutable(p, currentBlock, None)
  {
  }

  /** `isExecutable` looks at the vote count only: an entry whose votes are all
      against is executable as soon as the window opens. */
  lemma AgainstOnlyExecutable(p: ProposalRecord, currentBlock: nat, execWindow: nat)
    requires VotesSummed(p) && p.proposed && p.forVotes == 0 && p.abstainVotes == 0
    requires p.againstVotes > 0 && p.againstVotes >= p.quorumVotes
    requires p.endBlock <= currentBlock + execWindow
    ensures IsExecutable(p, currentBlock, Some(execWindow))
    ensures SupportLabel(p.forVotes, p.againstVotes, p.abstainVotes) == "Against"
  {
  }

  /** An entry built without a federation record is never executable. */
  lemma UnproposedNotExecutable(net: NetworkAddress, e: ExternalProposal, currentBlock: nat, execWindow: Option<nat>)
    requires e.Nouns?
    ensures Construct(net, Some(ExternalObject(e)), None).Ok?
    ensures !IsExecutable(Construct(net, Some(ExternalObject(e)), None).value, currentBlock, execWindow)
  {
    ConstructNouns(net, e, None);
  }
}
