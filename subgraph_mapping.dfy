/**
  The subgraph's event handlers for the multi-token delegate: proposals are
  created, voted on, executed and vetoed; settings changes and token-list
  changes are logged as entities of their own.

  Each handler is a method on the entity store. The pure functions below say
  what a handler does to one entity; the lemmas relate several events.
 */
module SubgraphMapping {
  import opened Wrappers
  import opened Numerals
  import opened SubgraphStore

  /** Where an event was logged. */
  datatype EventMeta = EventMeta(transactionHash: seq<Byte>, logIndex: nat, blockNumber: nat, blockTimestamp: nat)

  /** The parameters of `ProposalCreated`. */
  datatype ProposalCreated = ProposalCreated(id: nat, proposer: nat, eDAO: nat, ePropID: nat,
                                             startBlock: nat, endBlock: nat, quorumVotes: nat)

  /** The parameters of `VoteCast`. */
  datatype VoteCast = VoteCast(voter: nat, proposalId: nat, support: nat, votes: nat, reason: string)

  // ---------------------------------------------------------------------
  // Entity ids

  /** `id.toString()`: the proposal's id in decimal. It reads back as the
      id, so each proposal has its own entity. */
  function ProposalKey(id: nat): (key: string)
    ensures |key| >= 1 && FromRadix(key, 10) == id
  {
    ToRadixRoundTrip(id, 10);
    ToRadix(id, 10)
  }

  /** `voter.toHexString() + "-" + proposalId.toString()`. */
  function VoteId(voter: nat, proposalId: nat): string {
    PaddedHex(voter, 40) + "-" + ProposalKey(proposalId)
  }

  /** There is one vote entity per voter and proposal: distinct pairs get
      distinct ids (voters are 20-byte addresses). */
  lemma VoteIdInjective(v1: nat, p1: nat, v2: nat, p2: nat)
    requires v1 < Pow(16, 40) && v2 < Pow(16, 40)
    requires VoteId(v1, p1) == VoteId(v2, p2)
    ensures v1 == v2 && p1 == p2
  {
    assert VoteId(v1, p1) == PaddedHex(v1, 40) + ("-" + ProposalKey(p1));
    assert VoteId(v2, p2) == PaddedHex(v2, 40) + ("-" + ProposalKey(p2));
    KeyedIdInjective(v1, p1, v2, p2, 40);
  }

  /** A padded hex number that fits its width, "-" and a decimal number
      determine both numbers. */
  lemma KeyedIdInjective(v1: nat, p1: nat, v2: nat, p2: nat, width: nat)
    requires width >= 1 && v1 < Pow(16, width) && v2 < Pow(16, width)
    requires PaddedHex(v1, width) + ("-" + ProposalKey(p1)) == PaddedHex(v2, width) + ("-" + ProposalKey(p2))
    ensures v1 == v2 && p1 == p2
  {
    var x, y := "-" + ProposalKey(p1), "-" + ProposalKey(p2);
    PaddedPrefixInjective(v1, x, v2, y, width);
    assert x[1..] == ProposalKey(p1) && y[1..] == ProposalKey(p2);
    DecimalInjective(p1, p2);
  }

  /** A padded hex number that fits its width can be split off the front of
      a string. */
  lemma PaddedPrefixInjective(v1: nat, x: string, v2: nat, y: string, width: nat)
    requires width >= 1 && v1 < Pow(16, width) && v2 < Pow(16, width)
    requires PaddedHex(v1, width) + x == PaddedHex(v2, width) + y
    ensures v1 == v2 && x == y
  {
    PaddedHexLength(v1, width);
    PaddedHexLength(v2, width);
    SplitAt(PaddedHex(v1, width), x, PaddedHex(v2, width), y);
    PaddedHexInjective(v1, v2, width);
  }

  /** Two concatenations with equally long first parts are equal only part
      by part. */
  lemma SplitAt<T>(a: seq<T>, x: seq<T>, b: seq<T>, y: seq<T>)
    requires |a| == |b| && a + x == b + y
    ensures a == b && x == y
  {
    assert a == (a + x)[..|a|] && b == (b + y)[..|b|];
    assert x == (a + x)[|a|..] && y == (b + y)[|b|..];
  }

  /** `Bytes.fromI32(logIndex.toI32())`: the low 32 bits of the log index,
      least significant byte first. */
  function I32Bytes(n: nat): (b: seq<Byte>)
    ensures |b| == 4
    ensures n < 0x1_0000_0000 ==> b[0] as int + 0x100 * (b[1] as int + 0x100 * (b[2] as int + 0x100 * b[3] as int)) == n
  {
    var q1 := n / 0x100;
    var q2 := q1 / 0x100;
    var q3 := q2 / 0x100;
    [n % 0x100, q1 % 0x100, q2 % 0x100, q3 % 0x100]
  }

  /** `transaction.hash.concatI32(logIndex.toI32())`: the id of a log
      entity. */
  function LogId(meta: EventMeta): seq<Byte> {
    meta.transactionHash + I32Bytes(meta.logIndex)
  }

  /** Two logs never share an id: transaction hashes have one length, and
      log indices below 2^32 are told apart by their four bytes. */
  lemma LogIdInjective(m1: EventMeta, m2: EventMeta)
    requires |m1.transactionHash| == |m2.transactionHash|
    requires m1.logIndex < 0x1_0000_0000 && m2.logIndex < 0x1_0000_0000
    requires LogId(m1) == LogId(m2)
    ensures m1.transactionHash == m2.transactionHash && m1.logIndex == m2.logIndex
  {
    var n := |m1.transactionHash|;
    assert LogId(m1)[..n] == m1.transactionHash && LogId(m2)[..n] == m2.transactionHash;
    assert LogId(m1)[n..] == I32Bytes(m1.logIndex) && LogId(m2)[n..] == I32Bytes(m2.logIndex);
  }

  // ---------------------------------------------------------------------
  // What each handler does to a proposal

  /** `handleProposalCreated` on the loaded (or blank) entity: the event's
      fields are copied, the tallies zeroed, both flags cleared and the
      status set to active. */
  function Created(p: ProposalEntity, ev: ProposalCreated): (r: ProposalEntity)
    ensures r.id == p.id
    ensures r.forVotes == r.againstVotes == r.abstainVotes == Some(0)
    ensures r.executed == r.vetoed == Some(false) && r.status == Some(Active)
    ensures r.proposer == Some(ev.proposer) && r.eDAO == Some(ev.eDAO) && r.eID == Some(ev.ePropID)
    ensures r.quorumVotes == Some(ev.quorumVotes)
    ensures r.startBlock == Some(ev.startBlock) && r.endBlock == Some(ev.endBlock)
  {
    p.(proposer := Some(ev.proposer), eDAO := Some(ev.eDAO), eID := Some(ev.ePropID),
       quorumVotes := Some(ev.quorumVotes), startBlock := Some(ev.startBlock), endBlock := Some(ev.endBlock),
       executed := Some(false), vetoed := Some(false), status := Some(Active),
       forVotes := Some(0), againstVotes := Some(0), abstainVotes := Some(0))
  }

  /** The tally a `support` value adds to: 0 against, 1 for, 2 abstain;
      any other value adds to none. */
  function TallyOf(p: ProposalEntity, support: nat): Option<nat> {
    if support == 0 then p.againstVotes
    else if support == 1 then p.forVotes
    else if support == 2 then p.abstainVotes
    else None
  }

  /** The three tallies cleared, so that two entities can be compared on
      everything else. */
  function Untallied(p: ProposalEntity): ProposalEntity {
    p.(forVotes := None, againstVotes := None, abstainVotes := None)
  }

  /** The tally step of `handleVoteCast`: the votes are added to the tally
      `support` selects, or nothing happens for another `support`. Reading a
      tally that was never set aborts the handler (None). */
  function Tally(p: ProposalEntity, support: nat, votes: nat): (r: Option<ProposalEntity>)
    ensures r.None? <==> support <= 2 && TallyOf(p, support).None?
    ensures r.Some? ==> forall s :: 0 <= s <= 2 ==>
              TallyOf(r.value, s) == if s == support then Some(TallyOf(p, s).value + votes) else TallyOf(p, s)
    ensures r.Some? ==> Untallied(r.value) == Untallied(p)
    ensures support > 2 ==> r == Some(p)
  {
    if support == 0 then
      if p.againstVotes.None? then None else Some(p.(againstVotes := Some(p.againstVotes.value + votes)))
    else if support == 1 then
      if p.forVotes.None? then None else Some(p.(forVotes := Some(p.forVotes.value + votes)))
    else if support == 2 then
      if p.abstainVotes.None? then None else Some(p.(abstainVotes := Some(p.abstainVotes.value + votes)))
    else Some(p)
  }

  /** `handleProposalExecuted` on the entity. */
  function MarkExecuted(p: ProposalEntity): (r: ProposalEntity)
    ensures r.executed == Some(true) && r.status == Some(Executed)
    ensures r.forVotes == p.forVotes && r.againstVotes == p.againstVotes && r.abstainVotes == p.abstainVotes
    ensures r.vetoed == p.vetoed
  {
    p.(executed := Some(true), status := Some(Executed))
  }

  /** `handleProposalVetoed` on the entity. */
  function MarkVetoed(p: ProposalEntity): (r: ProposalEntity)
    ensures r.vetoed == Some(true) && r.status == Some(Vetoed)
    ensures r.forVotes == p.forVotes && r.againstVotes == p.againstVotes && r.abstainVotes == p.abstainVotes
    ensures r.executed == p.executed
  {
    p.(vetoed := Some(true), status := Some(Vetoed))
  }

  /** The flags are one-way: a vote after execution or veto leaves them set,
      and setting them again changes nothing. */
  lemma FlagsStay(p: ProposalEntity, support: nat, votes: nat)
    ensures Tally(MarkExecuted(p), support, votes).Some? ==>
              Tally(MarkExecuted(p), support, votes).value.executed == Some(true)
    ensures Tally(MarkVetoed(p), support, votes).Some? ==>
              Tally(MarkVetoed(p), support, votes).value.vetoed == Some(true)
    ensures MarkExecuted(MarkExecuted(p)) == MarkExecuted(p) && MarkVetoed(MarkVetoed(p)) == MarkVetoed(p)
  {
  }

  /** A vote on a proposal whose creation the subgraph has not seen aborts:
      the blank entity has no tallies. */
  lemma VoteOnUnknownAborts(id: string, support: nat, votes: nat)
    requires support <= 2
    ensures Tally(BlankProposal(id), support, votes).None?
  {
  }

  /** The total weight of the votes with a given `support`. */
  function Weight(vs: seq<VoteCast>, support: nat): nat {
    if vs == [] then 0
    else (if vs[0].support == support then vs[0].votes else 0) + Weight(vs[1..], support)
  }

  /** The tally steps of a run of votes, in order; None once one aborts. */
  function Replay(p: ProposalEntity, vs: seq<VoteCast>): Option<ProposalEntity>
    decreases |vs|
  {
    if vs == [] then Some(p)
    else match Tally(p, vs[0].support, vs[0].votes)
      case None => None
      case Some(q) => Replay(q, vs[1..])
  }

  /** Once the tallies are set no vote aborts, and each tally grows by the
      total weight of the votes with its `support` value; everything else
      stays. */
  lemma {:induction false} ReplayTallies(p: ProposalEntity, vs: seq<VoteCast>)
    requires p.forVotes.Some? && p.againstVotes.Some? && p.abstainVotes.Some?
    ensures Replay(p, vs) == Some(p.(forVotes := Some(p.forVotes.value + Weight(vs, 1)),
                                     againstVotes := Some(p.againstVotes.value + Weight(vs, 0)),
                                     abstainVotes := Some(p.abstainVotes.value + Weight(vs, 2))))
    decreases |vs|
  {
    if vs != [] {
      var q := Tally(p, vs[0].support, vs[0].votes).value;
      ReplayTallies(q, vs[1..]);
    }
  }

  /** After creation the tallies are exactly the weights of the votes cast
      for, against and abstaining. */
  lemma CreatedThenVotes(p: ProposalEntity, ev: ProposalCreated, vs: seq<VoteCast>)
    ensures Replay(Created(p, ev), vs).Some?
    ensures var r := Replay(Created(p, ev), vs).value;
            r.forVotes == Some(Weight(vs, 1)) && r.againstVotes == Some(Weight(vs, 0))
            && r.abstainVotes == Some(Weight(vs, 2))
  {
    ReplayTallies(Created(p, ev), vs);
  }

  // ---------------------------------------------------------------------
  // What `handleVoteCast` does to the vote

  /** The vote entity after `handleVoteCast`: the reason is only written
      when the event carries one, so a reloaded vote keeps its old one. */
  function CastVote(v: VoteEntity, proposal: string, ev: VoteCast, blockNumber: nat): (r: VoteEntity)
    ensures r.id == v.id && r.proposal == Some(proposal) && r.voter == Some(ev.voter)
    ensures r.votes == r.votesRaw == Some(ev.votes)
    ensures r.support == Some(ev.support == 1) && r.supportDetailed == Some(ev.support)
    ensures r.blockNumber == Some(blockNumber)
    ensures r.reason == if ev.reason != "" then Some(ev.reason) else v.reason
  {
    var r := v.(proposal := Some(proposal), voter := Some(ev.voter), votesRaw := Some(ev.votes),
                votes := Some(ev.votes), support := Some(ev.support == 1),
                supportDetailed := Some(ev.support), blockNumber := Some(blockNumber));
    if ev.reason != "" then r.(reason := Some(ev.reason)) else r
  }

  // ---------------------------------------------------------------------
  // The handlers

  /** The entity a handler loads with `getOrCreateProposal(key)`. */
  function Loaded(stored: map<string, ProposalEntity>, key: string): ProposalEntity {
    Resolved(stored, key, true, BlankProposal(key)).value
  }

  method HandleProposalCreated(store: Store, ev: ProposalCreated)
    modifies store
    ensures store.proposals == old(store.proposals)[ProposalKey(ev.id) := Created(Loaded(old(store.proposals), ProposalKey(ev.id)), ev)]
    ensures unchanged(store`votes, store`execWindows, store`quorumChanges, store`vetoerChanges, store`tokenChanges)
  {
    var key := ProposalKey(ev.id);
    var p := store.GetOrCreateProposal(key, true, false);
    store.proposals := store.proposals[key := Created(p.value, ev)];
  }

  method HandleProposalExecuted(store: Store, id: nat)
    modifies store
    ensures store.proposals == old(store.proposals)[ProposalKey(id) := MarkExecuted(Loaded(old(store.proposals), ProposalKey(id)))]
    ensures unchanged(store`votes, store`execWindows, store`quorumChanges, store`vetoerChanges, store`tokenChanges)
  {
    var key := ProposalKey(id);
    var p := store.GetOrCreateProposal(key, true, false);
    store.proposals := store.proposals[key := MarkExecuted(p.value)];
  }

  method HandleProposalVetoed(store: Store, id: nat)
    modifies store
    ensures store.proposals == old(store.proposals)[ProposalKey(id) := MarkVetoed(Loaded(old(store.proposals), ProposalKey(id)))]
    ensures unchanged(store`votes, store`execWindows, store`quorumChanges, store`vetoerChanges, store`tokenChanges)
  {
    var key := ProposalKey(id);
    var p := store.GetOrCreateProposal(key, true, false);
    store.proposals := store.proposals[key := MarkVetoed(p.value)];
  }

  /** `handleVoteCast`: the vote is saved first, then the tally is updated
      and the proposal saved; `false` when reading an unset tally aborts,
      after the vote was saved and before the proposal is. */
  method HandleVoteCast(store: Store, ev: VoteCast, blockNumber: nat) returns (ok: bool)
    modifies store
    ensures var key := ProposalKey(ev.proposalId);
            var vid := VoteId(ev.voter, ev.proposalId);
            var v := Resolved(old(store.votes), vid, true, BlankVote(vid)).value;
            store.votes == old(store.votes)[vid := CastVote(v, Loaded(old(store.proposals), key).id, ev, blockNumber)]
    ensures var key := ProposalKey(ev.proposalId);
            var t := Tally(Loaded(old(store.proposals), key), ev.support, ev.votes);
            (ok <==> t.Some?) && store.proposals == if ok then old(store.proposals)[key := t.value] else old(store.proposals)
    ensures unchanged(store`execWindows, store`quorumChanges, store`vetoerChanges, store`tokenChanges)
  {
    var key := ProposalKey(ev.proposalId);
    var p := store.GetOrCreateProposal(key, true, false);
    var proposal := p.value;
    var vid := VoteId(ev.voter, ev.proposalId);
    var v := store.GetOrCreateVote(vid, true, false);
    store.votes := store.votes[vid := CastVote(v.value, proposal.id, ev, blockNumber)];
    var t := Tally(proposal, ev.support, ev.votes);
    if t.None? {
      return false;
    }
    store.proposals := store.proposals[key := t.value];
    return true;
  }

  /** The logged entity of a settings change. */
  function ChangeLog(meta: EventMeta, oldValue: nat, newValue: nat): (c: AdminChange)
    ensures c.oldValue == oldValue && c.newValue == newValue
    ensures c.blockNumber == meta.blockNumber && c.blockTimestamp == meta.blockTimestamp
    ensures c.transactionHash == meta.transactionHash
  {
    AdminChange(oldValue, newValue, meta.blockNumber, meta.blockTimestamp, meta.transactionHash)
  }

  /** `handleNewExecWindow`: one new entity under the log's id. */
  method HandleNewExecWindow(store: Store, meta: EventMeta, oldExecWindow: nat, newExecWindow: nat)
    modifies store
    ensures store.execWindows == old(store.execWindows)[LogId(meta) := ChangeLog(meta, oldExecWindow, newExecWindow)]
    ensures unchanged(store`proposals, store`votes, store`quorumChanges, store`vetoerChanges, store`tokenChanges)
  {
    store.execWindows := store.execWindows[LogId(meta) := ChangeLog(meta, oldExecWindow, newExecWindow)];
  }

  /** `handleNewQuorumBPS`. */
  method HandleNewQuorumBPS(store: Store, meta: EventMeta, oldQuorumBPS: nat, newQuorumBPS: nat)
    modifies store
    ensures store.quorumChanges == old(store.quorumChanges)[LogId(meta) := ChangeLog(meta, oldQuorumBPS, newQuorumBPS)]
    ensures unchanged(store`proposals, store`votes, store`execWindows, store`vetoerChanges, store`tokenChanges)
  {
    store.quorumChanges := store.quorumChanges[LogId(meta) := ChangeLog(meta, oldQuorumBPS, newQuorumBPS)];
  }

  /** `handleNewVetoer`; the vetoers are addresses, kept as numbers. */
  method HandleNewVetoer(store: Store, meta: EventMeta, oldVetoer: nat, newVetoer: nat)
    modifies store
    ensures store.vetoerChanges == old(store.vetoerChanges)[LogId(meta) := ChangeLog(meta, oldVetoer, newVetoer)]
    ensures unchanged(store`proposals, store`votes, store`execWindows, store`quorumChanges, store`tokenChanges)
  {
    store.vetoerChanges := store.vetoerChanges[LogId(meta) := ChangeLog(meta, oldVetoer, newVetoer)];
  }

  /** Two settings changes logged at different places are both kept. */
  lemma AdminLogsKept(log: map<seq<Byte>, AdminChange>, m1: EventMeta, c1: AdminChange, m2: EventMeta, c2: AdminChange)
    requires |m1.transactionHash| == |m2.transactionHash|
    requires m1.logIndex < 0x1_0000_0000 && m2.logIndex < 0x1_0000_0000
    requires m1.transactionHash != m2.transactionHash || m1.logIndex != m2.logIndex
    ensures var after := log[LogId(m1) := c1][LogId(m2) := c2];
            after[LogId(m1)] == c1 && after[LogId(m2)] == c2
  {
    if LogId(m1) == LogId(m2) {
      LogIdInjective(m1, m2);
    }
  }

  /** The loop of `handleTokensChanged`: the string form of each token
      address, in order. The string form graph-ts gives an address is a
      parameter. */
  method TokenStrings(newTokens: seq<nat>, addressString: nat -> string) returns (tokens: seq<string>)
    ensures |tokens| == |newTokens|
    ensures forall i :: 0 <= i < |newTokens| ==> tokens[i] == addressString(newTokens[i])
  {
    var a := new string[|newTokens|];
    for i := 0 to |newTokens|
      invariant forall j :: 0 <= j < i ==> a[j] == addressString(newTokens[j])
    {
      a[i] := addressString(newTokens[i]);
    }
    tokens := a[..];
  }

  /** `handleTokensChanged`: one new entity under the log's id, holding the
      tokens' strings and the weights and flags as they came. */
  method HandleTokensChanged(store: Store, meta: EventMeta, newTokens: seq<nat>, weights: seq<nat>,
                             useERC721Balance: seq<bool>, addressString: nat -> string)
    modifies store
    ensures LogId(meta) in store.tokenChanges
    ensures var t := store.tokenChanges[LogId(meta)];
            && |t.newTokens| == |newTokens|
            && (forall i :: 0 <= i < |newTokens| ==> t.newTokens[i] == addressString(newTokens[i]))
            && t.weights == weights && t.useERC721Balance == useERC721Balance
            && t.blockNumber == meta.blockNumber && t.blockTimestamp == meta.blockTimestamp
            && t.transactionHash == meta.transactionHash
    ensures store.tokenChanges.Keys == old(store.tokenChanges).Keys + {LogId(meta)}
    ensures forall k :: k in old(store.tokenChanges) && k != LogId(meta) ==> store.tokenChanges[k] == old(store.tokenChanges)[k]
    ensures unchanged(store`proposals, store`votes, store`execWindows, store`quorumChanges, store`vetoerChanges)
  {
    var tokens := TokenStrings(newTokens, addressString);
    var entity := TokensChangedEntity(tokens, weights, useERC721Balance, meta.blockNumber,
                                      meta.blockTimestamp, meta.transactionHash);
    store.tokenChanges := store.tokenChanges[LogId(meta) := entity];
  }
}
