/**
  The subgraph's entity store and its load-or-create helpers
  (`getOrCreateProposal`, `getOrCreateVote`).

  An entity is a value: `load` hands out a copy of what is stored, the
  handler changes the copy, and `save()` writes it back under its id. A
  freshly created entity has its id and no other field set, so every other
  field is an `Option`.
 */
module SubgraphStore {
  import opened Wrappers
  import opened Numerals

  /** The status names the mapping writes (their string values are defined
      in the subgraph's constants module). */
  datatype Status = Active | Executed | Vetoed

  /** A federation proposal as the subgraph indexes it. Addresses are kept
      as the numbers they encode. */
  datatype ProposalEntity = ProposalEntity(
    id: string,
    proposer: Option<nat>, eDAO: Option<nat>, eID: Option<nat>,
    quorumVotes: Option<nat>, startBlock: Option<nat>, endBlock: Option<nat>,
    executed: Option<bool>, vetoed: Option<bool>, status: Option<Status>,
    forVotes: Option<nat>, againstVotes: Option<nat>, abstainVotes: Option<nat>)

  /** One voter's vote on one proposal. */
  datatype VoteEntity = VoteEntity(
    id: string, proposal: Option<string>, voter: Option<nat>,
    votesRaw: Option<nat>, votes: Option<nat>, support: Option<bool>,
    supportDetailed: Option<nat>, blockNumber: Option<nat>, reason: Option<string>)

  /** `new Proposal(id)`. */
  function BlankProposal(id: string): (p: ProposalEntity)
    ensures p.id == id && p.forVotes.None? && p.againstVotes.None? && p.abstainVotes.None?
  {
    ProposalEntity(id, None, None, None, None, None, None, None, None, None, None, None, None)
  }

  /** `new Vote(id)`. */
  function BlankVote(id: string): (v: VoteEntity)
    ensures v.id == id && v.votes.None? && v.reason.None?
  {
    VoteEntity(id, None, None, None, None, None, None, None, None)
  }

  /** What a load-or-create helper returns: the stored entity when there is
      one, otherwise a blank one when `createIfNotFound` holds, otherwise
      nothing (the null `load` result). */
  function Resolved<E>(stored: map<string, E>, id: string, createIfNotFound: bool, blank: E): (r: Option<E>)
    ensures id in stored ==> r == Some(stored[id])
    ensures id !in stored ==> (r.Some? <==> createIfNotFound)
    ensures r.Some? && id !in stored ==> r.value == blank
  {
    if id in stored then Some(stored[id])
    else if createIfNotFound then Some(blank)
    else None
  }

  /** The store after a load-or-create helper: only a blank entity created
      with `save` set is written. */
  function StoredAfter<E>(stored: map<string, E>, id: string, createIfNotFound: bool, save: bool, blank: E): (m: map<string, E>)
    ensures id in stored || !createIfNotFound || !save ==> m == stored
    ensures id !in stored && createIfNotFound && save ==> m == stored[id := blank]
    ensures m.Keys == if id in stored || !(createIfNotFound && save) then stored.Keys else stored.Keys + {id}
  {
    if id !in stored && createIfNotFound && save then stored[id := blank] else stored
  }

  /** Loading an entity never changes a stored one, and calling the helper
      again with the same arguments returns the same entity. */
  lemma ResolvedStable<E>(stored: map<string, E>, id: string, createIfNotFound: bool, save: bool, blank: E)
    ensures forall k :: k in stored ==>
              k in StoredAfter(stored, id, createIfNotFound, save, blank)
              && StoredAfter(stored, id, createIfNotFound, save, blank)[k] == stored[k]
    ensures createIfNotFound ==>
              Resolved(StoredAfter(stored, id, createIfNotFound, save, blank), id, createIfNotFound, blank)
              == Resolved(stored, id, createIfNotFound, blank)
  {
  }

  /** A change of one of the delegate's settings (execution window, quorum
      in basis points or vetoer), as logged by its event. */
  datatype AdminChange = AdminChange(oldValue: nat, newValue: nat, blockNumber: nat,
                                     blockTimestamp: nat, transactionHash: seq<Byte>)

  /** A change of the delegate's token list. */
  datatype TokensChangedEntity = TokensChangedEntity(
    newTokens: seq<string>, weights: seq<nat>, useERC721Balance: seq<bool>,
    blockNumber: nat, blockTimestamp: nat, transactionHash: seq<Byte>)

  /** The subgraph's store: one map per entity type, from id to entity. */
  class Store {
    var proposals: map<string, ProposalEntity>
    var votes: map<string, VoteEntity>
    var execWindows: map<seq<Byte>, AdminChange>
    var quorumChanges: map<seq<Byte>, AdminChange>
    var vetoerChanges: map<seq<Byte>, AdminChange>
    var tokenChanges: map<seq<Byte>, TokensChangedEntity>

    constructor ()
      ensures proposals == map[] && votes == map[]
      ensures execWindows == map[] && quorumChanges == map[] && vetoerChanges == map[] && tokenChanges == map[]
    {
      proposals, votes := map[], map[];
      execWindows, quorumChanges, vetoerChanges, tokenChanges := map[], map[], map[], map[];
    }

    /** `getOrCreateProposal(id, createIfNotFound, save)`. */
    method GetOrCreateProposal(id: string, createIfNotFound: bool, save: bool) returns (p: Option<ProposalEntity>)
      modifies this
      ensures p == Resolved(old(proposals), id, createIfNotFound, BlankProposal(id))
      ensures proposals == StoredAfter(old(proposals), id, createIfNotFound, save, BlankProposal(id))
      ensures votes == old(votes) && execWindows == old(execWindows) && quorumChanges == old(quorumChanges)
      ensures vetoerChanges == old(vetoerChanges) && tokenChanges == old(tokenChanges)
    {
      if id in proposals {
        return Some(proposals[id]);
      }
      if !createIfNotFound {
        return None;
      }
      p := Some(BlankProposal(id));
      if save {
        proposals := proposals[id := BlankProposal(id)];
      }
    }

    /** `getOrCreateVote(id, createIfNotFound, save)`. */
    method GetOrCreateVote(id: string, createIfNotFound: bool, save: bool) returns (v: Option<VoteEntity>)
      modifies this
      ensures v == Resolved(old(votes), id, createIfNotFound, BlankVote(id))
      ensures votes == StoredAfter(old(votes), id, createIfNotFound, save, BlankVote(id))
      ensures proposals == old(proposals) && execWindows == old(execWindows) && quorumChanges == old(quorumChanges)
      ensures vetoerChanges == old(vetoerChanges) && tokenChanges == old(tokenChanges)
    {
      if id in votes {
        return Some(votes[id]);
      }
      if !createIfNotFound {
        return None;
      }
      v := Some(BlankVote(id));
      if save {
        votes := votes[id := BlankVote(id)];
      }
    }
  }
}
