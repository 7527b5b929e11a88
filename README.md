# Federation off-chain core, modelled in Dafny

Federation lets the holders of one nounish DAO's tokens vote together as a
single delegate in another DAO. The voting itself happens in the delegate
contracts. Several off-chain programs mirror parts of its rules:

- the subgraph that indexes the delegate's events into proposal, vote and
  admin-log entities;
- the web app's store, which merges external DAO proposals with federation
  proposals into one feed;
- the feed item's vote label and "executable" test;
- the voting-power hook, weighted across several tokens;
- the execution bot, which executes the proposals whose window is open;
- a handful of string and encoding helpers: markdown title extraction,
  slug and URL cleaning, the reverse-name lookup with its hand-rolled ABI
  decoding, the deploy command's argument split, and the tests' `address(n)`.

This project models each of these programs as Dafny and proves the rules they
follow. It has one module per source file, plus two shared modules:
`Wrappers` (Option and Result) and `Numerals` (radix strings, padding, bytes).

- **Mutable state is modelled as classes.**
  - `SubgraphStore.Store` is the subgraph entity store. It holds one map per
    entity type, and the handlers are methods on it.
  - `FederationProposal.Proposal` is a feed entry whose `update` assigns its
    fields in place.
  - `ChainStore.Store` holds each federation's published feed, a sequence of
    `Proposal` objects. `setProposalProposed` mutates those shared objects
    even when it does not commit.
  - `NameService.NameLookup` holds the name hook's cache and reducer state.
- **Loops are methods with invariants**, each tied to a specification
  function:
  - the bot's execute loop;
  - the multi-token aggregation;
  - the deploy argument split;
  - the subgraph's token-string fill.
- **Chain reads, UTF-8 decoding and graph-ts `Address.toString` are
  parameters.** The chain's answers are maps or options. The other two are
  functions passed in.
- **JavaScript semantics are written out** where they decide an outcome:
  - optional chaining and `||` defaults;
  - `.toNumber()` on a missing field throws, modelled as a `Result` carrying
    the throwing line;
  - an undefined field compared with `<` is false;
  - `substr` and `substring` clamp;
  - `BigNumber.from("0x")` throws, and so does `toNumber` above 2^53 − 1.

## Model

| member | source | states |
|---|---|---|
| SubgraphStore.BlankProposal | subgraph/src/utils/helpers.ts:32 | a fresh proposal entity has its id and no tallies |
| SubgraphStore.BlankVote | subgraph/src/utils/helpers.ts:14 | a fresh vote entity has its id, no votes and no reason |
| SubgraphStore.Resolved | subgraph/src/utils/helpers.ts:24-38 | a stored entity is returned as loaded; an absent one gives a blank entity exactly when createIfNotFound holds, and null otherwise |
| SubgraphStore.StoredAfter | subgraph/src/utils/helpers.ts:29-38 | the store changes only when the entity is absent, createIfNotFound holds and save is set; it then gains exactly that id |
| SubgraphStore.ResolvedStable | subgraph/src/utils/helpers.ts:11-21 | the helper never overwrites a stored entity; calling it again returns the same entity |
| SubgraphStore.Store.GetOrCreateProposal | subgraph/src/utils/helpers.ts:24-39 | returns Resolved and leaves the store as StoredAfter; the other entity maps are unchanged |
| SubgraphStore.Store.GetOrCreateVote | subgraph/src/utils/helpers.ts:6-22 | the same for votes |
| SubgraphMapping.VoteId | subgraph/src/multitoken-delegate.ts:133-136 | the id is the voter's 40-digit hex, "-" and the decimal proposal id |
| SubgraphMapping.VoteIdInjective | subgraph/src/multitoken-delegate.ts:133-138 | two votes share an id only when voter and proposal are the same: one Vote entity per (voter, proposal) |
| SubgraphMapping.I32Bytes | subgraph/src/multitoken-delegate.ts:36 | four little-endian bytes that spell a log index below 2^32 |
| SubgraphMapping.ProposalKey | subgraph/src/multitoken-delegate.ts:80 | the Proposal entity id is the proposal id in decimal, non-empty, and it reads back as the id, so two ids never share an entity (the same key is formed at lines 97, 104 and 132) |
| SubgraphMapping.LogId | subgraph/src/multitoken-delegate.ts:35-37 | the log entity id is the transaction hash followed by the four bytes of the log index (the same id is formed at lines 51, 66 and 112); LogIdInjective carries its promise |
| SubgraphMapping.LogIdInjective | subgraph/src/multitoken-delegate.ts:36 | admin-log ids of different (transaction, log index) pairs differ |
| SubgraphMapping.Created | subgraph/src/multitoken-delegate.ts:79-94 | creation zeroes the three tallies, sets executed and vetoed false and status Active, and copies proposer, eDAO, ePropID, quorum, start and end |
| SubgraphMapping.Tally | subgraph/src/multitoken-delegate.ts:154-161 | support 0, 1 or 2 adds the votes to against, for or abstain and leaves the other two tallies and every other field unchanged; other support values change nothing; an unset tally aborts |
| SubgraphMapping.MarkExecuted | subgraph/src/multitoken-delegate.ts:96-101 | sets executed and status Executed, tallies and vetoed unchanged |
| SubgraphMapping.MarkVetoed | subgraph/src/multitoken-delegate.ts:103-108 | sets vetoed and status Vetoed, tallies and executed unchanged |
| SubgraphMapping.FlagsStay | subgraph/src/multitoken-delegate.ts:96-161 | later votes keep the executed and vetoed flags; the flag handlers are idempotent |
| SubgraphMapping.VoteOnUnknownAborts | subgraph/src/multitoken-delegate.ts:132-161 | a 0/1/2 vote on a proposal never created finds no tally to add to |
| SubgraphMapping.ReplayTallies | subgraph/src/multitoken-delegate.ts:154-161 | after a run of votes each tally has grown by the total weight cast with its support value |
| SubgraphMapping.CreatedThenVotes | subgraph/src/multitoken-delegate.ts:79-163 | votes after creation never abort, and the tallies are the per-support vote totals |
| SubgraphMapping.CastVote | subgraph/src/multitoken-delegate.ts:140-150 | support is true exactly when supportDetailed is 1, votesRaw equals votes, and reason is stored only when non-empty |
| SubgraphMapping.HandleProposalCreated | subgraph/src/multitoken-delegate.ts:79-94 | the proposal stored under the decimal id is Created of the loaded or blank one; other maps unchanged |
| SubgraphMapping.HandleProposalExecuted | subgraph/src/multitoken-delegate.ts:96-101 | the stored proposal is MarkExecuted of the loaded or blank one |
| SubgraphMapping.HandleProposalVetoed | subgraph/src/multitoken-delegate.ts:103-108 | the stored proposal is MarkVetoed of the loaded or blank one |
| SubgraphMapping.HandleVoteCast | subgraph/src/multitoken-delegate.ts:131-164 | the vote is saved first; the proposal then gets Tally, or stays as it was when the tally aborts |
| SubgraphMapping.ChangeLog | subgraph/src/multitoken-delegate.ts:39-44 | an admin-log entity holds the old and new values, block number, timestamp and transaction hash |
| SubgraphMapping.HandleNewExecWindow | subgraph/src/multitoken-delegate.ts:34-47 | exactly one entity is written, under the log id; nothing else changes |
| SubgraphMapping.HandleNewQuorumBPS | subgraph/src/multitoken-delegate.ts:49-62 | the same for quorum changes |
| SubgraphMapping.HandleNewVetoer | subgraph/src/multitoken-delegate.ts:64-77 | the same for vetoer changes |
| SubgraphMapping.AdminLogsKept | subgraph/src/multitoken-delegate.ts:34-77 | two admin events from different logs both stay recorded |
| SubgraphMapping.TokenStrings | subgraph/src/multitoken-delegate.ts:115-118 | the token list has the event's length, and element i is the string of token i |
| SubgraphMapping.HandleTokensChanged | subgraph/src/multitoken-delegate.ts:110-129 | one new entity holds those strings and the unchanged weights and flags; other entries and maps unchanged |
| FederationProposal.Construct | web/lib/federation/proposal.js:5-27 | votes is the sum of the tallies; proposed holds exactly when the federation record has a truthy id; no record gives zero id, quorum, start and end blocks and tallies, an empty proposer and false flags; an error names one of the lines that read a field |
| FederationProposal.ReadFields | web/lib/federation/proposal.js:6-22 | the constructor's reads in source order; an error names one of the reading lines; ConstructFailsAtFirstBadRead carries its promise |
| FederationProposal.ConstructFailsAtFirstBadRead | web/lib/federation/proposal.js:5-22 | the constructor throws iff some read fails (a numeric field present but not a BigNumber, or a description that is not a string); the line it reports is such a read, and every read before it succeeds |
| FederationProposal.ConstructNouns | web/lib/federation/proposal.js:5-27 | a Nouns-style external proposal always constructs; every field is copied or defaulted as the source assigns it; title and description come from ParseDescription |
| FederationProposal.ConstructBuilderThrows | web/lib/federation/proposal.js:13 | a Builder proposal, whose id is a string, throws at `eProp.id.toNumber()` |
| FederationProposal.Updated | web/lib/federation/proposal.js:29-42 | after update, votes is the sum of the tallies; proposed means a record was given; proposer, quorum, start and end blocks, tallies, vetoed and executed are the record's, or the defaults without one; id, title, description, eDAOKey, eDAO, eID, eProposer, eta and externalEndBlock are unchanged |
| FederationProposal.UpdatedIdempotent | web/lib/federation/proposal.js:29-42 | updating twice with the same record is updating once |
| FederationProposal.UpdatedIsRebuild | web/lib/federation/proposal.js:29-42 | updating an entry built with one record gives the entry built with the new record, except for the federation id |
| FederationProposal.Proposal.Update | web/lib/federation/proposal.js:29-42 | updates the object in place to Updated of its old state and returns the same object |
| FederationProposal.NewProposal | web/lib/federation/proposal.js:5-27 | allocates a fresh entry whose state is Construct's result, or throws where Construct throws |
| ProposalItem.SupportLabel | web/components/daos/proposals/item.js:7-22 | "For" iff for > against, "Against" iff against > for, "Abstain" iff tied and abstain exceeds the tie, "" otherwise |
| ProposalItem.AbstainOnlyOnTie | web/components/daos/proposals/item.js:9-19 | without a tie the label always names the leading side |
| ProposalItem.IsExecutable | web/components/daos/proposals/item.js:27-37 | the "execute" test: proposed, a positive vote count at or above quorum, an execWindow present and the block at most that window before the end block; NotExecutableWhen, ExecutableStays, NoWindowNeverExecutable and AgainstOnlyExecutable carry its promises |
| ProposalItem.NotExecutableWhen | web/components/daos/proposals/item.js:27-37 | not executable while unproposed, while votes are zero or below quorum, or while the block is more than the window before the end block |
| ProposalItem.ExecutableStays | web/components/daos/proposals/item.js:30 | no upper bound: an executable entry stays executable at every later block |
| ProposalItem.NoWindowNeverExecutable | web/components/daos/proposals/item.js:30 | without an execWindow in the federation metadata nothing is executable |
| ProposalItem.AgainstOnlyExecutable | web/components/daos/proposals/item.js:27-37 | an entry whose votes are all against is executable once its window opens |
| ProposalItem.UnproposedNotExecutable | web/components/daos/proposals/item.js:28 | an entry with no federation record is never executable |
| ExecBot.ExecutableFedProposals | bots/src/exec/index.js:54-56 | keeps exactly the logs with endBlock − execWindow <= block <= endBlock |
| ExecBot.WindowBounds | bots/src/exec/index.js:54-56 | a kept proposal has block <= endBlock <= block + execWindow |
| ExecBot.ExecutableConcat | bots/src/exec/index.js:54 | the filter commutes with concatenation, so survivors keep their relative order |
| ExecBot.InWindow | bots/src/exec/index.js:55 | the filter's window test, with `endBlock - execWindow` a signed JavaScript number; ExecutableFedProposals and WindowBounds carry its promises |
| ExecBot.ExecRun | bots/src/exec/index.js:17-23 | the loop as a function: read the flag, execute when it is false, stop at the first throw; a parameter says whether a sent `execute` is mined before the next read; ExecRunFacts, ExecRunInOrder, ExecRunStops and ExecRunDistinct carry its promises |
| ExecBot.ExecRunInOrder | bots/src/exec/index.js:17-23 | the executions follow the list: the executed ids are the listed ids with some left out, in list order |
| ExecBot.ExecRunFacts | bots/src/exec/index.js:17-23 | only listed proposals whose flag was false are executed; afterwards exactly their flags are newly set and no flag is cleared |
| ExecBot.FinalFlags | bots/src/exec/index.js:17-23 | the flags after the run are the flags before it with exactly the called ids set |
| ExecBot.ExecRunStops | bots/src/exec/index.js:13-26 | when the read or the execution for the k-th proposal throws, the run fails and every executed proposal comes before the k-th |
| ExecBot.ExecRunDistinct | bots/src/exec/index.js:17-23 | no proposal is executed twice when each id is listed once, or when each execution is mined before the next read |
| ExecBot.RepeatedIdExecutedTwice | bots/src/exec/index.js:17-23 | when an execution is not mined before the next read, an id listed twice is executed twice |
| ExecBot.ExecRunComplete | bots/src/exec/index.js:13-26 | when no read or execution throws, every kept unexecuted proposal is executed |
| ExecBot.Handler | bots/src/exec/index.js:8-27 | a failed execWindow read makes no calls; otherwise the loop's calls, failure and final flags are those of ExecRun on the filtered logs |
| UserVotes.AggregateUpTo | web/hooks/votes/useUserVotes.js:17-39 | the loop's sum over the first n tokens as a function, None once a read throws; AggregateIsDot and ThrowStops carry its promises |
| UserVotes.AggregateIsDot | web/hooks/votes/useUserVotes.js:17-39 | when every read succeeds, the loop's sum is the sum of weight times holding, where the holding is the balance for a fallback token and the prior votes otherwise |
| UserVotes.ThrowStops | web/hooks/votes/useUserVotes.js:32-35 | a read that throws ends the loop; no partial sum survives |
| UserVotes.UseUserVotes | web/hooks/votes/useUserVotes.js:14-54 | no dao means no reads; single-token mode gives the prior votes; multi-token mode gives the aggregate, or the error, or a rejection when a weight is missing or the sum is 2^53 − 1 or more (ethers v5 `BigNumber.from` refuses such a number) |
| ChainStore.EKey | web/hooks/store/chain/useStore.js:95-103 | multi-type keys are 32-byte hex; single-type Nouns keys are decimal; a single-type Builder id throws at line 102 |
| ChainStore.KeyDecodes | web/hooks/store/chain/useStore.js:97-107 | a multi-type key is "0x" and hex digits that decode to the id, 66 long below 16^64; a single-type key decodes in decimal |
| ChainStore.KeysMatch | web/hooks/store/chain/useStore.js:95-114 | the external and federation keys agree iff the federation proposal names that external id |
| ChainStore.KeyBy | web/hooks/store/chain/useStore.js:95-109 | the keyed map exists iff every key can be formed, and then holds every entry's key, each mapped to an entry with that key; otherwise the error is one of a key's |
| ChainStore.KeyByLastWins | web/hooks/store/chain/useStore.js:95-109 | the entry kept for a key is the last one with that key |
| ChainStore.KeyFed | web/hooks/store/chain/useStore.js:105-109 | every federation proposal's key is present, and each key maps to a proposal with that key |
| ChainStore.KeyFedLastWins | web/hooks/store/chain/useStore.js:105-109 | the proposal kept for a key is the last with that key |
| ChainStore.KeyExternal | web/hooks/store/chain/useStore.js:95-103 | succeeds iff every external key succeeds; then every proposal's key is present and maps to a proposal with that key |
| ChainStore.FKey | web/hooks/store/chain/useStore.js:105-108 | the federation key of a record, built from its ePropID as EKey builds the external key; KeysMatch carries its promise |
| ChainStore.Keep | web/hooks/store/chain/useStore.js:120-136 | the merge's two drop rules per proposal kind; UnproposedExpires, ProposedNounsKept and BuilderDefeatedKept carry its promises |
| ChainStore.UnproposedExpires | web/hooks/store/chain/useStore.js:120-133 | an unproposed Nouns proposal is kept iff block < endBlock, a Builder one iff timestamp < voteEnd |
| ChainStore.ProposedNounsKept | web/hooks/store/chain/useStore.js:126 | a proposed Nouns entry is kept iff executed or block <= its federation endBlock |
| ChainStore.BuilderDefeatedKept | web/hooks/store/chain/useStore.js:136 | a proposed Builder entry is always kept, because federation records carry no voteEnd |
| ChainStore.Arguments | web/hooks/store/chain/useStore.js:128-138 | the intended call passes the external and federation records; the written call passes blockNumber and eProp |
| ChainStore.Entry | web/hooks/store/chain/useStore.js:120-138 | dropped entries give nothing; a built entry has summed votes and the DAO's key |
| ChainStore.AsWrittenThrows | web/hooks/store/chain/useStore.js:128-138 | as written, every kept entry throws: line 13 for Nouns, line 6 for Builder |
| ChainStore.IntendedEntry | web/hooks/store/chain/useStore.js:120-138 | with the intended call, a kept Nouns proposal becomes an entry with its id and end block, proposed iff it has a federation proposal; a Builder one throws at line 13 |
| ChainStore.KeptKeys | web/hooks/store/chain/useStore.js:111-140 | the keys, in order, whose proposal the merge keeps: a key is in it iff it is one of the keys and Keep holds for it |
| ChainStore.Normalize | web/hooks/store/chain/useStore.js:111-140 | a successful merge has exactly one entry per kept key, each with summed votes and the DAO's key |
| ChainStore.NormalizeAsWritten | web/hooks/store/chain/useStore.js:111-140 | as written, a DAO's merge succeeds iff it keeps nothing, and then it is empty |
| ChainStore.NormalizeIntended | web/hooks/store/chain/useStore.js:111-140 | with the intended call, an all-Nouns DAO merges, and its i-th entry is about the proposal of the i-th kept key (same eID), proposed iff that key has a federation proposal |
| ChainStore.Compare | web/hooks/store/chain/useStore.js:152-166 | 1 exactly when only b is proposed, and -1 otherwise |
| ChainStore.CompareInconsistent | web/hooks/store/chain/useStore.js:161-165 | two entries with the same proposed flag each compare before the other |
| ChainStore.FeedOrder | web/hooks/store/chain/useStore.js:148-166 | a permutation in which every proposed entry precedes every unproposed one and every pair compares -1 |
| ChainStore.FilterInactive | web/hooks/store/chain/useStore.js:250-256 | keeps exactly the entries that are not vetoed |
| ChainStore.FilterKeepsProposedFirst | web/hooks/store/chain/useStore.js:167 | filtering preserves proposed-first order |
| ChainStore.Concat | web/hooks/store/chain/useStore.js:148-151 | the concatenation holds exactly the DAOs' entries |
| ChainStore.Feed | web/hooks/store/chain/useStore.js:148-167 | the published feed: concatenate, order proposed-first, drop the vetoed; FeedFacts carries its promise |
| ChainStore.FeedFacts | web/hooks/store/chain/useStore.js:148-167 | the feed is proposed-first and holds exactly the non-vetoed entries of all DAOs, each as many times as the DAOs hold it, so no copy is dropped |
| ChainStore.Marked | web/hooks/store/chain/useStore.js:230-231 | a marked entry is proposed with the new id and keeps summed votes |
| ChainStore.MarkedIdempotent | web/hooks/store/chain/useStore.js:221-235 | marking twice with the same id is marking once |
| ChainStore.AlreadyProposedDistinct | web/hooks/store/chain/useStore.js:223-228 | with distinct entry objects, the flag is true iff a matching entry was proposed beforehand |
| ChainStore.MarkProposed | web/hooks/store/chain/useStore.js:230-231 | the entry's state becomes Marked of its old state |
| ChainStore.Store.Publish | web/hooks/store/chain/useStore.js:169-175 | the key's feed becomes fresh distinct entries holding the given records, and one commit happens |
| ChainStore.Matches | web/hooks/store/chain/useStore.js:204 | an entry is the one to mark or refresh iff its eDAOKey and eID both equal the given ones (the same test is at line 225); the SetProposalProposed and RefreshProposal ensures carry its promise |
| ChainStore.Store.SetProposalProposed | web/hooks/store/chain/useStore.js:221-246 | every matching entry is Marked and every other is unchanged; the store commits iff no matching entry was already proposed; a missing key throws |
| ChainStore.Store.RefreshProposal | web/hooks/store/chain/useStore.js:195-220 | matching entries become Updated with the fetched record; others are identical; the list is committed |
| Parsing.ExtractTitle | web/lib/federation/parsing.js:23-28 | an empty body has no title; a `#` heading wins over an underlined one; a title is a non-empty single line |
| Parsing.HashTitle | web/lib/federation/parsing.js:5-12 | a found title is a non-empty line that occurs in the body |
| Parsing.HashTitleOf | web/lib/federation/parsing.js:5-12 | white space, one to six '#', white space and a line give that line |
| Parsing.SevenHashesNoTitle | web/lib/federation/parsing.js:5 | seven '#' are not a heading |
| Parsing.HashTitleBacktracks | web/lib/federation/parsing.js:5 | the greedy `\s+` gives back a white-space character when nothing else follows |
| Parsing.EqualTitle | web/lib/federation/parsing.js:6-17 | a found title is a non-empty line that occurs in the body |
| Parsing.EqualTitleOf | web/lib/federation/parsing.js:6-17 | a first line followed by a line break and "===" or "---" is the title |
| Parsing.ReplacePair | web/lib/federation/parsing.js:30-31 | a global replace of a two-character pattern, scanning left to right without overlap; ReplacePairNone carries its promise |
| Parsing.ReplacePairNone | web/lib/federation/parsing.js:30-31 | text without the pattern is unchanged |
| Parsing.RemovePair | web/lib/federation/parsing.js:30-31 | `replace(/\*\*/g, "")` and `replace(/__/g, "")`; RemovePairKeepsOthers, RemovePairHead and RemovePairComplete carry its promises |
| Parsing.RemovePairKeepsOthers | web/lib/federation/parsing.js:30-31 | removing a doubled character removes nothing else |
| Parsing.RemovePairHead | web/lib/federation/parsing.js:30-31 | a text not starting with the character keeps its first character |
| Parsing.RemovePairComplete | web/lib/federation/parsing.js:30-31 | no doubled character is left |
| Parsing.RemoveMarkdownStyle | web/lib/federation/parsing.js:30-32 | no "**" is left, and only '*' and '_' are removed |
| Parsing.StyleOrder | web/lib/federation/parsing.js:32 | italics go first, so "_**_" becomes "__" |
| Parsing.Unescape | web/lib/federation/parsing.js:35 | `replace(/\\n/g, "\n")`; UnescapeHead and UnescapeComplete carry its promises |
| Parsing.UnescapeHead | web/lib/federation/parsing.js:35 | a text not starting with a backslash keeps its first character |
| Parsing.UnescapeComplete | web/lib/federation/parsing.js:35 | no literal backslash-n is left |
| Parsing.StripQuotes | web/lib/federation/parsing.js:35 | a leading quote and a trailing quote are each removed when present, one-sided cases included; a lone quote becomes ""; an unquoted text is unchanged; at most two characters go |
| Parsing.ParseDescription | web/lib/federation/parsing.js:34-40 | a missing description reads as ""; desc is the unescaped, unquoted text; the title is the style-free extracted title, or "Untitled" |
| Strings.CleanName | web/lib/strings.js:1-3 | same length, no spaces, each space becomes '-', and every other character is lower-cased |
| Strings.CleanNameAscii | web/lib/strings.js:2 | on ASCII input the result is ASCII without capitals, and cleaning is idempotent |
| Strings.CleanURL | web/lib/strings.js:5-7 | the result is a suffix of the input |
| Strings.CleanURLStripsScheme | web/lib/strings.js:6 | a word-character scheme and "://" are removed |
| Strings.CleanURLUnchanged | web/lib/strings.js:6 | without such a prefix or a leading "//" the URL is unchanged |
| Strings.CleanURLProtocolRelative | web/lib/strings.js:6 | a leading "//" is removed |
| Strings.CleanURLOnce | web/lib/strings.js:6 | only one prefix is removed |
| NameService.Substr | web/hooks/ns/useNNSorENS.js:9 | the in-range part of the requested span: the whole span when it fits, the rest of the string from `start` when the span runs past the end, and "" when `start` is at or past the end |
| NameService.ShortAddress | web/hooks/ns/useNNSorENS.js:9 | for a full address, characters 0–3, "..." and characters 38–41 |
| NameService.Reduce | web/hooks/ns/useNNSorENS.js:15-24 | FETCHING gives loading with "", FETCHED gives not loading with the address, and any other action leaves the state |
| NameService.RunLastKnown | web/hooks/ns/useNNSorENS.js:15-24 | after a run of actions the state is what the last known action makes of the initial state |
| NameService.RunUnknown | web/hooks/ns/useNNSorENS.js:21-22 | unknown actions leave the state unchanged |
| NameService.Calldata | web/hooks/ns/useNNSorENS.js:30 | the selector and 24 zero digits, followed by the address without "0x" |
| NameService.CalldataIsAbiWord | web/hooks/ns/useNNSorENS.js:30 | for a 20-byte address the calldata is the selector and one 32-byte word holding the address |
| NameService.Slice | web/hooks/ns/useNNSorENS.js:32-34 | the requested bytes when they are all present; the bytes from `start` to the end when `end` passes the end of the data (a truncated answer); nothing when `start` is past the end |
| NameService.ToNumber | web/hooks/ns/useNNSorENS.js:32-33 | defined exactly for non-empty values up to 2^53 − 1, where it is the big-endian value |
| NameService.DecodeName | web/hooks/ns/useNNSorENS.js:32-35 | a decoded name is non-empty and needs a readable offset word |
| NameService.LookupAddress | web/hooks/ns/useNNSorENS.js:26-39 | a failed call or a decoding failure gives null; a name is never empty |
| NameService.DecodeEncoded | web/hooks/ns/useNNSorENS.js:32-35 | decoding the ABI encoding of a string gives back its bytes' text, or null when that text is empty |
| NameService.NameLookup.Refresh | web/hooks/ns/useNNSorENS.js:41-66 | a cached address is answered without a lookup; otherwise one lookup is made, and a found name is cached (and shown unless cancelled) while no name caches and shows the short address |
| DeployMultiToken.InterleaveAt | contracts/tasks/deploy-multi-token.js:16-22 | interleaving puts tokens[i] at 2i and weights[i] at 2i+1 |
| DeployMultiToken.InterleaveOfSplit | contracts/tasks/deploy-multi-token.js:16-22 | lists taken at even and odd positions interleave back to the input |
| DeployMultiToken.SplitTokensAndWeights | contracts/tasks/deploy-multi-token.js:12-31 | odd length is refused; otherwise tokens[i] = args[2i] and weights[i] = args[2i+1], each n/2 long, and they interleave back to the input |
| TestUtils.Address | contracts/test/utils.js:177-179 | `address(n)`: "0x" and n in hex padded to 40 digits, never truncated; AddressRoundTrip, AddressLength, AddressZero and AddressInjective carry its promise |
| TestUtils.AddressRoundTrip | contracts/test/utils.js:178 | "0x" followed by lower-case hex digits that parse back to n |
| TestUtils.AddressLength | contracts/test/utils.js:178 | exactly 42 characters iff n < 16^40, longer otherwise |
| TestUtils.AddressZero | contracts/test/utils.js:178 | address(0) is "0x" and forty zeros |
| TestUtils.AddressInjective | contracts/test/utils.js:177-179 | distinct numbers give distinct addresses |
| Numerals.PaddedHexFacts | contracts/test/utils.js:178 | "0x", hex digits that decode to n, and length width + 2 iff n < 16^width |

## Left out

- RPC and log plumbing is not modelled. That covers fetching proposals and
  logs, `getFedProposals`, `getTreasuryMeta`, `ensureNested`, the provider
  and signer setup, and the fetch of `fedMeta`. Their results are
  parameters: the record handed to `RefreshProposal`, the chain answers, and
  `execWindow`.
- Concurrency is not modelled: async ordering, `Promise.all`, and when the
  effect's cancel flag is set. `cancelled` is a parameter of `Refresh`.
- The catch branch of the name effect (lines 62–65) is not modelled,
  because `lookupAddress` never throws.
- The spread merge `{...p, ...found}` that forms a federation record is not
  modelled. The records come in already merged.
- A federation proposal whose `find` fails is not modelled. The record is
  assumed to be found.
- ChainStore.FKey / ChainStore.EKey: `toNumber` overflow above 2^53 − 1 is
  not modelled. Neither is `hexZeroPad`'s throw for ids of 2^256 or more.
  Ids are unbounded naturals.
- FederationProposal.Construct: `toNumber` overflow on the numeric fields is
  not modelled.
- The feed's order within the proposed and unproposed groups is not
  specified. The comparator reads a field that is never set, so it is
  inconsistent, and the engine's resulting order is unspecified.
  `FeedOrder` fixes one stable partition and states only what every
  outcome of the sort shares.
- Object key order in `Object.keys` is not modelled. The merge takes the
  keys as a parameter.
- `Strings.CleanName` lower-cases ASCII letters only. Full Unicode case
  mapping is not modelled.
- UTF-8 decoding (`toUtf8String`) is a parameter.
- graph-ts `Address.toString` is a parameter.
- The subgraph's status strings are not modelled. They live in the
  subgraph's constants module, which is not part of this model. `Status` is
  an enumeration.
- `toI32` is taken as the low 32 bits of the log index. Indices of 2^31 and
  above are not distinguished from their wrap-around.
- When graph-node aborts a handler, it rolls back the whole block. This
  model keeps the vote saved before a tally abort, as the handler's own
  order has it, and does not model the rollback.
- UserVotes.UseUserVotes: `rep * weight` is computed with unbounded
  naturals. JavaScript number rounding is not modelled. The only bound
  modelled is the final `BigNumber.from` of ethers v5 refusing any value of
  2^53 − 1 or more.
- ExecRunDistinct: assumes either that each id is listed once or that each
  sent `execute` transaction is mined before the bot's next read. Without
  both, an id listed twice is executed twice (RepeatedIdExecutedTwice). The
  delegate contract emits `ProposalCreated` once per id, so its logs list
  each id once, but the contract is not part of this model.
- ExecBot.ExecRun: mining is reduced to one choice per run (`minedAtOnce`:
  every sent transaction is mined before the next read, or none is). A
  transaction that is sent and later reverts on chain is not modelled. Logging a
  proposal that is about to be executed calls `toNumber` on its id, which
  throws for an id above 2^53 − 1 and ends the run before that `execute`;
  the model takes that log call to succeed.
- The bot's `console.log` output and the hook's `console.error` output are
  not modelled.

## Findings

| source | as written | input that shows it | evidently intended | confidence | as-written member | corrected member |
|---|---|---|---|---|---|---|
| web/hooks/store/chain/useStore.js:128 and :138 | `new Proposal(n, blockNumber, eProp, fProp)` passes four arguments to a three-parameter constructor. Every kept entry then throws: a Nouns entry at proposal.js:13, because `eProp` is the BigNumber `blockNumber`, which has no `id`; a Builder entry at proposal.js:6, where it reads a builder proposal's string id | any DAO with one Nouns-style proposal still open (endBlock above the current block) and no federation proposal | `new Proposal(n, eProp, fProp)` | not executed | ChainStore.NormalizeAsWritten | ChainStore.NormalizeIntended |
