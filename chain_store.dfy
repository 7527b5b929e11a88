/**
  The client's chain store (`useStore`): how the proposal feed of a
  federation is assembled from the proposals of its external DAOs and its
  own federation proposals, and the two operations that change feed entries
  in place after a vote has been proposed or refreshed.

  The chain reads are parameters: the external proposals and federation
  records as the merge sees them, and the latest block's number and
  timestamp.
 */
module ChainStore {
  import opened Wrappers
  import opened Numerals
  import opened FederationProposal

  // ---------------------------------------------------------------------
  // Keying

  /** The key of an external proposal in `eKeyByPropID`. A multi-type
      federation keys by bytes32: a Nouns id (a BigNumber) is turned into
      hex and zero-padded to 32 bytes, a Builder id is already such a
      string. A single-type federation keys by `id.toNumber()`, which a
      Builder id (a string) does not have: the call throws (line 102). */
  function EKey(multiType: bool, e: ExternalProposal): (r: Result<string, nat>)
    ensures r.Err? <==> !multiType && e.Builder?
    ensures r.Err? ==> r.error == 102
  {
    if multiType then
      if e.Nouns? then Ok(PaddedHex(e.id, 64)) else Ok(Bytes32(e.id))
    else if e.Nouns? then Ok(ToRadix(e.id, 10))
    else Err(102)
  }

  /** The key of a federation proposal in `fKeyByEPropID`: the bytes32
      `ePropID` itself for a multi-type federation, `ePropID.toNumber()`
      otherwise. */
  function FKey(multiType: bool, f: FedRecord): string {
    if multiType then Bytes32(f.ePropID) else ToRadix(f.ePropID, 10)
  }

  /** A key spells the id it was made from: "0x" and 64 hex digits for a
      multi-type federation (for ids below 2^256), decimal digits
      otherwise. */
  lemma KeyDecodes(multiType: bool, e: ExternalProposal, f: FedRecord)
    requires EKey(multiType, e).Ok?
    ensures multiType ==> var k := EKey(multiType, e).value;
                          k[..2] == "0x" && FromRadix(k[2..], 16) == e.id && (e.id < Pow(16, 64) ==> |k| == 66)
    ensures multiType ==> var k := FKey(multiType, f);
                          k[..2] == "0x" && FromRadix(k[2..], 16) == f.ePropID && (f.ePropID < Pow(16, 64) ==> |k| == 66)
    ensures !multiType ==> FromRadix(EKey(multiType, e).value, 10) == e.id && FromRadix(FKey(multiType, f), 10) == f.ePropID
  {
    if multiType {
      PaddedHexFacts(e.id, 64);
      PaddedHexFacts(f.ePropID, 64);
    } else {
      ToRadixRoundTrip(e.id, 10);
      ToRadixRoundTrip(f.ePropID, 10);
    }
  }

  /** The two keys agree exactly when the federation proposal is about the
      external proposal: zero-padding makes a Nouns id match the bytes32
      `ePropID` of a multi-type federation. */
  lemma KeysMatch(multiType: bool, e: ExternalProposal, f: FedRecord)
    requires EKey(multiType, e).Ok?
    ensures EKey(multiType, e).value == FKey(multiType, f) <==> e.id == f.ePropID
  {
    if EKey(multiType, e).value == FKey(multiType, f) {
      if multiType {
        PaddedHexInjective(e.id, f.ePropID, 64);
      } else {
        DecimalInjective(e.id, f.ePropID);
      }
    }
  }

  /** Entries keyed by `key`, built one entry at a time as the source's
      loops do: a later entry replaces an earlier one with the same key, and
      the first key that cannot be formed ends the build with its error. */
  function KeyBy<E>(key: E -> Result<string, nat>, es: seq<E>): (r: Result<map<string, E>, nat>)
    ensures r.Ok? <==> forall i :: 0 <= i < |es| ==> key(es[i]).Ok?
    ensures r.Ok? ==> forall i :: 0 <= i < |es| ==> key(es[i]).value in r.value
    ensures r.Ok? ==> forall k :: k in r.value ==> r.value[k] in es && key(r.value[k]) == Ok(k)
    ensures r.Err? ==> exists i :: 0 <= i < |es| && key(es[i]) == Err(r.error)
  {
    if es == [] then Ok(map[])
    else
      var init, last := es[..|es| - 1], es[|es| - 1];
      assert forall i :: 0 <= i < |init| ==> init[i] == es[i];
      var prior := KeyBy(key, init);
      if prior.Err? then Err(prior.error)
      else if key(last).Err? then Err(key(last).error)
      else
        assert forall e :: e in init ==> e in es;
        Ok(prior.value[key(last).value := last])
  }

  /** The entry kept for a key is the last one with that key. */
  lemma {:induction false} KeyByLastWins<E>(key: E -> Result<string, nat>, es: seq<E>, i: nat)
    requires i < |es| && KeyBy(key, es).Ok?
    requires forall j :: i < j < |es| ==> key(es[j]) != key(es[i])
    ensures KeyBy(key, es).value[key(es[i]).value] == es[i]
  {
    var init := es[..|es| - 1];
    assert forall j :: 0 <= j < |init| ==> init[j] == es[j];
    if i < |es| - 1 {
      KeyByLastWins(key, init, i);
    }
  }

  /** `FKey` for one kind of federation, as a key function that never
      fails. */
  function FedKeyer(multiType: bool): FedRecord -> Result<string, nat> {
    (f: FedRecord) => Ok(FKey(multiType, f))
  }

  /** `fKeyByEPropID`: the federation proposals by key; a later proposal
      replaces an earlier one with the same key. */
  function KeyFed(multiType: bool, fs: seq<FedRecord>): (m: map<string, FedRecord>)
    ensures forall i :: 0 <= i < |fs| ==> FKey(multiType, fs[i]) in m
    ensures forall k :: k in m ==> m[k] in fs && FKey(multiType, m[k]) == k
  {
    KeyBy(FedKeyer(multiType), fs).value
  }

  /** The record kept for a key is the last one with that key. */
  lemma KeyFedLastWins(multiType: bool, fs: seq<FedRecord>, i: nat)
    requires i < |fs|
    requires forall j :: i < j < |fs| ==> FKey(multiType, fs[j]) != FKey(multiType, fs[i])
    ensures KeyFed(multiType, fs)[FKey(multiType, fs[i])] == fs[i]
  {
    KeyByLastWins(FedKeyer(multiType), fs, i);
  }

  /** `eKeyByPropID`: the external proposals by key, or the line that throws
      when a key cannot be formed. */
  function KeyExternal(multiType: bool, es: seq<ExternalProposal>): (r: Result<map<string, ExternalProposal>, nat>)
    ensures r.Ok? <==> forall i :: 0 <= i < |es| ==> EKey(multiType, es[i]).Ok?
    ensures r.Ok? ==> forall i :: 0 <= i < |es| ==> EKey(multiType, es[i]).value in r.value
    ensures r.Ok? ==> forall k :: k in r.value ==> r.value[k] in es && EKey(multiType, r.value[k]) == Ok(k)
    ensures r.Err? ==> r.error == 102
  {
    KeyBy((e: ExternalProposal) => EKey(multiType, e), es)
  }

  // ---------------------------------------------------------------------
  // The keep/drop rule

  /** `o?.<name> < bound` in JavaScript: an undefined field makes the
      comparison false. */
  predicate FieldBelow(o: Option<JsObject>, name: string, bound: nat) {
    o.Some? && name in o.value
    && match o.value[name]
       case JsBig(n) => n < bound
       case JsNum(k) => k < bound
       case _ => false
  }

  /** Whether the merge keeps an external proposal, given the federation
      proposal with its key (if any). A Nouns-style proposal is dropped when
      nobody proposed it and its end block has come, or when its
      federation vote ended before this block without execution. A Builder
      proposal is dropped when nobody proposed it and its vote end has come;
      its "defeated" rule reads `fProp?.voteEnd`, a field federation records
      do not have. */
  predicate Keep(e: ExternalProposal, f: Option<FedRecord>, blockNumber: nat, blockTimestamp: nat) {
    if e.Nouns? then
      && !(f.None? && e.endBlock <= blockNumber)
      && !(f.Some? && f.value.endBlock < blockNumber && !f.value.executed)
    else
      && !(f.None? && e.voteEnd <= blockTimestamp)
      && !(FieldBelow(FedArg(f), "voteEnd", blockTimestamp) && !BoolField(FedArg(f), "executed"))
  }

  /** An external proposal nobody proposed stays in the feed exactly until
      its end (block for Nouns, timestamp for Builder). */
  lemma UnproposedExpires(e: ExternalProposal, blockNumber: nat, blockTimestamp: nat)
    ensures e.Nouns? ==> (Keep(e, None, blockNumber, blockTimestamp) <==> blockNumber < e.endBlock)
    ensures e.Builder? ==> (Keep(e, None, blockNumber, blockTimestamp) <==> blockTimestamp < e.voteEnd)
  {
  }

  /** A Nouns-style proposal with a federation proposal is dropped exactly
      when the federation vote ended before this block and was not
      executed. */
  lemma ProposedNounsKept(e: ExternalProposal, f: FedRecord, blockNumber: nat, blockTimestamp: nat)
    requires e.Nouns?
    ensures Keep(e, Some(f), blockNumber, blockTimestamp) <==> f.executed || blockNumber <= f.endBlock
  {
  }

  /** A Builder proposal with a federation proposal is always kept: the
      "defeated" rule never drops it, whatever the vote's end and outcome. */
  lemma BuilderDefeatedKept(e: ExternalProposal, f: FedRecord, blockNumber: nat, blockTimestamp: nat)
    requires e.Builder?
    ensures Keep(e, Some(f), blockNumber, blockTimestamp)
  {
  }

  // ---------------------------------------------------------------------
  // Building the entries

  /** How the merge calls the `Proposal` constructor. */
  datatype Call =
    | AsWritten  // `new Proposal(n, blockNumber, eProp, fProp)`
    | Intended   // `new Proposal(n, eProp, fProp)`

  /** The object `blockNumber` is: an ethers BigNumber, whose own fields are
      `_hex` and `_isBigNumber`. */
  function BigNumberObject(n: nat): (o: JsObject)
    ensures "id" !in o && "description" !in o
  {
    map["_hex" := JsStr("0x" + ToRadix(n, 16)), "_isBigNumber" := JsBool(true)]
  }

  /** The constructor's arguments under each call. With four arguments the
      constructor, which takes three, sees the block number as the external
      proposal and the external proposal as the federation record; the
      federation record is dropped. */
  function Arguments(call: Call, e: ExternalProposal, f: Option<FedRecord>, blockNumber: nat): (args: (Option<JsObject>, Option<JsObject>))
    ensures call.Intended? ==> args == (Some(ExternalObject(e)), FedArg(f))
  {
    match call
    case AsWritten => (Some(BigNumberObject(blockNumber)), Some(ExternalObject(e)))
    case Intended => (Some(ExternalObject(e)), FedArg(f))
  }

  /** One external proposal of the merge: dropped (None), an entry, or the
      line of the constructor that throws. */
  function Entry(call: Call, net: NetworkAddress, e: ExternalProposal, f: Option<FedRecord>,
                 blockNumber: nat, blockTimestamp: nat): (r: Result<Option<ProposalRecord>, nat>)
    ensures !Keep(e, f, blockNumber, blockTimestamp) ==> r == Ok(None)
    ensures r.Ok? && r.value.Some? ==> VotesSummed(r.value.value) && r.value.value.eDAOKey == net.key
  {
    if !Keep(e, f, blockNumber, blockTimestamp) then Ok(None)
    else
      var (eProp, fProp) := Arguments(call, e, f, blockNumber);
      var p :- Construct(net, eProp, fProp);
      Ok(Some(p))
  }

  /** As written, every entry the merge keeps throws: a Nouns proposal at
      line 13 (`blockNumber.id` is undefined), a Builder proposal at line 6
      (its string id has no `toNumber`). */
  lemma AsWrittenThrows(net: NetworkAddress, e: ExternalProposal, f: Option<FedRecord>, blockNumber: nat, blockTimestamp: nat)
    requires Keep(e, f, blockNumber, blockTimestamp)
    ensures Entry(AsWritten, net, e, f, blockNumber, blockTimestamp) == Err(if e.Nouns? then 13 else 6)
  {
  }

  /** With the intended call a kept Nouns-style proposal becomes an entry
      about it, proposed exactly when it has a federation proposal; a Builder
      proposal still throws at line 13, because its id is a string. */
  lemma IntendedEntry(net: NetworkAddress, e: ExternalProposal, f: Option<FedRecord>, blockNumber: nat, blockTimestamp: nat)
    requires Keep(e, f, blockNumber, blockTimestamp)
    ensures e.Builder? ==> Entry(Intended, net, e, f, blockNumber, blockTimestamp) == Err(13)
    ensures e.Nouns? ==> var r := Entry(Intended, net, e, f, blockNumber, blockTimestamp);
                         && r.Ok? && r.value.Some?
                         && r.value.value.eID == e.id && r.value.value.externalEndBlock == e.endBlock
                         && (r.value.value.proposed <==> f.Some?)
  {
    if e.Nouns? {
      ConstructNouns(net, e, f);
    } else {
      ConstructBuilderThrows(net, e, f);
    }
  }

  /** The federation proposal an external key finds, if any. */
  function Lookup(fed: map<string, FedRecord>, k: string): Option<FedRecord> {
    if k in fed then Some(fed[k]) else None
  }

  /** The keys, in order, whose external proposal the merge keeps. */
  function KeptKeys(keys: seq<string>, eMap: map<string, ExternalProposal>, fed: map<string, FedRecord>,
                    blockNumber: nat, blockTimestamp: nat): (kept: seq<string>)
    requires forall k :: k in keys ==> k in eMap
    ensures forall k :: k in kept <==> k in keys && Keep(eMap[k], Lookup(fed, k), blockNumber, blockTimestamp)
    ensures |kept| <= |keys|
  {
    if keys == [] then []
    else
      var k := keys[0];
      var rest := KeptKeys(keys[1..], eMap, fed, blockNumber, blockTimestamp);
      if Keep(eMap[k], Lookup(fed, k), blockNumber, blockTimestamp) then [k] + rest else rest
  }

  /** `Object.keys(eKeyByPropID).map(...).filter((f) => f)`: the entries of
      the kept proposals, in key order, or the first line that throws. */
  function Normalize(call: Call, net: NetworkAddress, keys: seq<string>, eMap: map<string, ExternalProposal>,
                     fed: map<string, FedRecord>, blockNumber: nat, blockTimestamp: nat): (r: Result<seq<ProposalRecord>, nat>)
    requires forall k :: k in keys ==> k in eMap
    ensures r.Ok? ==> |r.value| == |KeptKeys(keys, eMap, fed, blockNumber, blockTimestamp)|
    ensures r.Ok? ==> forall x :: x in r.value ==> VotesSummed(x) && x.eDAOKey == net.key
  {
    if keys == [] then Ok([])
    else
      var k := keys[0];
      var x :- Entry(call, net, eMap[k], Lookup(fed, k), blockNumber, blockTimestamp);
      var rest :- Normalize(call, net, keys[1..], eMap, fed, blockNumber, blockTimestamp);
      if x.Some? then Ok([x.value] + rest) else Ok(rest)
  }

  /** As written, the merge of a DAO succeeds only when it keeps nothing,
      and then its feed is empty. */
  lemma {:induction false} NormalizeAsWritten(net: NetworkAddress, keys: seq<string>, eMap: map<string, ExternalProposal>,
                                              fed: map<string, FedRecord>, blockNumber: nat, blockTimestamp: nat)
    requires forall k :: k in keys ==> k in eMap
    ensures Normalize(AsWritten, net, keys, eMap, fed, blockNumber, blockTimestamp).Ok?
            <==> forall i :: 0 <= i < |keys| ==> !Keep(eMap[keys[i]], Lookup(fed, keys[i]), blockNumber, blockTimestamp)
    ensures Normalize(AsWritten, net, keys, eMap, fed, blockNumber, blockTimestamp).Ok? ==>
            Normalize(AsWritten, net, keys, eMap, fed, blockNumber, blockTimestamp).value == []
  {
    if keys != [] {
      var k := keys[0];
      NormalizeAsWritten(net, keys[1..], eMap, fed, blockNumber, blockTimestamp);
      if Keep(eMap[k], Lookup(fed, k), blockNumber, blockTimestamp) {
        AsWrittenThrows(net, eMap[k], Lookup(fed, k), blockNumber, blockTimestamp);
      } else {
        assert forall i :: 1 <= i < |keys| ==> keys[i] == keys[1..][i - 1];
      }
    }
  }

  /** The i-th entry is about the external proposal with the i-th key, and
      is proposed exactly when that key has a federation proposal. */
  predicate EntriesMatch(r: seq<ProposalRecord>, kept: seq<string>, eMap: map<string, ExternalProposal>,
                         fed: map<string, FedRecord>)
  {
    && |r| == |kept|
    && forall i :: 0 <= i < |kept| ==> kept[i] in eMap && r[i].eID == eMap[kept[i]].id && (r[i].proposed <==> kept[i] in fed)
  }

  lemma EntriesMatchCons(x: ProposalRecord, k: string, r: seq<ProposalRecord>, kept: seq<string>,
                         eMap: map<string, ExternalProposal>, fed: map<string, FedRecord>)
    requires k in eMap && x.eID == eMap[k].id && (x.proposed <==> k in fed)
    requires EntriesMatch(r, kept, eMap, fed)
    ensures EntriesMatch([x] + r, [k] + kept, eMap, fed)
  {
    forall i | 1 <= i < |kept| + 1
      ensures ([k] + kept)[i] in eMap && ([x] + r)[i].eID == eMap[([k] + kept)[i]].id
              && (([x] + r)[i].proposed <==> ([k] + kept)[i] in fed)
    {
      assert ([x] + r)[i] == r[i - 1] && ([k] + kept)[i] == kept[i - 1];
    }
  }

  /** With the intended call a DAO whose proposals are all Nouns-style
      builds its feed without error: one entry per kept proposal, proposed
      exactly when a federation proposal has the same key. */
  lemma {:induction false} NormalizeIntended(net: NetworkAddress, keys: seq<string>, eMap: map<string, ExternalProposal>,
                                             fed: map<string, FedRecord>, blockNumber: nat, blockTimestamp: nat)
    requires forall k :: k in keys ==> k in eMap && eMap[k].Nouns?
    ensures Normalize(Intended, net, keys, eMap, fed, blockNumber, blockTimestamp).Ok?
    ensures EntriesMatch(Normalize(Intended, net, keys, eMap, fed, blockNumber, blockTimestamp).value,
                         KeptKeys(keys, eMap, fed, blockNumber, blockTimestamp), eMap, fed)
  {
    if keys != [] {
      var k := keys[0];
      NormalizeIntended(net, keys[1..], eMap, fed, blockNumber, blockTimestamp);
      var r := Normalize(Intended, net, keys, eMap, fed, blockNumber, blockTimestamp).value;
      var rest := Normalize(Intended, net, keys[1..], eMap, fed, blockNumber, blockTimestamp).value;
      var kept := KeptKeys(keys, eMap, fed, blockNumber, blockTimestamp);
      var keptRest := KeptKeys(keys[1..], eMap, fed, blockNumber, blockTimestamp);
      if Keep(eMap[k], Lookup(fed, k), blockNumber, blockTimestamp) {
        IntendedEntry(net, eMap[k], Lookup(fed, k), blockNumber, blockTimestamp);
        var x := Entry(Intended, net, eMap[k], Lookup(fed, k), blockNumber, blockTimestamp).value.value;
        assert r == [x] + rest && kept == [k] + keptRest;
        EntriesMatchCons(x, k, rest, keptRest, eMap, fed);
      } else {
        assert r == rest && kept == keptRest;
      }
    }
  }

  // ---------------------------------------------------------------------
  // The feed: all DAOs' entries, proposed first, inactive ones filtered out

  /** The elements of `xs` satisfying `p`, in order. */
  function Filter(xs: seq<ProposalRecord>, p: ProposalRecord -> bool): (r: seq<ProposalRecord>)
    ensures |r| <= |xs|
    ensures forall x :: x in r <==> x in xs && p(x)
  {
    if xs == [] then []
    else
      assert forall x :: x in xs <==> x == xs[0] || x in xs[1..];
      if p(xs[0]) then [xs[0]] + Filter(xs[1..], p) else Filter(xs[1..], p)
  }

  lemma {:induction false} FilterSplits(xs: seq<ProposalRecord>, p: ProposalRecord -> bool, q: ProposalRecord -> bool)
    requires forall x :: q(x) == !p(x)
    ensures multiset(Filter(xs, p)) + multiset(Filter(xs, q)) == multiset(xs)
  {
    if xs != [] {
      var t := xs[1..];
      FilterSplits(t, p, q);
      assert xs == [xs[0]] + t;
      assert multiset(xs) == multiset{xs[0]} + multiset(t);
      if p(xs[0]) {
        assert Filter(xs, p) == [xs[0]] + Filter(t, p);
        assert Filter(xs, q) == Filter(t, q);
      } else {
        assert Filter(xs, p) == Filter(t, p);
        assert Filter(xs, q) == [xs[0]] + Filter(t, q);
      }
    }
  }

  /** Filtering keeps every copy of an entry that passes and none of one
      that does not. */
  lemma {:induction false} FilterCount(xs: seq<ProposalRecord>, p: ProposalRecord -> bool, x: ProposalRecord)
    ensures multiset(Filter(xs, p))[x] == if p(x) then multiset(xs)[x] else 0
  {
    if xs != [] {
      var t := xs[1..];
      FilterCount(t, p, x);
      assert xs == [xs[0]] + t;
      assert multiset(xs) == multiset{xs[0]} + multiset(t);
      if p(xs[0]) {
        assert Filter(xs, p) == [xs[0]] + Filter(t, p);
      } else {
        assert Filter(xs, p) == Filter(t, p);
      }
    }
  }

  /** The feed comparator. It reads `externalEndTimestamp`, which no entry
      has, so `undefined > undefined` is false and two entries of the same
      group compare -1 whichever comes first. */
  function Compare(a: ProposalRecord, b: ProposalRecord): (c: int)
    ensures c == 1 <==> b.proposed && !a.proposed
    ensures c == -1 <==> !(b.proposed && !a.proposed)
  {
    if a.proposed && !b.proposed then -1
    else if b.proposed && !a.proposed then 1
    else -1
  }

  /** The comparator is not a consistent order: it puts each of two entries
      of the same group before the other. */
  lemma CompareInconsistent(a: ProposalRecord, b: ProposalRecord)
    requires a.proposed == b.proposed
    ensures Compare(a, b) == -1 && Compare(b, a) == -1
  {
  }

  predicate ProposedFirst(xs: seq<ProposalRecord>) {
    forall i, j :: 0 <= i < j < |xs| && xs[j].proposed ==> xs[i].proposed
  }

  /** The sorted feed. The only order the comparator imposes is proposed
      before unproposed; within each group the order it leaves is up to the
      sort, and is taken here to be the original one. */
  function FeedOrder(xs: seq<ProposalRecord>): (r: seq<ProposalRecord>)
    ensures |r| == |xs| && multiset(r) == multiset(xs)
    ensures ProposedFirst(r)
    ensures forall i, j :: 0 <= i < j < |r| ==> Compare(r[i], r[j]) == -1
  {
    var p := Filter(xs, (x: ProposalRecord) => x.proposed);
    var u := Filter(xs, (x: ProposalRecord) => !x.proposed);
    FilterSplits(xs, (x: ProposalRecord) => x.proposed, (x: ProposalRecord) => !x.proposed);
    assert multiset(p) + multiset(u) == multiset(xs);
    var r := p + u;
    assert |multiset(r)| == |r| && |multiset(xs)| == |xs|;
    forall i, j | 0 <= i < j < |r| ensures r[j].proposed ==> r[i].proposed {
      if i < |p| {
        assert r[i] == p[i] && p[i] in p;
      } else {
        assert r[j] == u[j - |p|] && u[j - |p|] in u;
      }
    }
    r
  }

  /** `filterInactive`: drops the canceled and the vetoed entries. Entries
      never carry `canceled`, so only the veto counts. */
  function FilterInactive(xs: seq<ProposalRecord>): (r: seq<ProposalRecord>)
    ensures forall x :: x in r <==> x in xs && !x.vetoed
  {
    Filter(xs, (x: ProposalRecord) => !x.vetoed)
  }

  /** Filtering keeps proposed entries ahead of the others. */
  lemma {:induction false} FilterKeepsProposedFirst(xs: seq<ProposalRecord>, p: ProposalRecord -> bool)
    requires ProposedFirst(xs)
    ensures ProposedFirst(Filter(xs, p))
  {
    if xs != [] {
      var rest := Filter(xs[1..], p);
      assert ProposedFirst(xs[1..]) by {
        forall i, j | 0 <= i < j < |xs[1..]| && xs[1..][j].proposed ensures xs[1..][i].proposed {
          assert xs[1..][i] == xs[i + 1] && xs[1..][j] == xs[j + 1];
        }
      }
      FilterKeepsProposedFirst(xs[1..], p);
      if p(xs[0]) {
        var r := [xs[0]] + rest;
        forall i, j | 0 <= i < j < |r| && r[j].proposed ensures r[i].proposed {
          if i > 0 {
            assert r[i] == rest[i - 1] && r[j] == rest[j - 1];
          } else {
            assert r[j] == rest[j - 1] && rest[j - 1] in xs[1..];
            var k :| 0 <= k < |xs[1..]| && xs[1..][k] == r[j];
            assert xs[k + 1] == r[j];
          }
        }
      }
    }
  }

  function Concat(groups: seq<seq<ProposalRecord>>): (r: seq<ProposalRecord>)
    ensures forall x :: x in r <==> exists g :: g in groups && x in g
  {
    if groups == [] then []
    else
      var r := Concat(groups[..|groups| - 1]) + groups[|groups| - 1];
      assert forall g :: g in groups <==> g in groups[..|groups| - 1] || g == groups[|groups| - 1];
      r
  }

  /** The feed published for a federation: every DAO's entries, proposed
      first, with the vetoed ones removed. */
  function Feed(groups: seq<seq<ProposalRecord>>): seq<ProposalRecord> {
    FilterInactive(FeedOrder(Concat(groups)))
  }

  /** The feed holds exactly the DAOs' entries that are not vetoed, the
      proposed ones first. */
  lemma FeedFacts(groups: seq<seq<ProposalRecord>>)
    ensures ProposedFirst(Feed(groups))
    ensures forall x :: x in Feed(groups) <==> !x.vetoed && exists g :: g in groups && x in g
    ensures forall x :: multiset(Feed(groups))[x] == if x.vetoed then 0 else multiset(Concat(groups))[x]
  {
    var xs := FeedOrder(Concat(groups));
    FilterKeepsProposedFirst(xs, (x: ProposalRecord) => !x.vetoed);
    forall x ensures multiset(Feed(groups))[x] == if x.vetoed then 0 else multiset(Concat(groups))[x] {
      FilterCount(xs, (x: ProposalRecord) => !x.vetoed, x);
    }
    forall x ensures x in xs <==> x in Concat(groups) {
      assert x in xs <==> x in multiset(xs);
    }
  }

  // ---------------------------------------------------------------------
  // The store

  /** Whether a feed entry is the one about external proposal `eID` of the
      DAO keyed `eDAOKey`. Both fields are fixed at construction. */
  predicate Matches(p: Proposal, eDAOKey: string, eID: nat) {
    p.eDAOKey == eDAOKey && p.eID == eID
  }

  /** An entry that `setProposalProposed` marks: the new federation id and
      the proposed flag. */
  function Marked(r: ProposalRecord, pID: nat): (m: ProposalRecord)
    ensures m.proposed && m.id == pID
    ensures VotesSummed(r) ==> VotesSummed(m)
  {
    r.(id := pID, proposed := true)
  }

  /** Marking twice with the same id is marking once. */
  lemma MarkedIdempotent(r: ProposalRecord, pID: nat)
    ensures Marked(Marked(r, pID), pID) == Marked(r, pID)
  {
  }

  /** The `proposed` flags of the entries. */
  function ProposedFlags(ps: seq<Proposal>): (r: seq<bool>)
    reads set p | p in ps
    ensures |r| == |ps| && forall i :: 0 <= i < |ps| ==> r[i] == ps[i].proposed
  {
    seq(|ps|, i requires 0 <= i < |ps| reads set p | p in ps => ps[i].proposed)
  }

  /** `isProposed` once `setProposalProposed` has visited the first n
      entries, whose flags were `before` when the call began: some entry
      about the external proposal was proposed when reached, either from
      the start or because the same object came earlier in the list and was
      marked then. */
  function AlreadyProposed(ps: seq<Proposal>, before: seq<bool>, n: nat, eDAOKey: string, eID: nat): bool
    requires n <= |ps| == |before|
  {
    n > 0 && (AlreadyProposed(ps, before, n - 1, eDAOKey, eID)
              || (Matches(ps[n - 1], eDAOKey, eID) && (before[n - 1] || ps[n - 1] in ps[..n - 1])))
  }

  /** When the entries are distinct objects, as the feed builds them,
      `isProposed` is whether an entry about the external proposal was
      already proposed. */
  lemma {:induction false} AlreadyProposedDistinct(ps: seq<Proposal>, before: seq<bool>, n: nat, eDAOKey: string, eID: nat)
    requires n <= |ps| == |before|
    requires forall i, j :: 0 <= i < j < |ps| ==> ps[i] != ps[j]
    ensures AlreadyProposed(ps, before, n, eDAOKey, eID)
            <==> exists i :: 0 <= i < n && Matches(ps[i], eDAOKey, eID) && before[i]
  {
    if n > 0 {
      AlreadyProposedDistinct(ps, before, n - 1, eDAOKey, eID);
      assert forall j :: 0 <= j < n - 1 ==> ps[..n - 1][j] == ps[j];
    }
  }

  /** `p.id = pID; p.proposed = true;` */
  method MarkProposed(p: Proposal, pID: nat)
    modifies p
    ensures p.Record() == Marked(old(p.Record()), pID)
  {
    p.id := pID;
    p.proposed := true;
  }

  /** The federation part of the persisted store: for each federation key,
      its feed (undefined until fetched), and how many times the store has
      been committed. */
  class Store {
    var daos: map<string, Option<seq<Proposal>>>
    var commits: nat

    /** `get()[key].proposals || []`. */
    function Entries(key: string): seq<Proposal>
      reads this
    {
      if key in daos && daos[key].Some? then daos[key].value else []
    }

    function EntrySet(key: string): set<Proposal>
      reads this
    {
      set p | p in Entries(key)
    }

    constructor ()
      ensures daos == map[] && commits == 0
    {
      daos, commits := map[], 0;
    }

    /** The end of `getProposals`: fresh entries holding the feed are
        committed under `key`. */
    method Publish(key: string, feed: seq<ProposalRecord>)
      modifies this
      ensures |Entries(key)| == |feed|
      ensures forall i :: 0 <= i < |feed| ==> fresh(Entries(key)[i]) && Entries(key)[i].Record() == feed[i]
      ensures forall i, j :: 0 <= i < j < |feed| ==> Entries(key)[i] != Entries(key)[j]
      ensures daos == old(daos)[key := Some(Entries(key))]
      ensures commits == old(commits) + 1
    {
      var ps: seq<Proposal> := [];
      for i := 0 to |feed|
        invariant |ps| == i
        invariant daos == old(daos) && commits == old(commits)
        invariant forall j :: 0 <= j < i ==> fresh(ps[j]) && ps[j].Record() == feed[j]
        invariant forall j, k :: 0 <= j < k < i ==> ps[j] != ps[k]
      {
        var p := new Proposal.FromRecord(feed[i]);
        ps := ps + [p];
      }
      daos := daos[key := Some(ps)];
      commits := commits + 1;
    }

    /** `setProposalProposed(key, pID, eDAOKey, eID)`: every entry about the
        external proposal gets the federation id and is marked proposed, in
        place, and the store is committed unless one of them was already
        proposed when the loop reached it. An unknown key throws (`false`)
        before anything changes. */
    method SetProposalProposed(key: string, pID: nat, eDAOKey: string, eID: nat) returns (ok: bool)
      modifies this, EntrySet(key)
      ensures ok <==> key in old(daos)
      ensures !ok ==> daos == old(daos) && commits == old(commits)
      ensures var ps := old(Entries(key));
              forall p :: p in ps ==>
                p.Record() == if Matches(p, eDAOKey, eID) then Marked(old(p.Record()), pID) else old(p.Record())
      ensures var ps := old(Entries(key));
              var already := AlreadyProposed(ps, old(ProposedFlags(Entries(key))), |ps|, eDAOKey, eID);
              ok ==> daos == (if already then old(daos) else old(daos)[key := Some(ps)])
                     && commits == old(commits) + (if already then 0 else 1)
      ensures Entries(key) == old(Entries(key))
    {
      if key !in daos {
        return false;
      }
      var ps := Entries(key);
      ghost var before := ProposedFlags(ps);
      var isProposed := false;
      for i := 0 to |ps|
        invariant daos == old(daos) && commits == old(commits)
        invariant forall p :: p in ps && p in ps[..i] && Matches(p, eDAOKey, eID) ==>
                    p.Record() == Marked(old(p.Record()), pID)
        invariant forall p :: p in ps && !(p in ps[..i] && Matches(p, eDAOKey, eID)) ==>
                    p.Record() == old(p.Record())
        invariant isProposed == AlreadyProposed(ps, before, i, eDAOKey, eID)
      {
        var p := ps[i];
        assert ps[..i + 1] == ps[..i] + [p];
        if Matches(p, eDAOKey, eID) {
          assert p.proposed == (before[i] || p in ps[..i]);
          if p.proposed {
            isProposed := true;
          }
          MarkProposed(p, pID);
        }
      }
      assert ps[..|ps|] == ps;
      if isProposed {
        return true;
      }
      daos := daos[key := Some(ps)];
      commits := commits + 1;
      return true;
    }

    /** `refreshProposal(key, pID, eDAOKey, eID)`, given the record the
        federation returns for `pID`: every entry about the external
        proposal is updated from it in place, every other entry is left as
        it is, and the store is committed. An unknown key throws (`false`)
        before anything changes. */
    method RefreshProposal(key: string, eDAOKey: string, eID: nat, fetched: FedRecord) returns (ok: bool)
      modifies this, EntrySet(key)
      ensures ok <==> key in old(daos)
      ensures !ok ==> daos == old(daos) && commits == old(commits)
      ensures var ps := old(Entries(key));
              forall p :: p in ps ==>
                p.Record() == if Matches(p, eDAOKey, eID) then Updated(old(p.Record()), Some(fetched)) else old(p.Record())
      ensures ok ==> daos == old(daos)[key := Some(old(Entries(key)))] && commits == old(commits) + 1
    {
      if key !in daos {
        return false;
      }
      var ps := Entries(key);
      for i := 0 to |ps|
        invariant daos == old(daos) && commits == old(commits)
        invariant forall p :: p in ps && p in ps[..i] && Matches(p, eDAOKey, eID) ==>
                    p.Record() == Updated(old(p.Record()), Some(fetched))
        invariant forall p :: p in ps && !(p in ps[..i] && Matches(p, eDAOKey, eID)) ==>
                    p.Record() == old(p.Record())
      {
        var p := ps[i];
        assert ps[..i + 1] == ps[..i] + [p];
        if Matches(p, eDAOKey, eID) {
          UpdatedIdempotent(old(p.Record()), Some(fetched));
          var _ := p.Update(Some(fetched));
        }
      }
      assert ps[..|ps|] == ps;
      daos := daos[key := Some(ps)];
      commits := commits + 1;
      return true;
    }
  }
}
