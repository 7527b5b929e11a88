/**
  The `Proposal` object of the federation client: one entry of the proposal
  feed, built from an external DAO's proposal (`eProp`) and, when the
  federation has already proposed a vote on it, the federation's own record
  (`fProp`).

  The constructor reads its arguments as plain JavaScript objects through
  optional chaining: a missing argument gives the defaults (0, "" or false),
  but a present argument whose field is missing, or is not a BigNumber where
  `.toNumber()` is called, throws a TypeError. Arguments are therefore
  modelled as JavaScript objects (field name to value), and the constructor
  returns either the new record or the source line that throws.
 */
module FederationProposal {
  import opened Wrappers
  import opened Numerals
  import Parsing

  /** The values the constructor finds in its arguments' fields: ethers
      BigNumbers, plain numbers (ethers returns integers of up to 48 bits as
      numbers), strings and booleans. */
  datatype JsVal = JsBig(n: nat) | JsNum(k: nat) | JsStr(s: string) | JsBool(b: bool)

  type JsObject = map<string, JsVal>

  /** A DAO of the federation's network, as the feed passes it. */
  datatype NetworkAddress = NetworkAddress(dao: string, builderDAO: bool, key: string)

  /** An external proposal, merged from its creation log and its on-chain
      record: a Nouns-style DAO (numeric id, end block, eta) or a Builder DAO
      (bytes32 id, vote end timestamp). */
  datatype ExternalProposal =
    | Nouns(id: nat, description: string, startBlock: nat, endBlock: nat, proposer: string,
            quorumVotes: nat, eta: nat, forVotes: nat, againstVotes: nat, abstainVotes: nat,
            canceled: bool, vetoed: bool, executed: bool)
    | Builder(id: nat, description: string, voteStart: nat, voteEnd: nat, proposer: string,
              quorumVotes: nat, forVotes: nat, againstVotes: nat, abstainVotes: nat,
              canceled: bool, vetoed: bool, executed: bool)

  /** A federation proposal, merged from its creation log and its on-chain
      record. */
  datatype FedRecord = FedRecord(id: nat, proposer: string, eDAO: string, ePropID: nat,
                                 startBlock: nat, endBlock: nat, quorumVotes: nat, eta: nat,
                                 forVotes: nat, againstVotes: nat, abstainVotes: nat,
                                 vetoed: bool, executed: bool)

  /** A bytes32 value as ethers prints it: "0x" and 64 lower-case hex digits. */
  function Bytes32(n: nat): string {
    PaddedHex(n, 64)
  }

  /** The object the feed holds for an external proposal: a Nouns-style id
      is a BigNumber, a Builder id a bytes32 string. */
  function ExternalObject(e: ExternalProposal): (o: JsObject)
    ensures "id" in o && "description" in o && "proposer" in o
    ensures o["description"] == JsStr(e.description) && o["proposer"] == JsStr(e.proposer)
    ensures e.Nouns? ==> o["id"] == JsBig(e.id)
    ensures e.Nouns? ==> "eta" in o && o["eta"] == JsBig(e.eta) && "endBlock" in o && o["endBlock"] == JsBig(e.endBlock)
    ensures e.Builder? ==> o["id"] == JsStr(Bytes32(e.id))
  {
    match e
    case Nouns(id, description, startBlock, endBlock, proposer, quorumVotes, eta, f, a, ab, c, v, x) =>
      map["id" := JsBig(id), "description" := JsStr(description), "startBlock" := JsBig(startBlock),
          "endBlock" := JsBig(endBlock), "proposer" := JsStr(proposer), "quorumVotes" := JsBig(quorumVotes),
          "eta" := JsBig(eta), "forVotes" := JsBig(f), "againstVotes" := JsBig(a),
          "abstainVotes" := JsBig(ab), "canceled" := JsBool(c), "vetoed" := JsBool(v), "executed" := JsBool(x)]
    case Builder(id, description, voteStart, voteEnd, proposer, quorumVotes, f, a, ab, c, v, x) =>
      map["id" := JsStr(Bytes32(id)), "builderDAO" := JsBool(true), "description" := JsStr(description),
          "voteStart" := JsNum(voteStart), "voteEnd" := JsNum(voteEnd), "proposer" := JsStr(proposer),
          "quorumVotes" := JsBig(quorumVotes), "forVotes" := JsBig(f), "againstVotes" := JsBig(a),
          "abstainVotes" := JsBig(ab), "canceled" := JsBool(c), "vetoed" := JsBool(v), "executed" := JsBool(x)]
  }

  /** The object the feed holds for a federation proposal. It has no
      `voteEnd`: federation proposals end at a block. */
  function FedObject(f: FedRecord): (o: JsObject)
    ensures "id" in o && o["id"] == JsBig(f.id)
    ensures "proposer" in o && o["proposer"] == JsStr(f.proposer)
    ensures "quorumVotes" in o && o["quorumVotes"] == JsBig(f.quorumVotes)
    ensures "startBlock" in o && o["startBlock"] == JsBig(f.startBlock)
    ensures "endBlock" in o && o["endBlock"] == JsBig(f.endBlock)
    ensures "forVotes" in o && o["forVotes"] == JsBig(f.forVotes)
    ensures "againstVotes" in o && o["againstVotes"] == JsBig(f.againstVotes)
    ensures "abstainVotes" in o && o["abstainVotes"] == JsBig(f.abstainVotes)
    ensures "vetoed" in o && o["vetoed"] == JsBool(f.vetoed)
    ensures "executed" in o && o["executed"] == JsBool(f.executed)
    ensures "voteEnd" !in o
  {
    map["id" := JsBig(f.id), "proposer" := JsStr(f.proposer), "eDAO" := JsStr(f.eDAO),
        "ePropID" := JsBig(f.ePropID), "startBlock" := JsBig(f.startBlock), "endBlock" := JsBig(f.endBlock),
        "quorumVotes" := JsBig(f.quorumVotes), "eta" := JsBig(f.eta), "forVotes" := JsBig(f.forVotes),
        "againstVotes" := JsBig(f.againstVotes), "abstainVotes" := JsBig(f.abstainVotes),
        "vetoed" := JsBool(f.vetoed), "executed" := JsBool(f.executed)]
  }

  function FedArg(f: Option<FedRecord>): Option<JsObject> {
    match f
    case None => None
    case Some(r) => Some(FedObject(r))
  }

  /** `o?.<name>.toNumber() || 0`, or the line that throws. */
  function NumberField(o: Option<JsObject>, name: string, line: nat): (r: Result<nat, nat>)
    ensures o.None? ==> r == Ok(0)
    ensures r.Ok? <==> NumberReadable(o, name)
    ensures r.Ok? && o.Some? ==> r.value == o.value[name].n
    ensures r.Err? ==> r.error == line
  {
    match o
    case None => Ok(0)
    case Some(m) => if name in m && m[name].JsBig? then Ok(m[name].n) else Err(line)
  }

  /** `o?.<name> || ""` for a field that holds a string when present. */
  function StringField(o: Option<JsObject>, name: string): string {
    if o.Some? && name in o.value && o.value[name].JsStr? then o.value[name].s else ""
  }

  /** `o?.<name> || false`. */
  function BoolField(o: Option<JsObject>, name: string): bool {
    o.Some? && name in o.value && o.value[name].JsBool? && o.value[name].b
  }

  /** The truth value of `o?.<name>`: a BigNumber is an object and always
      true, even when it is zero. */
  function Truthy(o: Option<JsObject>, name: string): bool {
    if o.None? || name !in o.value then false
    else match o.value[name]
      case JsBig(_) => true
      case JsNum(k) => k != 0
      case JsStr(s) => s != ""
      case JsBool(b) => b
  }

  /** The argument of `parseDescription(o?.description)`: None for an
      undefined description; a description that is not a string has no
      `replace`, and the call throws. */
  function DescriptionField(o: Option<JsObject>, line: nat): (r: Result<Option<string>, nat>)
    ensures r.Ok? <==> DescriptionReadable(o)
    ensures r.Err? ==> r.error == line
  {
    if o.None? || "description" !in o.value then Ok(None)
    else if o.value["description"].JsStr? then Ok(Some(o.value["description"].s))
    else Err(line)
  }

  /** The fields of a feed entry. `externalEndTimestamp` and `canceled` are
      never assigned by the constructor, so they are not here. */
  datatype ProposalRecord = ProposalRecord(
    id: nat, title: string, description: string, proposer: string,
    eDAOKey: string, eDAO: string, eID: nat, eProposer: string, eta: nat,
    quorumVotes: nat, startBlock: nat, endBlock: nat, externalEndBlock: nat,
    forVotes: nat, againstVotes: nat, abstainVotes: nat,
    vetoed: bool, executed: bool, votes: nat, proposed: bool)

  /** The invariant every entry keeps: the vote count is the sum of the
      three tallies. */
  predicate VotesSummed(r: ProposalRecord) {
    r.votes == r.forVotes + r.againstVotes + r.abstainVotes
  }

  /** `new Proposal(networkAddress, eProp, fProp)`: the record, or the line
      whose read throws. Fields are read in source order, so the first
      failing line is reported. */
  function Construct(net: NetworkAddress, eProp: Option<JsObject>, fProp: Option<JsObject>): (r: Result<ProposalRecord, nat>)
    ensures r.Ok? ==> VotesSummed(r.value)
    ensures r.Ok? ==> (r.value.proposed <==> Truthy(fProp, "id"))
    ensures r.Ok? ==> r.value.eDAOKey == net.key && r.value.eDAO == net.dao
    ensures fProp.None? && r.Ok? ==> r.value.id == 0 && r.value.votes == 0 && r.value.quorumVotes == 0
                                     && r.value.startBlock == 0 && r.value.endBlock == 0
                                     && r.value.proposer == "" && !r.value.vetoed && !r.value.executed
                                     && !r.value.proposed
    ensures r.Err? ==> r.error in ReadLines
  {
    var v :- ReadFields(eProp, fProp);
    var body := Parsing.ParseDescription(v.description);
    Ok(ProposalRecord(
      v.id, body.title, body.desc, StringField(fProp, "proposer"), net.key, net.dao,
      v.eID, StringField(eProp, "proposer"), v.eta,
      v.quorumVotes, v.startBlock, v.endBlock, v.externalEndBlock,
      v.forVotes, v.againstVotes, v.abstainVotes,
      BoolField(fProp, "vetoed"), BoolField(fProp, "executed"),
      v.forVotes + v.againstVotes + v.abstainVotes, Truthy(fProp, "id")))
  }

  /** The values the constructor's reads produce, before the description
      is parsed. */
  datatype FieldValues = FieldValues(
    id: nat, description: Option<string>, eID: nat, eta: nat,
    quorumVotes: nat, startBlock: nat, endBlock: nat, externalEndBlock: nat,
    forVotes: nat, againstVotes: nat, abstainVotes: nat)

  /** The constructor's reads, in source order, up to the first that
      throws. */
  function ReadFields(eProp: Option<JsObject>, fProp: Option<JsObject>): (r: Result<FieldValues, nat>)
    ensures r.Err? ==> r.error in ReadLines
    ensures fProp.None? && r.Ok? ==> && r.value.id == 0 && r.value.quorumVotes == 0
                                     && r.value.startBlock == 0 && r.value.endBlock == 0
                                     && r.value.forVotes == 0 && r.value.againstVotes == 0 && r.value.abstainVotes == 0
  {
    var id :- NumberField(fProp, "id", 6);
    var description :- DescriptionField(eProp, 7);
    var eID :- NumberField(eProp, "id", 13);
    var eta :- NumberField(eProp, "eta", 15);
    var quorumVotes :- NumberField(fProp, "quorumVotes", 16);
    var startBlock :- NumberField(fProp, "startBlock", 17);
    var endBlock :- NumberField(fProp, "endBlock", 18);
    var externalEndBlock :- NumberField(eProp, "endBlock", 19);
    var forVotes :- NumberField(fProp, "forVotes", 20);
    var againstVotes :- NumberField(fProp, "againstVotes", 21);
    var abstainVotes :- NumberField(fProp, "abstainVotes", 22);
    Ok(FieldValues(id, description, eID, eta, quorumVotes, startBlock, endBlock, externalEndBlock,
                   forVotes, againstVotes, abstainVotes))
  }

  /** The constructor's lines that can throw, in the order it runs them. */
  const ReadLines: seq<nat> := [6, 7, 13, 15, 16, 17, 18, 19, 20, 21, 22]

  /** `o?.<name>.toNumber()` does not throw: the object is missing, or the
      field is a BigNumber. */
  predicate NumberReadable(o: Option<JsObject>, name: string) {
    o.None? || (name in o.value && o.value[name].JsBig?)
  }

  /** `parseDescription(o?.description)` does not throw: the description is
      missing or a string. */
  predicate DescriptionReadable(o: Option<JsObject>) {
    o.None? || "description" !in o.value || o.value["description"].JsStr?
  }

  /** Whether the read on a given constructor line succeeds. */
  predicate ReadOk(eProp: Option<JsObject>, fProp: Option<JsObject>, line: nat) {
    match line
    case 6 => NumberReadable(fProp, "id")
    case 7 => DescriptionReadable(eProp)
    case 13 => NumberReadable(eProp, "id")
    case 15 => NumberReadable(eProp, "eta")
    case 16 => NumberReadable(fProp, "quorumVotes")
    case 17 => NumberReadable(fProp, "startBlock")
    case 18 => NumberReadable(fProp, "endBlock")
    case 19 => NumberReadable(eProp, "endBlock")
    case 20 => NumberReadable(fProp, "forVotes")
    case 21 => NumberReadable(fProp, "againstVotes")
    case 22 => NumberReadable(fProp, "abstainVotes")
    case _ => true
  }

  /** The constructor throws exactly when one of its reads fails, and it
      reports the first failing read in source order. */
  lemma ConstructFailsAtFirstBadRead(net: NetworkAddress, eProp: Option<JsObject>, fProp: Option<JsObject>)
    ensures Construct(net, eProp, fProp).Err? <==> exists l :: l in ReadLines && !ReadOk(eProp, fProp, l)
    ensures var r := Construct(net, eProp, fProp);
            r.Err? ==> && !ReadOk(eProp, fProp, r.error)
                       && forall l :: l in ReadLines && l < r.error ==> ReadOk(eProp, fProp, l)
  {
    ReadFieldsEarly(eProp, fProp);
    if ReadOk(eProp, fProp, 6) && ReadOk(eProp, fProp, 7) && ReadOk(eProp, fProp, 13)
       && ReadOk(eProp, fProp, 15) && ReadOk(eProp, fProp, 16) {
      ReadFieldsLate(eProp, fProp);
    }
  }

  /** The reads of lines 6 to 16: the first that fails is reported. */
  lemma ReadFieldsEarly(eProp: Option<JsObject>, fProp: Option<JsObject>)
    ensures var r := ReadFields(eProp, fProp);
            var ok6, ok7, ok13 := ReadOk(eProp, fProp, 6), ReadOk(eProp, fProp, 7), ReadOk(eProp, fProp, 13);
            var ok15, ok16 := ReadOk(eProp, fProp, 15), ReadOk(eProp, fProp, 16);
            && (!ok6 ==> r == Err(6))
            && (ok6 && !ok7 ==> r == Err(7))
            && (ok6 && ok7 && !ok13 ==> r == Err(13))
            && (ok6 && ok7 && ok13 && !ok15 ==> r == Err(15))
            && (ok6 && ok7 && ok13 && ok15 && !ok16 ==> r == Err(16))
  {
  }

  /** Once lines 6 to 16 read, the reads of lines 17 to 22: the first that
      fails is reported, and when none fails the reads succeed. */
  lemma ReadFieldsLate(eProp: Option<JsObject>, fProp: Option<JsObject>)
    requires ReadOk(eProp, fProp, 6) && ReadOk(eProp, fProp, 7) && ReadOk(eProp, fProp, 13)
    requires ReadOk(eProp, fProp, 15) && ReadOk(eProp, fProp, 16)
    ensures var r := ReadFields(eProp, fProp);
            var ok17, ok18, ok19 := ReadOk(eProp, fProp, 17), ReadOk(eProp, fProp, 18), ReadOk(eProp, fProp, 19);
            var ok20, ok21, ok22 := ReadOk(eProp, fProp, 20), ReadOk(eProp, fProp, 21), ReadOk(eProp, fProp, 22);
            && (!ok17 ==> r == Err(17))
            && (ok17 && !ok18 ==> r == Err(18))
            && (ok17 && ok18 && !ok19 ==> r == Err(19))
            && (ok17 && ok18 && ok19 && !ok20 ==> r == Err(20))
            && (ok17 && ok18 && ok19 && ok20 && !ok21 ==> r == Err(21))
            && (ok17 && ok18 && ok19 && ok20 && ok21 && !ok22 ==> r == Err(22))
            && (ok17 && ok18 && ok19 && ok20 && ok21 && ok22 ==> r.Ok?)
  {
  }

  /** A Nouns-style proposal with or without its federation record builds an
      entry: the external fields come from the proposal, the federation
      fields from the record (or the defaults), and the entry counts as
      proposed exactly when the record exists. */
  lemma ConstructNouns(net: NetworkAddress, e: ExternalProposal, f: Option<FedRecord>)
    requires e.Nouns?
    ensures Construct(net, Some(ExternalObject(e)), FedArg(f)).Ok?
    ensures var r := Construct(net, Some(ExternalObject(e)), FedArg(f)).value;
            && r.eID == e.id && r.eta == e.eta && r.externalEndBlock == e.endBlock
            && r.eProposer == e.proposer
            && r.title == Parsing.ParseDescription(Some(e.description)).title
            && r.description == Parsing.ParseDescription(Some(e.description)).desc
            && FedFields(r, f)
            && r.id == (if f.Some? then f.value.id else 0)
  {
  }

  /** A Builder DAO proposal never builds an entry: its id is a string, and
      `eProp?.id.toNumber()` throws at line 13. */
  lemma ConstructBuilderThrows(net: NetworkAddress, e: ExternalProposal, f: Option<FedRecord>)
    requires e.Builder?
    ensures Construct(net, Some(ExternalObject(e)), FedArg(f)) == Err(13)
  {
  }

  /** The fields an entry takes from its federation record: the record's
      values when there is one, the defaults otherwise; `proposed` says
      which. The id is not among them, because `update` never re-reads it. */
  predicate FedFields(r: ProposalRecord, f: Option<FedRecord>) {
    && (r.proposed <==> f.Some?)
    && match f
       case None =>
         && r.proposer == "" && r.quorumVotes == 0 && r.startBlock == 0 && r.endBlock == 0
         && r.forVotes == 0 && r.againstVotes == 0 && r.abstainVotes == 0 && !r.vetoed && !r.executed
       case Some(x) =>
         && r.proposer == x.proposer && r.quorumVotes == x.quorumVotes
         && r.startBlock == x.startBlock && r.endBlock == x.endBlock
         && r.forVotes == x.forVotes && r.againstVotes == x.againstVotes && r.abstainVotes == x.abstainVotes
         && r.vetoed == x.vetoed && r.executed == x.executed
  }

  /** Two entries about the same external proposal and network that hold the
      same federation record and sum their votes differ at most in the id. */
  lemma SameFedFields(a: ProposalRecord, b: ProposalRecord, f: Option<FedRecord>)
    requires a.title == b.title && a.description == b.description && a.eDAOKey == b.eDAOKey && a.eDAO == b.eDAO
    requires a.eID == b.eID && a.eProposer == b.eProposer && a.eta == b.eta && a.externalEndBlock == b.externalEndBlock
    requires FedFields(a, f) && FedFields(b, f) && VotesSummed(a) && VotesSummed(b)
    ensures a == b.(id := a.id)
  {
  }

  /** `update(fProp)` on an entry: the federation fields are re-read (the
      defaults when the record is missing); the entry's id and everything
      taken from the external proposal stay. */
  function Updated(r: ProposalRecord, f: Option<FedRecord>): (u: ProposalRecord)
    ensures VotesSummed(u)
    ensures FedFields(u, f)
    ensures u.id == r.id && u.title == r.title && u.description == r.description
    ensures u.eDAOKey == r.eDAOKey && u.eDAO == r.eDAO && u.eID == r.eID
    ensures u.eProposer == r.eProposer && u.eta == r.eta && u.externalEndBlock == r.externalEndBlock
  {
    match f
    case None =>
      r.(quorumVotes := 0, forVotes := 0, againstVotes := 0, abstainVotes := 0,
         vetoed := false, executed := false, votes := 0, proposed := false,
         proposer := "", endBlock := 0, startBlock := 0)
    case Some(x) =>
      r.(quorumVotes := x.quorumVotes, forVotes := x.forVotes, againstVotes := x.againstVotes,
         abstainVotes := x.abstainVotes, vetoed := x.vetoed, executed := x.executed,
         votes := x.forVotes + x.againstVotes + x.abstainVotes, proposed := true,
         proposer := x.proposer, endBlock := x.endBlock, startBlock := x.startBlock)
  }

  /** Updating twice with the same record is updating once. */
  lemma UpdatedIdempotent(r: ProposalRecord, f: Option<FedRecord>)
    ensures Updated(Updated(r, f), f) == Updated(r, f)
  {
  }

  /** Refreshing an entry gives what building it from the new record would
      give, except that the entry keeps its id: `update` never re-reads it. */
  lemma UpdatedIsRebuild(net: NetworkAddress, e: ExternalProposal, f1: Option<FedRecord>, f2: Option<FedRecord>)
    requires e.Nouns?
    ensures Construct(net, Some(ExternalObject(e)), FedArg(f1)).Ok?
    ensures Construct(net, Some(ExternalObject(e)), FedArg(f2)).Ok?
    ensures var r1 := Construct(net, Some(ExternalObject(e)), FedArg(f1)).value;
            Updated(r1, f2) == Construct(net, Some(ExternalObject(e)), FedArg(f2)).value.(id := r1.id)
  {
    ConstructNouns(net, e, f1);
    ConstructNouns(net, e, f2);
    var r1 := Construct(net, Some(ExternalObject(e)), FedArg(f1)).value;
    var r2 := Construct(net, Some(ExternalObject(e)), FedArg(f2)).value;
    SameFedFields(Updated(r1, f2), r2, f2);
  }

  /** The feed entry as an object. The fields taken from the external
      proposal and the network are never reassigned after construction; the
      federation fields, the id and `proposed` are updated in place. */
  class Proposal {
    const title: string
    const description: string
    const eDAOKey: string
    const eDAO: string
    const eID: nat
    const eProposer: string
    const eta: nat
    const externalEndBlock: nat
    var id: nat
    var proposer: string
    var quorumVotes: nat
    var startBlock: nat
    var endBlock: nat
    var forVotes: nat
    var againstVotes: nat
    var abstainVotes: nat
    var vetoed: bool
    var executed: bool
    var votes: nat
    var proposed: bool

    function Record(): ProposalRecord
      reads this
    {
      ProposalRecord(id, title, description, proposer, eDAOKey, eDAO, eID, eProposer, eta,
                     quorumVotes, startBlock, endBlock, externalEndBlock,
                     forVotes, againstVotes, abstainVotes, vetoed, executed, votes, proposed)
    }

    predicate Valid()
      reads this
    {
      VotesSummed(Record())
    }

    /** An object holding the given entry. */
    constructor FromRecord(r: ProposalRecord)
      ensures Record() == r
    {
      title, description, eDAOKey, eDAO := r.title, r.description, r.eDAOKey, r.eDAO;
      eID, eProposer, eta, externalEndBlock := r.eID, r.eProposer, r.eta, r.externalEndBlock;
      id, proposer, quorumVotes, startBlock, endBlock := r.id, r.proposer, r.quorumVotes, r.startBlock, r.endBlock;
      forVotes, againstVotes, abstainVotes := r.forVotes, r.againstVotes, r.abstainVotes;
      vetoed, executed, votes, proposed := r.vetoed, r.executed, r.votes, r.proposed;
    }

    /** `update(fProp)`: rewrites the federation fields in place and returns
        the object itself. */
    method Update(f: Option<FedRecord>) returns (self: Proposal)
      modifies this
      ensures self == this
      ensures Record() == Updated(old(Record()), f)
      ensures Valid()
    {
      var u := Updated(Record(), f);
      quorumVotes, forVotes, againstVotes, abstainVotes := u.quorumVotes, u.forVotes, u.againstVotes, u.abstainVotes;
      vetoed, executed, votes, proposed := u.vetoed, u.executed, u.votes, u.proposed;
      proposer, endBlock, startBlock := u.proposer, u.endBlock, u.startBlock;
      assert Record() == u;
      self := this;
    }
  }

  /** `new Proposal(networkAddress, eProp, fProp)`: a fresh object holding
      the constructed entry, or the line that throws. */
  method NewProposal(net: NetworkAddress, eProp: Option<JsObject>, fProp: Option<JsObject>)
    returns (r: Result<Proposal, nat>)
    ensures r.Ok? <==> Construct(net, eProp, fProp).Ok?
    ensures r.Err? ==> r.error == Construct(net, eProp, fProp).error
    ensures r.Ok? ==> fresh(r.value) && r.value.Record() == Construct(net, eProp, fProp).value
                      && r.value.Valid()
  {
    var c := Construct(net, eProp, fProp);
    if c.Err? {
      return Err(c.error);
    }
    var p := new Proposal.FromRecord(c.value);
    r := Ok(p);
  }
}
