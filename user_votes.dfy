/**
  `useUserVotes`: the voting power an address has in a federation. With a
  multi-token delegate the power is the sum, over the configured tokens, of
  the address's holding in the token times the token's weight; the holding
  is the current balance for a "fallback" token and the prior votes at the
  given block otherwise. Without one it is the address's prior votes in the
  DAO's token.

  The token contracts are parameters: for each token address, the value its
  `balanceOf` and `getPriorVotes` calls return for the address and block in
  question; a token with no entry makes that call throw.
 */
module UserVotes {
  import opened Wrappers
  import opened Numerals

  type Address = string

  datatype MultiToken = MultiToken(tokens: seq<Address>, weights: seq<nat>, fallback: seq<bool>)

  datatype Dao = Dao(multiToken: Option<MultiToken>, token: Address)

  /** The chain's answers for the address and block in question. */
  datatype Chain = Chain(balanceOf: map<Address, nat>, priorVotes: map<Address, nat>)

  /** What the hook ends with: votes set, the error set (a token call threw),
      a rejected promise that leaves both untouched (the final
      `BigNumber.from` refused the sum: ethers refuses a number of 2^53 - 1
      or more), or nothing done (no DAO). */
  datatype Outcome = Votes(n: nat) | ErrorSet | Rejected | NotRun

  /** The running sum after some tokens: the exact sum, and whether a weight
      was missing (`rep * undefined` makes the sum NaN from then on). */
  datatype Agg = Agg(sum: nat, nan: bool)

  /** `fallback[i]`, which is undefined (false) past the end of the list. */
  function FallbackAt(mt: MultiToken, i: nat): bool {
    i < |mt.fallback| && mt.fallback[i]
  }

  /** The holding of the address in token i, or None when the call throws. */
  function Holding(mt: MultiToken, chain: Chain, i: nat): Option<nat>
    requires i < |mt.tokens|
  {
    var t := mt.tokens[i];
    if FallbackAt(mt, i) then (if t in chain.balanceOf then Some(chain.balanceOf[t]) else None)
    else if t in chain.priorVotes then Some(chain.priorVotes[t]) else None
  }

  /** The loop's state after the first n tokens, or None when a call threw. */
  function AggregateUpTo(mt: MultiToken, chain: Chain, n: nat): Option<Agg>
    requires n <= |mt.tokens|
  {
    if n == 0 then Some(Agg(0, false))
    else match AggregateUpTo(mt, chain, n - 1)
      case None => None
      case Some(a) =>
        match Holding(mt, chain, n - 1)
        case None => None
        case Some(rep) =>
          if n - 1 < |mt.weights| then Some(Agg(a.sum + rep * mt.weights[n - 1], a.nan))
          else Some(Agg(a.sum, true))
  }

  /** The reference sum: holdings times weights, position by position. */
  function Dot(reps: seq<nat>, weights: seq<nat>): nat
    requires |reps| <= |weights|
  {
    if reps == [] then 0 else Dot(reps[..|reps| - 1], weights) + reps[|reps| - 1] * weights[|reps| - 1]
  }

  /** When every call succeeds and every token has a weight, the loop's sum
      is the weighted sum of the holdings. */
  lemma {:induction false} AggregateIsDot(mt: MultiToken, chain: Chain, n: nat)
    requires n <= |mt.tokens| && n <= |mt.weights|
    requires forall i :: 0 <= i < n ==> Holding(mt, chain, i).Some?
    ensures AggregateUpTo(mt, chain, n)
            == Some(Agg(Dot(seq(n, i requires 0 <= i < n => Holding(mt, chain, i).value), mt.weights), false))
  {
    var reps := seq(n, i requires 0 <= i < n => Holding(mt, chain, i).value);
    if n > 0 {
      AggregateIsDot(mt, chain, n - 1);
      var shorter := seq(n - 1, i requires 0 <= i < n - 1 => Holding(mt, chain, i).value);
      assert reps[..n - 1] == shorter;
    }
  }

  /** A call that throws ends the loop: no later token is read. */
  lemma {:induction false} ThrowStops(mt: MultiToken, chain: Chain, n: nat, m: nat)
    requires n <= m <= |mt.tokens| && AggregateUpTo(mt, chain, n).None?
    ensures AggregateUpTo(mt, chain, m).None?
    decreases m - n
  {
    if n < m {
      ThrowStops(mt, chain, n + 1, m);
    }
  }

  /** One call of the hook's effect. */
  method UseUserVotes(dao: Option<Dao>, chain: Chain) returns (r: Outcome)
    ensures dao.None? ==> r == NotRun
    ensures dao.Some? && dao.value.multiToken.None? ==>
              r == (if dao.value.token in chain.priorVotes then Votes(chain.priorVotes[dao.value.token]) else ErrorSet)
    ensures dao.Some? && dao.value.multiToken.Some? ==>
              var mt := dao.value.multiToken.value;
              match AggregateUpTo(mt, chain, |mt.tokens|)
              case None => r == ErrorSet
              case Some(a) => r == (if a.nan || a.sum >= MaxSafeInteger then Rejected else Votes(a.sum))
  {
    if dao.None? {
      return NotRun;
    }
    var d := dao.value;
    if d.multiToken.Some? {
      var mt := d.multiToken.value;
      var agg: nat, nan := 0, false;
      for i := 0 to |mt.tokens|
        invariant AggregateUpTo(mt, chain, i) == Some(Agg(agg, nan))
      {
        var token := mt.tokens[i];
        var rep: nat;
        if FallbackAt(mt, i) {
          if token !in chain.balanceOf {
            ThrowStops(mt, chain, i + 1, |mt.tokens|);
            return ErrorSet;
          }
          rep := chain.balanceOf[token];
        } else {
          if token !in chain.priorVotes {
            ThrowStops(mt, chain, i + 1, |mt.tokens|);
            return ErrorSet;
          }
          rep := chain.priorVotes[token];
        }
        if i < |mt.weights| {
          agg := agg + rep * mt.weights[i];
        } else {
          nan := true;
        }
      }
      if nan || agg >= MaxSafeInteger {
        return Rejected;
      }
      return Votes(agg);
    }
    if d.token !in chain.priorVotes {
      return ErrorSet;
    }
    return Votes(chain.priorVotes[d.token]);
  }
}
