/**
  The argument handling of the `deployMultiToken` hardhat command: the variadic
  `tokensAndWeights` list `<token> <weight> <token> <weight> ...` is split into
  the `tokens` and `weights` lists passed to `_setNounishTokens`. An odd-length
  list is refused (the command prints a usage line and returns before deploying).
 */
module DeployMultiToken {
  import opened Wrappers

  /** The two lists the command builds. */
  datatype DeployLists = DeployLists(tokens: seq<string>, weights: seq<string>)

  /** Pairs tokens and weights back into one argument list; the inverse of the
      split. */
  function Interleave(tokens: seq<string>, weights: seq<string>): (args: seq<string>)
    requires |tokens| == |weights|
    ensures |args| == 2 * |tokens|
  {
    if tokens == [] then [] else [tokens[0], weights[0]] + Interleave(tokens[1..], weights[1..])
  }

  /** Element 2i of the interleaving is token i and element 2i+1 is weight i. */
  lemma {:induction false} InterleaveAt(tokens: seq<string>, weights: seq<string>, i: nat)
    requires |tokens| == |weights| && i < |tokens|
    ensures Interleave(tokens, weights)[2 * i] == tokens[i]
    ensures Interleave(tokens, weights)[2 * i + 1] == weights[i]
  {
    if i > 0 {
      InterleaveAt(tokens[1..], weights[1..], i - 1);
    }
  }

  /** A list whose even positions are the tokens and whose odd positions are the
      weights is their interleaving. */
  lemma {:induction false} InterleaveOfSplit(args: seq<string>, tokens: seq<string>, weights: seq<string>)
    requires |tokens| == |weights| && |args| == 2 * |tokens|
    requires forall i :: 0 <= i < |tokens| ==> tokens[i] == args[2 * i] && weights[i] == args[2 * i + 1]
    ensures Interleave(tokens, weights) == args
  {
    if tokens != [] {
      var rest := args[2..];
      forall i | 0 <= i < |tokens| - 1
        ensures tokens[1..][i] == rest[2 * i] && weights[1..][i] == rest[2 * i + 1]
      {
        assert tokens[i + 1] == args[2 * (i + 1)];
      }
      InterleaveOfSplit(rest, tokens[1..], weights[1..]);
      assert args == [args[0], args[1]] + rest;
      assert args[0] == tokens[0] && args[1] == weights[0];
    }
  }

  /** The command's split loop: None when the list has odd length (no deployment
      arguments are formed), otherwise element 2i goes to `tokens[i]` and
      element 2i+1 to `weights[i]`. */
  method SplitTokensAndWeights(args: seq<string>) returns (r: Option<DeployLists>)
    ensures r.None? <==> |args| % 2 == 1
    ensures r.Some? ==> |r.value.tokens| == |args| / 2 && |r.value.weights| == |args| / 2
    ensures r.Some? ==> forall i :: 0 <= i < |args| / 2 ==>
                          r.value.tokens[i] == args[2 * i] && r.value.weights[i] == args[2 * i + 1]
    ensures r.Some? ==> Interleave(r.value.tokens, r.value.weights) == args
  {
    if |args| % 2 != 0 {
      return None;
    }
    var tokens: seq<string> := [];
    var weights: seq<string> := [];
    for i := 0 to |args|
      invariant |tokens| == (i + 1) / 2 && |weights| == i / 2
      invariant forall j :: 0 <= j < |tokens| ==> tokens[j] == args[2 * j]
      invariant forall j :: 0 <= j < |weights| ==> weights[j] == args[2 * j + 1]
    {
      if i % 2 == 0 {
        tokens := tokens + [args[i]];
        continue;
      }
      weights := weights + [args[i]];
    }
    InterleaveOfSplit(args, tokens, weights);
    r := Some(DeployLists(tokens, weights));
  }
}
