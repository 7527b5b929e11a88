/**
  The execution bot: on each run it reads the federation's execution window,
  selects the federation proposals whose end block is at most that many
  blocks away (and not yet passed), and executes each of them that the
  contract does not already report as executed. The first call that throws
  ends the run (the handler catches it and logs it).

  The chain is a parameter: the `executed` flag the contract reports for
  each proposal id (an id with no entry makes the read throw) and the ids
  whose `execute` call throws. An `execute` that does not throw has sent a
  transaction that sets the flag once it is mined; whether that happens
  before the bot's next read is a parameter too.
 */
module ExecBot {
  import opened Wrappers

  /** The fields the bot keeps from a `ProposalCreated` log. */
  datatype CreationLog = CreationLog(id: nat, proposer: string, eDAO: string, ePropID: nat,
                                     startBlock: nat, endBlock: nat, quorumVotes: nat)

  /** The window test of the filter: `endBlock - execWindow <= block <= endBlock`.
      The difference is a JavaScript number and may be negative. */
  predicate InWindow(p: CreationLog, blockNumber: nat, execWindow: nat) {
    p.endBlock as int - execWindow as int <= blockNumber as int <= p.endBlock as int
  }

  /** `getExecutableFedProposals`: the logs in the window, in log order. */
  function ExecutableFedProposals(logs: seq<CreationLog>, blockNumber: nat, execWindow: nat): (r: seq<CreationLog>)
    ensures |r| <= |logs|
    ensures forall p :: p in r <==> p in logs && InWindow(p, blockNumber, execWindow)
  {
    if logs == [] then []
    else
      var rest := ExecutableFedProposals(logs[1..], blockNumber, execWindow);
      assert forall p :: p in logs <==> p == logs[0] || p in logs[1..];
      if InWindow(logs[0], blockNumber, execWindow) then [logs[0]] + rest else rest
  }

  /** A proposal whose end block has passed is never selected, and one whose
      end block is more than a window away is not selected yet. */
  lemma WindowBounds(logs: seq<CreationLog>, blockNumber: nat, execWindow: nat, p: CreationLog)
    requires p in ExecutableFedProposals(logs, blockNumber, execWindow)
    ensures blockNumber <= p.endBlock <= blockNumber + execWindow
  {
  }

  /** Selection keeps the log order: selecting from two runs of logs one
      after the other is selecting from each and concatenating. */
  lemma {:induction false} ExecutableConcat(a: seq<CreationLog>, b: seq<CreationLog>, blockNumber: nat, execWindow: nat)
    ensures ExecutableFedProposals(a + b, blockNumber, execWindow)
            == ExecutableFedProposals(a, blockNumber, execWindow) + ExecutableFedProposals(b, blockNumber, execWindow)
  {
    if a == [] {
      assert a + b == b;
    } else {
      assert (a + b)[0] == a[0] && (a + b)[1..] == a[1..] + b;
      ExecutableConcat(a[1..], b, blockNumber, execWindow);
    }
  }

  /** What a run did: the ids it executed, in order, whether a call threw,
      and the contract's `executed` flags once every sent transaction is
      mined. */
  datatype ExecOutcome = ExecOutcome(calls: seq<nat>, failed: bool, executed: map<nat, bool>)

  /** The loop over the selected proposals, as a function: read the flag,
      execute when it is false, stop at the first throw. `await
      execute(...)` returns once the transaction is sent; `minedAtOnce`
      says whether it is mined before the next `proposals` read, so that
      the read sees the flag it sets. */
  function ExecRun(props: seq<CreationLog>, executed: map<nat, bool>, fails: set<nat>, minedAtOnce: bool): ExecOutcome
    decreases |props|
  {
    if props == [] then ExecOutcome([], false, executed)
    else
      var id := props[0].id;
      if id !in executed || (!executed[id] && id in fails) then ExecOutcome([], true, executed)
      else if executed[id] then ExecRun(props[1..], executed, fails, minedAtOnce)
      else
        var seen := if minedAtOnce then executed[id := true] else executed;
        var rest := ExecRun(props[1..], seen, fails, minedAtOnce);
        ExecOutcome([id] + rest.calls, rest.failed, rest.executed[id := true])
  }

  /** The ids of some proposals. */
  function Ids(props: seq<CreationLog>): set<nat> {
    set p | p in props :: p.id
  }

  /** A run executes only listed proposals whose flag was false and whose
      execution does not throw; afterwards the flags of exactly those are
      set and no flag is cleared. */
  lemma {:induction false} ExecRunFacts(props: seq<CreationLog>, executed: map<nat, bool>, fails: set<nat>, minedAtOnce: bool)
    ensures var r := ExecRun(props, executed, fails, minedAtOnce);
            && r.executed.Keys == executed.Keys
            && (forall id :: id in executed ==> (r.executed[id] <==> executed[id] || id in r.calls))
            && (forall id :: id in r.calls ==> id in executed && !executed[id] && id !in fails)
            && (forall id :: id in r.calls ==> id in Ids(props))
    decreases |props|
  {
    if props != [] {
      var id := props[0].id;
      assert forall p :: p in props[1..] ==> p in props;
      if id in executed && !(!executed[id] && id in fails) {
        var seen := if executed[id] || !minedAtOnce then executed else executed[id := true];
        ExecRunFacts(props[1..], seen, fails, minedAtOnce);
      }
    }
  }

  /** The ids of some proposals, in list order. */
  function IdList(props: seq<CreationLog>): (ids: seq<nat>)
    ensures |ids| == |props| && forall i :: 0 <= i < |props| ==> ids[i] == props[i].id
  {
    seq(|props|, i requires 0 <= i < |props| => props[i].id)
  }

  /** `a` is `b` with some elements left out, the rest kept in order. */
  predicate SubSeq<T(==)>(a: seq<T>, b: seq<T>)
    decreases |b|
  {
    a == [] || (b != [] && ((a[0] == b[0] && SubSeq(a[1..], b[1..])) || SubSeq(a, b[1..])))
  }

  /** Proposals are executed in list order, each at most at its own place in
      the list. */
  lemma {:induction false} ExecRunInOrder(props: seq<CreationLog>, executed: map<nat, bool>, fails: set<nat>, minedAtOnce: bool)
    ensures SubSeq(ExecRun(props, executed, fails, minedAtOnce).calls, IdList(props))
    decreases |props|
  {
    if props != [] {
      var id := props[0].id;
      assert IdList(props)[0] == id && IdList(props)[1..] == IdList(props[1..]);
      if id in executed && !(!executed[id] && id in fails) {
        var seen := if executed[id] || !minedAtOnce then executed else executed[id := true];
        ExecRunInOrder(props[1..], seen, fails, minedAtOnce);
        if !executed[id] {
          var calls := ExecRun(props, executed, fails, minedAtOnce).calls;
          assert calls[0] == id && calls[1..] == ExecRun(props[1..], seen, fails, minedAtOnce).calls;
        }
      }
    }
  }

  /** The first read or execution that throws ends the run: the run fails,
      and every proposal it executed comes before the one that threw. */
  lemma {:induction false} ExecRunStops(props: seq<CreationLog>, executed: map<nat, bool>, fails: set<nat>,
                                        minedAtOnce: bool, k: nat)
    requires k < |props|
    requires props[k].id !in executed || (!executed[props[k].id] && props[k].id in fails)
    ensures ExecRun(props, executed, fails, minedAtOnce).failed
    ensures forall id :: id in ExecRun(props, executed, fails, minedAtOnce).calls ==> id in Ids(props[..k])
    decreases |props|
  {
    var id := props[0].id;
    if id !in executed || (!executed[id] && id in fails) {
    } else {
      var seen := if executed[id] || !minedAtOnce then executed else executed[id := true];
      assert props[1..][k - 1] == props[k];
      ExecRunStops(props[1..], seen, fails, minedAtOnce, k - 1);
      assert props[1..][..k - 1] == props[1..k];
      assert forall p :: p in props[1..k] ==> p in props[..k];
    }
  }

  /** No two proposal entries share an id, as for the logs of one
      contract, which emits `ProposalCreated` once per id. */
  predicate DistinctIds(props: seq<CreationLog>) {
    forall i, j :: 0 <= i < j < |props| ==> props[i].id != props[j].id
  }

  predicate Distinct(c: seq<nat>) {
    forall i, j :: 0 <= i < j < |c| ==> c[i] != c[j]
  }

  /** No proposal is executed twice in one run: either each id is listed
      once, or an id listed twice is read after the first execution is
      mined and its flag is set. */
  lemma {:induction false} ExecRunDistinct(props: seq<CreationLog>, executed: map<nat, bool>, fails: set<nat>, minedAtOnce: bool)
    requires minedAtOnce || DistinctIds(props)
    ensures Distinct(ExecRun(props, executed, fails, minedAtOnce).calls)
    decreases |props|
  {
    if props != [] {
      var id := props[0].id;
      assert DistinctIds(props) ==> DistinctIds(props[1..]) by {
        if DistinctIds(props) {
          forall i, j | 0 <= i < j < |props[1..]| ensures props[1..][i].id != props[1..][j].id {
            assert props[1..][i] == props[i + 1] && props[1..][j] == props[j + 1];
          }
        }
      }
      if id in executed && !executed[id] && id !in fails {
        var seen := if minedAtOnce then executed[id := true] else executed;
        ExecRunDistinct(props[1..], seen, fails, minedAtOnce);
        ExecRunFacts(props[1..], seen, fails, minedAtOnce);
        var rest := ExecRun(props[1..], seen, fails, minedAtOnce).calls;
        assert id !in rest by {
          if !minedAtOnce {
            forall q | q in props[1..] ensures q.id != id {
              var j :| 0 <= j < |props[1..]| && props[1..][j] == q;
              assert props[j + 1] == q;
            }
            assert id !in Ids(props[1..]);
          }
        }
        var c := [id] + rest;
        assert ExecRun(props, executed, fails, minedAtOnce).calls == c;
        forall i, j | 0 <= i < j < |c| ensures c[i] != c[j] {
          if i == 0 {
            assert c[j] == rest[j - 1] && rest[j - 1] in rest;
          } else {
            assert c[i] == rest[i - 1] && c[j] == rest[j - 1];
          }
        }
      } else if id in executed && executed[id] {
        ExecRunDistinct(props[1..], executed, fails, minedAtOnce);
      }
    }
  }

  /** When the execution is not yet mined at the next read, a proposal
      listed twice is executed twice. */
  lemma RepeatedIdExecutedTwice(p: CreationLog, executed: map<nat, bool>, fails: set<nat>)
    requires p.id in executed && !executed[p.id] && p.id !in fails
    ensures ExecRun([p, p], executed, fails, false).calls == [p.id, p.id]
  {
    assert [p, p][1..] == [p];
    assert [p][1..] == [];
    assert ExecRun([p], executed, fails, false).calls == [p.id];
  }

  /** When every read succeeds and no execution fails, the run ends without
      error and executes every selected proposal whose flag was false. */
  lemma {:induction false} ExecRunComplete(props: seq<CreationLog>, executed: map<nat, bool>, fails: set<nat>, minedAtOnce: bool)
    requires forall p :: p in props ==> p.id in executed && p.id !in fails
    ensures !ExecRun(props, executed, fails, minedAtOnce).failed
    ensures forall p :: p in props && !executed[p.id] ==> p.id in ExecRun(props, executed, fails, minedAtOnce).calls
    decreases |props|
  {
    if props != [] {
      var id := props[0].id;
      assert forall p :: p in props[1..] ==> p in props;
      if executed[id] {
        ExecRunComplete(props[1..], executed, fails, minedAtOnce);
      } else {
        var seen := if minedAtOnce then executed[id := true] else executed;
        ExecRunComplete(props[1..], seen, fails, minedAtOnce);
        forall p | p in props && !executed[p.id]
          ensures p.id in ExecRun(props, executed, fails, minedAtOnce).calls
        {
          if p.id != id {
            assert p in props[1..] by {
              assert p == props[0] || p in props[1..];
            }
            assert !seen[p.id];
          }
        }
      }
    }
  }

  /** The bot's `handler`: the execution window is read first (None when the
      read throws), then the selected proposals are processed in order. */
  method Handler(execWindow: Option<nat>, logs: seq<CreationLog>, blockNumber: nat,
                 executed: map<nat, bool>, fails: set<nat>, minedAtOnce: bool)
    returns (calls: seq<nat>, failed: bool, finalExecuted: map<nat, bool>)
    ensures execWindow.None? ==> calls == [] && failed && finalExecuted == executed
    ensures execWindow.Some? ==>
              var r := ExecRun(ExecutableFedProposals(logs, blockNumber, execWindow.value), executed, fails, minedAtOnce);
              calls == r.calls && failed == r.failed && finalExecuted == r.executed
  {
    if execWindow.None? {
      return [], true, executed;
    }
    var props := ExecutableFedProposals(logs, blockNumber, execWindow.value);
    ghost var whole := ExecRun(props, executed, fails, minedAtOnce);
    var seen := executed;
    calls, failed, finalExecuted := [], false, executed;
    var i := 0;
    while i < |props|
      invariant 0 <= i <= |props|
      invariant seen == if minedAtOnce then finalExecuted else executed
      invariant finalExecuted == Marked(executed, calls)
      invariant !failed
      invariant var tail := ExecRun(props[i..], seen, fails, minedAtOnce);
                whole.calls == calls + tail.calls && whole.failed == tail.failed
      decreases |props| - i
    {
      var id := props[i].id;
      assert props[i..][1..] == props[i + 1..];
      ExecRunFirst(props[i..], seen, fails, minedAtOnce);
      if id !in seen || (!seen[id] && id in fails) {
        failed := true;
        break;
      }
      if !seen[id] {
        finalExecuted := finalExecuted[id := true];
        if minedAtOnce {
          seen := finalExecuted;
        }
        ghost var tail := ExecRun(props[i + 1..], seen, fails, minedAtOnce);
        assert whole.calls == (calls + [id]) + tail.calls;
        assert (calls + [id])[..|calls|] == calls;
        calls := calls + [id];
      }
      i := i + 1;
    }
    assert whole.calls == calls && whole.failed == failed by {
      if !failed {
        assert props[i..] == [];
      }
    }
    FinalFlags(props, executed, fails, minedAtOnce, calls);
  }

  /** The run's final flags are the initial flags with each call's flag
      set. */
  lemma FinalFlags(props: seq<CreationLog>, executed: map<nat, bool>, fails: set<nat>, minedAtOnce: bool, calls: seq<nat>)
    requires ExecRun(props, executed, fails, minedAtOnce).calls == calls
    ensures Marked(executed, calls) == ExecRun(props, executed, fails, minedAtOnce).executed
  {
    ExecRunFacts(props, executed, fails, minedAtOnce);
    MarkedFlags(executed, calls);
    FlagsDetermined(executed, calls, Marked(executed, calls), ExecRun(props, executed, fails, minedAtOnce).executed);
  }

  /** The flags with each called id set, one call after another. */
  function Marked(executed: map<nat, bool>, calls: seq<nat>): map<nat, bool>
    decreases |calls|
  {
    if calls == [] then executed else Marked(executed, calls[..|calls| - 1])[calls[|calls| - 1] := true]
  }

  /** For calls on listed ids, marking keeps the ids and sets exactly the
      called ones. */
  lemma {:induction false} MarkedFlags(executed: map<nat, bool>, calls: seq<nat>)
    requires forall id :: id in calls ==> id in executed
    ensures Marked(executed, calls).Keys == executed.Keys
    ensures forall id :: id in executed ==> (Marked(executed, calls)[id] <==> executed[id] || id in calls)
    decreases |calls|
  {
    if calls != [] {
      var init := calls[..|calls| - 1];
      assert forall id :: id in calls <==> id in init || id == calls[|calls| - 1];
      MarkedFlags(executed, init);
    }
  }

  /** One step of the run: what the first proposal's read and execution
      leave for the rest. */
  lemma ExecRunFirst(props: seq<CreationLog>, executed: map<nat, bool>, fails: set<nat>, minedAtOnce: bool)
    requires props != []
    ensures var id, r := props[0].id, ExecRun(props, executed, fails, minedAtOnce);
            if id !in executed || (!executed[id] && id in fails) then r.calls == [] && r.failed
            else if executed[id] then r.calls == ExecRun(props[1..], executed, fails, minedAtOnce).calls
                                      && r.failed == ExecRun(props[1..], executed, fails, minedAtOnce).failed
            else var rest := ExecRun(props[1..], if minedAtOnce then executed[id := true] else executed, fails, minedAtOnce);
                 r.calls == [id] + rest.calls && r.failed == rest.failed
  {
  }

  /** The flags after a run are fixed by the flags before it and the calls
      it made. */
  lemma FlagsDetermined(executed: map<nat, bool>, calls: seq<nat>, a: map<nat, bool>, b: map<nat, bool>)
    requires a.Keys == executed.Keys && b.Keys == executed.Keys
    requires forall id :: id in executed ==> (a[id] <==> executed[id] || id in calls)
    requires forall id :: id in executed ==> (b[id] <==> executed[id] || id in calls)
    ensures a == b
  {
    assert forall id :: id in a ==> a[id] == b[id];
  }
}
