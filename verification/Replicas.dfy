/**
 The whole service: the key-value stores that the nodes of a cluster feed with the commands
 they apply.
 */
module Replicas {
  import opened Cluster
  import opened Commands
  import opened KVStores
  import CarefulRuns

  /** Interpreting a list in two parts. */
  lemma {:induction false} InterpretRest(m: Contents, texts: seq<string>, n: nat)
    requires n <= |texts|
    ensures var (m1, answers1) := InterpretAll(m, texts[..n]);
            var (m2, answers2) := InterpretAll(m1, texts[n..]);
            InterpretAll(m, texts) == (m2, answers1 + answers2)
    decreases |texts|
  {
    var (m1, answers1) := InterpretAll(m, texts[..n]);
    if n == |texts| {
      assert texts[..n] == texts && texts[n..] == [];
      assert answers1 + [] == answers1;
    } else {
      var front := texts[..|texts| - 1];
      InterpretRest(m, front, n);
      assert front[..n] == texts[..n] && front[n..] == texts[n..][..|texts| - 1 - n];
      var (m2, answers2) := InterpretAll(m1, front[n..]);
      var (m3, answer) := Interpret(m2, texts[|texts| - 1]);
      assert InterpretAll(m1, texts[n..]) == (m3, answers2 + [answer]);
      assert answers1 + (answers2 + [answer]) == answers1 + answers2 + [answer];
    }
  }

  /** What the store of a node that has applied these commands holds, and what it has answered. */
  function Store(applied: seq<string>): (Contents, seq<Result<string>>) {
    InterpretAll(map[], applied)
  }

  /** The state machines of any two nodes, at any two times of a careful run: the one that has
      applied less has given the same answers so far, and applying the commands it lacks
      takes it exactly to the other's contents.  In particular equal progress means equal
      stores. */
  lemma StoresAgree(states: seq<Cluster>, events: seq<Event>, a: nat, b: nat, i: int, j: int)
    requires IsCarefulRun(states, events) && a < |states| && b < |states|
    requires i in states[a].nodes && j in states[b].nodes
    requires |states[a].nodes[i].applied| <= |states[b].nodes[j].applied|
    ensures var behind, ahead := states[a].nodes[i].applied, states[b].nodes[j].applied;
      && Store(ahead).0 == InterpretAll(Store(behind).0, ahead[|behind|..]).0
      && Store(behind).1 <= Store(ahead).1
      && (|behind| == |ahead| ==> Store(behind) == Store(ahead))
  {
    var behind, ahead := states[a].nodes[i].applied, states[b].nodes[j].applied;
    CarefulRuns.AppliedSequencesAgree(states, events, a, b, i, j);
    assert ahead[..|behind|] == behind;
    InterpretRest(map[], ahead, |behind|);
    if |behind| == |ahead| { assert ahead == behind; }
  }
}
