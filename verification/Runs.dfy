/** Composing runs from the steps of single peers. */
module Runs {
  import opened Digests
  import opened SyncState
  import opened Peers
  import opened Protocol

  ghost function Stepped(parses: Bytes -> bool, initial: nat, s: Shared, p: Peer, step: Step): (r: (Shared, Peer))
    requires SharedOk(initial, s) && PeerOk(s, p)
    ensures SharedOk(initial, r.0) && PeerOk(r.0, r.1)
  {
    PeerNextKeeps(parses, initial, s, p, step);
    PeerNext(parses, s, p, step)
  }

  /** The system after one of its peers has changed the shared state and itself. */
  ghost function With(sys: System, id: nat, r: (Shared, Peer)): System {
    System(r.0, sys.peers[id := r.1])
  }

  lemma WithTwice(sys: System, id: nat, q: (Shared, Peer), r: (Shared, Peer))
    ensures With(With(sys, id, q), id, r) == With(sys, id, r)
  {
    assert sys.peers[id := q.1][id := r.1] == sys.peers[id := r.1];
  }

  predicate IsPeerStep(step: Step) {
    !step.ReorgStep? && !step.BlockStep? && !step.ConsumeStep?
  }

  /** A peer step inside the whole system, followed by anything. */
  lemma RunThen(parses: Bytes -> bool, initial: nat, sys: System, id: nat, step: Step, rest: seq<Step>)
    requires Inv(initial, sys) && PeerOk(sys.shared, sys.PeerAt(id))
    requires IsPeerStep(step) && step.peer == id
    ensures var next := With(sys, id, Stepped(parses, initial, sys.shared, sys.PeerAt(id), step));
      && Inv(initial, next) && next == Next(parses, initial, sys, step)
      && Run(parses, initial, sys, [step] + rest) == Run(parses, initial, next, rest)
  {
    StepKeeps(parses, initial, sys, step);
    assert ([step] + rest)[1..] == rest;
  }

  lemma {:induction false} RunConcat(parses: Bytes -> bool, initial: nat, sys: System, a: seq<Step>, b: seq<Step>)
    requires Inv(initial, sys)
    ensures Run(parses, initial, sys, a + b) == Run(parses, initial, Run(parses, initial, sys, a), b)
    decreases a
  {
    if a == [] {
      assert a + b == b;
    } else {
      StepKeeps(parses, initial, sys, a[0]);
      assert (a + b)[1..] == a[1..] + b;
      RunConcat(parses, initial, Next(parses, initial, sys, a[0]), a[1..], b);
    }
  }
}
