/** Every range that is out is held by some peer. */
module Holding {
  import opened Digests
  import opened SyncState
  import opened Peers
  import opened Protocol
  import opened Runs
  import opened Tracking

  ghost predicate HoldsHeaders(p: Peer, h: nat) {
    p.headerRange.Some? && p.headerRange.value.start == h
  }

  ghost predicate HoldsFilters(p: Peer, h: nat) {
    p.filterRange.Some? && p.filterRange.value.start == h
  }

  /** A validated answer belongs to the range the peer still holds, unless the peer is done for; and a peer that is
      done for holds no range. */
  ghost predicate AnswersOwn(p: Peer) {
    && (p.headerRange.Some? || p.filterRange.Some? ==> p.CanSync())
    && (p.checkedHeaders.Some? ==>
          HoldsHeaders(p, p.checkedHeaders.value.start) || (p.headerRange.None? && !p.CanSync()))
    && (p.checkedFilters.Some? ==>
          HoldsFilters(p, p.checkedFilters.value.start) || (p.filterRange.None? && !p.CanSync()))
  }

  ghost predicate Held(sys: System) {
    && (forall h :: h in sys.shared.headers.active ==> exists id :: id in sys.peers && HoldsHeaders(sys.peers[id], h))
    && (forall h :: h in sys.shared.filters.active ==> exists id :: id in sys.peers && HoldsFilters(sys.peers[id], h))
    && (forall id :: id in sys.peers ==> AnswersOwn(sys.peers[id]))
  }

  ghost predicate HeldBy(s: Shared, p: Peer, t: Shared, q: Peer) {
    && (forall h :: h in t.headers.active ==>
          HoldsHeaders(q, h) || (h in s.headers.active && !HoldsHeaders(p, h)))
    && (forall h :: h in t.filters.active ==>
          HoldsFilters(q, h) || (h in s.filters.active && !HoldsFilters(p, h)))
  }

  lemma SyncHeld(initial: nat, s: Shared, p: Peer, now: int)
    requires SharedOk(initial, s) && AnswersOwn(p)
    ensures var (t, q) := SyncHeaders(s, p, now); HeldBy(s, p, t, q) && AnswersOwn(q)
    ensures TipHeight(s.chain) < |s.blocks|
    ensures var (t, q) := SyncFilters(s, p, now); HeldBy(s, p, t, q) && AnswersOwn(q)
  {
    InvAllows(initial, s);
    StaleReleaseShrinks(s.headers, now - HEADER_ASSIGNMENT_TIMEOUT);
    StaleReleaseShrinks(s.filters, now - FILTER_ASSIGNMENT_TIMEOUT);
  }

  lemma ReportHeld(initial: nat, s: Shared, p: Peer)
    requires SharedOk(initial, s) && PeerOk(s, p) && AnswersOwn(p)
    ensures p.checkedHeaders.Some? ==> var (t, q) := HeadersReported(s, p); HeldBy(s, p, t, q) && AnswersOwn(q)
    ensures NoEmptyBatch(s.filters)
    ensures p.checkedFilters.Some? ==> var (t, q) := FiltersReported(s, p); HeldBy(s, p, t, q) && AnswersOwn(q)
  {
    InvAllows(initial, s);
    if p.checkedHeaders.Some? {
      ReportedActive(s, p.checkedHeaders.value);
    }
    if p.checkedFilters.Some? {
      ReportFiltersKeeps(initial, s, p.checkedFilters.value);
    }
  }

  lemma RejectHeld(s: Shared, p: Peer, q: Peer)
    requires q == p.(connected := q.connected, invalid := q.invalid) && !q.CanSync() && AnswersOwn(p)
    ensures var (t, r) := ReleaseAssignments(s, q); HeldBy(s, p, t, r) && AnswersOwn(r)
  {
  }

  lemma ArriveHeld(parses: Bytes -> bool, s: Shared, p: Peer, m: CFHeaders, f: CFilter)
    requires AnswersOwn(p) && p.CanSync() && !Reporting(p)
    ensures p.headerRange.Some? ==> var (t, q) := HeadersArrive(s, p, m); HeldBy(s, p, t, q) && AnswersOwn(q)
    ensures p.filterRange.Some? ==> var (t, q) := FilterArrives(parses, s, p, f); HeldBy(s, p, t, q) && AnswersOwn(q)
  {
    RejectHeld(s, p, p.(invalid := true));
  }

  lemma PeerNextHeld(parses: Bytes -> bool, initial: nat, s: Shared, p: Peer, step: Step)
    requires SharedOk(initial, s) && PeerOk(s, p) && AnswersOwn(p) && IsPeerStep(step)
    ensures var (t, q) := Stepped(parses, initial, s, p, step); HeldBy(s, p, t, q) && AnswersOwn(q)
  {
    InvAllows(initial, s);
    if step.SyncHeadersStep? || step.SyncFiltersStep? {
      SyncHeld(initial, s, p, step.now);
    } else if step.HeadersReportedStep? || step.FiltersReportedStep? {
      ReportHeld(initial, s, p);
    } else if step.HeadersArriveStep? {
      if p.CanSync() && !Reporting(p) {
        ArriveHeld(parses, s, p, step.cfheaders, CFilter(Zero, []));
      }
    } else if step.FilterArrivesStep? {
      if p.CanSync() && !Reporting(p) {
        ArriveHeld(parses, s, p, CFHeaders(Zero, Zero, []), step.cfilter);
      }
    } else {
      RejectHeld(s, p, p.(connected := false));
    }
  }

  /** Holding carries over from one peer to the system. */
  lemma WithHeld(sys: System, id: nat, r: (Shared, Peer))
    requires Held(sys) && HeldBy(sys.shared, sys.PeerAt(id), r.0, r.1) && AnswersOwn(r.1)
    ensures Held(With(sys, id, r))
  {
    var next := With(sys, id, r);
    forall h | h in r.0.headers.active
      ensures exists k :: k in next.peers && HoldsHeaders(next.peers[k], h)
    {
      if HoldsHeaders(r.1, h) {
        assert id in next.peers && HoldsHeaders(next.peers[id], h);
      } else {
        var k :| k in sys.peers && HoldsHeaders(sys.peers[k], h);
        assert k in next.peers && HoldsHeaders(next.peers[k], h);
      }
    }
    forall h | h in r.0.filters.active
      ensures exists k :: k in next.peers && HoldsFilters(next.peers[k], h)
    {
      if HoldsFilters(r.1, h) {
        assert id in next.peers && HoldsFilters(next.peers[id], h);
      } else {
        var k :| k in sys.peers && HoldsFilters(sys.peers[k], h);
        assert k in next.peers && HoldsFilters(next.peers[k], h);
      }
    }
  }

  lemma StepHeld(parses: Bytes -> bool, initial: nat, sys: System, step: Step)
    requires Inv(initial, sys) && Held(sys)
    ensures Held(Next(parses, initial, sys, step))
  {
    if IsPeerStep(step) {
      var p := sys.PeerAt(step.peer);
      PeerNextHeld(parses, initial, sys.shared, p, step);
      WithHeld(sys, step.peer, Stepped(parses, initial, sys.shared, p, step));
    }
  }

  lemma {:induction false} RunHeld(parses: Bytes -> bool, initial: nat, sys: System, steps: seq<Step>)
    requires Inv(initial, sys) && Held(sys)
    ensures Held(Run(parses, initial, sys, steps))
    decreases steps
  {
    if steps != [] {
      StepKeeps(parses, initial, sys, steps[0]);
      StepHeld(parses, initial, sys, steps[0]);
      RunHeld(parses, initial, Next(parses, initial, sys, steps[0]), steps[1..]);
    }
  }

  // ---------- reports and active ranges ----------

  lemma ReportedActive(s: Shared, r: HeaderResponse)
    ensures ReportHeaders(s, r).headers.active == s.headers.active - {r.start}
  {
    DrainHeadersActive(s.chain, s.headers.Report(r.start, r), s.appendFailures);
  }

  lemma {:induction false} DrainHeadersActive(chain: seq<SmartHeader>, t: Tracker<HeaderResponse>, failures: nat)
    ensures DrainHeaders(chain, t, failures).1.active == t.active
    decreases |t.pending|
  {
    if t.last + 1 in t.pending {
      var taken := t.Take(t.last + 1);
      TakeShrinks(t, t.last + 1);
      var (c, u, ok) := AppendAll(chain, taken, t.pending[t.last + 1].headers);
      if ok {
        DrainHeadersActive(c, u, failures);
      }
    }
  }
}
