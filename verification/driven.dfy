/** Delivery by every schedule whose rounds come when something is due, not by a chosen one. */
module DrivenRounds {
  import opened Words
  import opened Congestion
  import opened Fragmentation
  import opened Transmission
  import opened Endpoints
  import opened Links
  import opened Flushing
  import opened Safety
  import opened Progress
  import opened Rounds
  import opened Delivery

  /** A's window is closed, and it opens it, arms the prober, or finds the probe due. */
  predicate Prompting(e: Endpoint, now: u32) {
    Closed(e) && (e.windows.rmtWnd > 0 || e.probe.probeWait == 0 || Due(now, e.probe.tsProbe))
  }

  /** A fair round in which A's oldest segment is due, or the probe of its closed window. */
  predicate Useful(s: System, r: Schedule) {
    TimersDue(s.a, s.b, r) && (FrontDue(Ticked(s.a.e, Wrap32(r.at))) || Prompting(s.a.e, Wrap32(r.at)))
  }

  /** A schedule whose rounds are useful until everything is acknowledged. */
  predicate Driven(s: System, rs: seq<Schedule>, capacity: nat)
    decreases |rs|
  {
    rs == []
    || (&& rs[0].capacity == capacity && TimersDue(s.a, s.b, rs[0])
        && (s.a.e.out.una == |Spoken(s.a)| || Useful(s, rs[0]))
        && Driven(Round(s, rs[0]), rs[1..], capacity))
  }

  /** Useful rounds until a closed window is open. */
  function Stage(e: Endpoint): nat {
    if !Closed(e) then 0
    else if e.windows.rmtWnd > 0 || e.probe.probeWait != 0 then 1
    else 2
  }

  /** Useful rounds until everything is acknowledged, at most. */
  function Work(s: System): nat {
    if s.a.e.out.una >= |Spoken(s.a)| then 0
    else 3 * (|Spoken(s.a)| - s.a.e.out.una) + Stage(s.a.e)
  }

  lemma StageFalls(e: Endpoint, e': Endpoint, now: u32)
    requires Prompting(e, now) && Reopening(e, e', now) && e'.windows.sndWnd > 0
    ensures Stage(e') < Stage(e)
  {
    hide Due;
  }

  lemma ClosedNotDue(e: Endpoint, other: Peer, me: Peer, now: u32)
    requires Linked(me, other) && me.e == e && Closed(e)
    ensures !FrontDue(Ticked(e, now))
  {
    EmptyBufferUna(me, other);
    TickedUpdated(e, now);
    AdmitNothing(Ticked(e, now));
    hide Ticked, Linked, CongestionWindow;
  }

  lemma AdmitNothing(e: Endpoint)
    requires Closed(e) && e.out.una == e.out.nxt
    ensures Endpoints.Admitted(e).buf == []
  {
  }

  /** A useful round takes work off. */
  lemma WorkFalls(s: System, r: Schedule, bound: u32)
    requires Deliverable(s, r.capacity, bound) && Useful(s, r) && s.a.e.out.una < |Spoken(s.a)|
    ensures Work(Round(s, r)) < Work(s)
  {
    hide Linked, TimersDue, LimitAdmits, CanGoOn, Fragments, Spoken, Round, MessagesWithin, Advertises, FrontDue,
         Wrap32, Ticked, Due, Receptive, CongestionWindow;
    RoundDeliverable(s, r, bound);
    DeliverableReceptive(s, r.capacity, bound);
    if FrontDue(Ticked(s.a.e, Wrap32(r.at))) {
      if Closed(s.a.e) {
        ClosedNotDue(s.a.e, s.b, s.a, Wrap32(r.at));
      }
      RoundAcknowledges(s, r);
    } else {
      ClosedRound(s, r, bound);
      StageFalls(s.a.e, Round(s, r).a.e, Wrap32(r.at));
    }
  }

  /**
   Every schedule delivers: from every state in which B can go on, at whatever times its rounds
   come, a schedule of at least three useful rounds for each unacknowledged fragment, and two for
   a closed window, leaves everything acknowledged and B's application with every message.
   */
  lemma {:induction false} EveryDrivenSchedule(s: System, rs: seq<Schedule>, capacity: nat, bound: u32)
    requires Deliverable(s, capacity, bound) && Driven(s, rs, capacity) && |rs| >= Work(s)
    ensures RoundAll(s, rs).a.e.out.una == |Spoken(s.a)|
    ensures Drained(RoundAll(s, rs).b, capacity).received == s.a.sent
    decreases |rs|
  {
    hide Linked, TimersDue, LimitAdmits, CanGoOn, Fragments, Spoken, Round, MessagesWithin, Advertises, Useful, Drained,
         Stage;
    NumbersWithin(s.a, s.b);
    if rs == [] {
      AcknowledgedIsReadable(s, capacity, bound);
    } else {
      RoundDeliverable(s, rs[0], bound);
      if s.a.e.out.una < |Spoken(s.a)| {
        WorkFalls(s, rs[0], bound);
      } else {
        NumbersWithin(Round(s, rs[0]).a, Round(s, rs[0]).b);
      }
      EveryDrivenSchedule(Round(s, rs[0]), rs[1..], capacity, bound);
    }
  }
}
