/** Which requester and which target the rendezvous splices, as a property of the events of a run. */
module Meetings {
  import opened Options
  import opened Rendezvous

  // ---------- what happened where in a run ----------

  /** The rendezvous just before event i. */
  function Before(evs: seq<Event>, i: nat): Option<Proxy>
    requires i <= |evs|
  {
    Run(FRESH, evs[..i])
  }

  /** Event i opened session h: a request by `r` for a connect id that was free. */
  ghost predicate Asked(evs: seq<Event>, i: nat, r: nat, c: string, h: nat) {
    && i < |evs| && evs[i] == Ask(r, c) && Before(evs, i).Some?
    && c !in Before(evs, i).value.proxies && h == Before(evs, i).value.nextReq + 1
  }

  /** Event j is target t presenting connect id c while session h was registered under it. */
  ghost predicate Found(evs: seq<Event>, j: nat, t: nat, c: string, h: nat) {
    && j < |evs| && evs[j] == LookUp(t, c) && Before(evs, j).Some?
    && c in Before(evs, j).value.proxies && Before(evs, j).value.proxies[c] == h
  }

  /** Event k hands over target t, which had found session h. */
  ghost predicate Delivers(evs: seq<Event>, k: nat, t: nat, h: nat) {
    && k < |evs| && evs[k] == Deliver(t) && Before(evs, k).Some?
    && t in Before(evs, k).value.arrivals && Before(evs, k).value.arrivals[t].session == h
  }

  ghost predicate DeliversFirst(evs: seq<Event>, k: nat, t: nat, h: nat) {
    Delivers(evs, k, t, h) && forall k', t' :: 0 <= k' < k ==> !Delivers(evs, k', t', h)
  }

  ghost predicate Arrived(evs: seq<Event>, i: nat, j: nat, r: nat, t: nat, c: string, h: nat) {
    i < j && Asked(evs, i, r, c, h) && Found(evs, j, t, c, h)
  }

  /** r asked for h, t found it, and t was the first of the targets that found it to be handed over. */
  ghost predicate Offered(evs: seq<Event>, i: nat, j: nat, k: nat, r: nat, t: nat, c: string, h: nat) {
    Arrived(evs, i, j, r, t, c, h) && j < k && DeliversFirst(evs, k, t, h)
  }

  /** And then h was spliced. */
  ghost predicate Meet(evs: seq<Event>, i: nat, j: nat, k: nat, l: nat, r: nat, t: nat, c: string, h: nat) {
    Offered(evs, i, j, k, r, t, c, h) && k < l < |evs| && evs[l] == Splice(h)
  }

  // ---------- what the state says of the run so far ----------

  ghost predicate SessionsTold(evs: seq<Event>, p: Proxy) {
    && (forall i, r, c, h :: Asked(evs, i, r, c, h) ==>
          h in p.sessions && p.sessions[h].requester == r && p.sessions[h].connectID == c)
    && (forall h :: h in p.sessions ==>
          exists i :: Asked(evs, i, p.sessions[h].requester, p.sessions[h].connectID, h))
  }

  ghost predicate ArrivalsTold(evs: seq<Event>, p: Proxy) {
    && (forall k, t, h :: Delivers(evs, k, t, h) ==> h in p.sessions)
    && (forall t :: t in p.arrivals && p.arrivals[t].session in p.sessions ==>
          exists i, j :: Arrived(evs, i, j, p.sessions[p.arrivals[t].session].requester, t,
                                 p.sessions[p.arrivals[t].session].connectID, p.arrivals[t].session))
    && (forall t :: t in p.arrivals && p.arrivals[t].queued ==>
          exists k :: Delivers(evs, k, t, p.arrivals[t].session))
  }

  ghost predicate WaitingTold(evs: seq<Event>, p: Proxy) {
    && (forall h, k, t :: h in p.sessions && p.sessions[h].phase.Waiting? && p.sessions[h].mailbox.None? ==>
          !Delivers(evs, k, t, h))
    && (forall h :: h in p.sessions && p.sessions[h].phase.Waiting? && p.sessions[h].mailbox.Some? ==>
          exists i, j, k :: Offered(evs, i, j, k, p.sessions[h].requester, p.sessions[h].mailbox.value,
                                    p.sessions[h].connectID, h))
  }

  ghost predicate SplicesTold(evs: seq<Event>, p: Proxy) {
    && (forall h, l :: 0 <= l < |evs| && evs[l] == Splice(h) ==> h in p.sessions && p.sessions[h].took.Some?)
    && (forall h :: h in p.sessions && p.sessions[h].took.Some? ==>
          exists i, j, k, l :: Meet(evs, i, j, k, l, p.sessions[h].requester, p.sessions[h].took.value,
                                    p.sessions[h].connectID, h))
  }

  ghost predicate Told(evs: seq<Event>, p: Proxy) {
    SessionsTold(evs, p) && ArrivalsTold(evs, p) && WaitingTold(evs, p) && SplicesTold(evs, p)
  }

  // ---------- one more event changes nothing about the earlier ones ----------

  lemma SameBefore(evs: seq<Event>, ev: Event, i: nat)
    requires i <= |evs|
    ensures Before(evs + [ev], i) == Before(evs, i)
  {
    assert (evs + [ev])[..i] == evs[..i];
  }

  lemma SameAsked(evs: seq<Event>, ev: Event)
    ensures forall i, r, c, h :: 0 <= i < |evs| ==> (Asked(evs + [ev], i, r, c, h) <==> Asked(evs, i, r, c, h))
  {
    forall i | 0 <= i < |evs|
      ensures Before(evs + [ev], i) == Before(evs, i)
    {
      SameBefore(evs, ev, i);
    }
  }

  lemma SameFound(evs: seq<Event>, ev: Event)
    ensures forall j, t, c, h :: 0 <= j < |evs| ==> (Found(evs + [ev], j, t, c, h) <==> Found(evs, j, t, c, h))
  {
    forall i | 0 <= i < |evs|
      ensures Before(evs + [ev], i) == Before(evs, i)
    {
      SameBefore(evs, ev, i);
    }
  }

  lemma SameDelivers(evs: seq<Event>, ev: Event)
    ensures forall k, t, h :: 0 <= k < |evs| ==> (Delivers(evs + [ev], k, t, h) <==> Delivers(evs, k, t, h))
  {
    forall i | 0 <= i < |evs|
      ensures Before(evs + [ev], i) == Before(evs, i)
    {
      SameBefore(evs, ev, i);
    }
  }

  lemma StillArrived(evs: seq<Event>, ev: Event)
    ensures forall i, j, r, t, c, h :: Arrived(evs, i, j, r, t, c, h) ==> Arrived(evs + [ev], i, j, r, t, c, h)
  {
    SameAsked(evs, ev);
    SameFound(evs, ev);
    hide Asked, Found;
    AskedWithin(evs);
    FoundWithin(evs);
  }

  lemma AskedWithin(evs: seq<Event>)
    ensures forall i: nat, r, c, h :: Asked(evs, i, r, c, h) ==> i < |evs|
  {
  }

  lemma FoundWithin(evs: seq<Event>)
    ensures forall j: nat, t, c, h :: Found(evs, j, t, c, h) ==> j < |evs|
  {
  }

  lemma DeliversWithin(evs: seq<Event>)
    ensures forall k: nat, t, h :: Delivers(evs, k, t, h) ==> k < |evs|
  {
  }

  lemma StillOffered(evs: seq<Event>, ev: Event)
    ensures forall i, j, k, r, t, c, h :: Offered(evs, i, j, k, r, t, c, h) ==>
              Offered(evs + [ev], i, j, k, r, t, c, h)
  {
    hide Arrived, Delivers;
    StillArrived(evs, ev);
    SameDelivers(evs, ev);
    DeliversWithin(evs);
  }

  lemma StillMet(evs: seq<Event>, ev: Event)
    ensures forall i, j, k, l, r, t, c, h :: Meet(evs, i, j, k, l, r, t, c, h) ==>
              Meet(evs + [ev], i, j, k, l, r, t, c, h)
  {
    hide Offered;
    StillOffered(evs, ev);
  }

  // ---------- every event keeps the account ----------

  lemma {:induction false} RunSnoc(p: Proxy, evs: seq<Event>, q: Proxy, ev: Event)
    requires Run(p, evs) == Some(q)
    ensures Run(p, evs + [ev]) == if Enabled(q, ev) then Some(Do(q, ev)) else None
    decreases |evs|
  {
    hide Do, Enabled;
    if evs == [] {
      assert evs + [ev] == [ev] && [ev][1..] == [];
    } else {
      assert (evs + [ev])[0] == evs[0] && (evs + [ev])[1..] == evs[1..] + [ev];
      RunSnoc(Do(p, evs[0]), evs[1..], q, ev);
    }
  }

  /** What the last event was, for the state it met. */
  lemma LastBefore(evs: seq<Event>, p: Proxy, ev: Event)
    requires Run(FRESH, evs) == Some(p)
    ensures Before(evs + [ev], |evs|) == Some(p)
  {
    assert (evs + [ev])[..|evs|] == evs;
  }

  predicate Opens(p: Proxy, ev: Event) {
    ev.Ask? && ev.connectID !in p.proxies
  }

  lemma SessionsGrow(p: Proxy, ev: Event)
    requires Enabled(p, ev) && TableOk(p)
    ensures forall h :: h in p.sessions ==>
              && h in Do(p, ev).sessions && Do(p, ev).sessions[h].requester == p.sessions[h].requester
              && Do(p, ev).sessions[h].connectID == p.sessions[h].connectID
    ensures forall h :: h in Do(p, ev).sessions && h !in p.sessions ==> Opens(p, ev) && h == p.nextReq + 1
    ensures Opens(p, ev) ==>
              && p.nextReq + 1 !in p.sessions && p.nextReq + 1 in Do(p, ev).sessions
              && Do(p, ev).sessions[p.nextReq + 1] == Session(ev.connectID, ev.requester, None, None, Waiting)
  {
    NextIsNew(p);
    hide TableOk;
  }

  lemma NextIsNew(p: Proxy)
    requires TableOk(p)
    ensures p.nextReq + 1 !in p.sessions
  {
  }

  lemma AskedNow(evs: seq<Event>, p: Proxy, ev: Event)
    requires Run(FRESH, evs) == Some(p)
    ensures forall r, c, h :: Asked(evs + [ev], |evs|, r, c, h)
                              <==> ev == Ask(r, c) && Opens(p, ev) && h == p.nextReq + 1
  {
    LastBefore(evs, p, ev);
  }

  lemma SessionsTellOn(evs: seq<Event>, p: Proxy, ev: Event)
    requires Run(FRESH, evs) == Some(p) && Enabled(p, ev) && TableOk(p) && SessionsTold(evs, p)
    ensures SessionsTold(evs + [ev], Do(p, ev))
  {
    hide Do, Enabled, Asked, TableOk, Run;
    var evs', p' := evs + [ev], Do(p, ev);
    AskedNow(evs, p, ev);
    SameAsked(evs, ev);
    AskedWithin(evs);
    AskedWithin(evs');
    SessionsGrow(p, ev);
    forall h | h in p'.sessions
      ensures exists i :: Asked(evs', i, p'.sessions[h].requester, p'.sessions[h].connectID, h)
    {
      if h in p.sessions {
        var i :| Asked(evs, i, p.sessions[h].requester, p.sessions[h].connectID, h);
        assert Asked(evs', i, p'.sessions[h].requester, p'.sessions[h].connectID, h);
      } else {
        assert Asked(evs', |evs|, p'.sessions[h].requester, p'.sessions[h].connectID, h);
      }
    }
    forall i: nat, r, c, h | Asked(evs', i, r, c, h)
      ensures h in p'.sessions && p'.sessions[h].requester == r && p'.sessions[h].connectID == c
    {
      if i < |evs| {
        assert Asked(evs, i, r, c, h);
      }
    }
  }

  lemma ArrivalsGrow(p: Proxy, ev: Event)
    requires Enabled(p, ev)
    ensures forall t :: t in p.arrivals ==>
              && t in Do(p, ev).arrivals && Do(p, ev).arrivals[t].session == p.arrivals[t].session
              && (Do(p, ev).arrivals[t].queued ==> p.arrivals[t].queued || ev == Deliver(t))
    ensures forall t :: t in Do(p, ev).arrivals && t !in p.arrivals ==>
              && ev.LookUp? && ev.target == t && ev.connectID in p.proxies
              && Do(p, ev).arrivals[t] == Arrival(ev.connectID, p.proxies[ev.connectID], false)
  {
  }

  lemma FoundNow(evs: seq<Event>, p: Proxy, t: nat, c: string)
    requires Run(FRESH, evs) == Some(p) && c in p.proxies
    ensures Found(evs + [LookUp(t, c)], |evs|, t, c, p.proxies[c])
  {
    LastBefore(evs, p, LookUp(t, c));
  }

  lemma DeliversNow(evs: seq<Event>, p: Proxy, ev: Event)
    requires Run(FRESH, evs) == Some(p)
    ensures forall t, h :: Delivers(evs + [ev], |evs|, t, h)
                           <==> ev == Deliver(t) && t in p.arrivals && p.arrivals[t].session == h
  {
    LastBefore(evs, p, ev);
  }

  lemma DeliveriesTellOn(evs: seq<Event>, p: Proxy, ev: Event)
    requires Run(FRESH, evs) == Some(p) && Enabled(p, ev) && TableOk(p) && MailOk(p) && ArrivalsTold(evs, p)
    ensures forall k, t, h :: Delivers(evs + [ev], k, t, h) ==> h in Do(p, ev).sessions
    ensures forall t :: t in Do(p, ev).arrivals && Do(p, ev).arrivals[t].queued ==>
              exists k :: Delivers(evs + [ev], k, t, Do(p, ev).arrivals[t].session)
  {
    hide Do, Enabled, Delivers, TableOk, Run, Arrived, Holds;
    var evs', p' := evs + [ev], Do(p, ev);
    SessionsGrow(p, ev);
    ArrivalsGrow(p, ev);
    DeliversNow(evs, p, ev);
    SameDelivers(evs, ev);
    DeliversWithin(evs);
    DeliversWithin(evs');
    forall k: nat, t, h | Delivers(evs', k, t, h)
      ensures h in p'.sessions
    {
      if k < |evs| {
        assert Delivers(evs, k, t, h);
      }
    }
    forall t | t in p'.arrivals && p'.arrivals[t].queued
      ensures exists k :: Delivers(evs', k, t, p'.arrivals[t].session)
    {
      if t in p.arrivals && p.arrivals[t].queued {
        var k :| Delivers(evs, k, t, p.arrivals[t].session);
        assert Delivers(evs', k, t, p'.arrivals[t].session);
      } else {
        assert Delivers(evs', |evs|, t, p'.arrivals[t].session);
      }
    }
  }

  lemma ArrivalsTellOn(evs: seq<Event>, p: Proxy, ev: Event)
    requires Run(FRESH, evs) == Some(p) && Enabled(p, ev) && TableOk(p) && MailOk(p)
    requires SessionsTold(evs, p) && ArrivalsTold(evs, p)
    ensures ArrivalsTold(evs + [ev], Do(p, ev))
  {
    hide Do, Enabled, Delivers, Run, Arrived, Holds, SessionsTold;
    var evs', p' := evs + [ev], Do(p, ev);
    DeliveriesTellOn(evs, p, ev);
    SessionsGrow(p, ev);
    ArrivalsGrow(p, ev);
    StillArrived(evs, ev);
    forall t | t in p'.arrivals && p'.arrivals[t].session in p'.sessions
      ensures exists i, j :: Arrived(evs', i, j, p'.sessions[p'.arrivals[t].session].requester, t,
                                     p'.sessions[p'.arrivals[t].session].connectID, p'.arrivals[t].session)
    {
      var h := p'.arrivals[t].session;
      if t in p.arrivals {
        var i, j :| Arrived(evs, i, j, p.sessions[h].requester, t, p.sessions[h].connectID, h);
        assert Arrived(evs', i, j, p'.sessions[h].requester, t, p'.sessions[h].connectID, h);
      } else {
        var i := NewArrival(evs, p, t, ev.connectID);
        assert Arrived(evs', i, |evs|, p'.sessions[h].requester, t, p'.sessions[h].connectID, h);
      }
    }
  }

  lemma NewArrival(evs: seq<Event>, p: Proxy, t: nat, c: string) returns (i: nat)
    requires Run(FRESH, evs) == Some(p) && TableOk(p) && SessionsTold(evs, p) && c in p.proxies
    ensures var h := p.proxies[c];
            && h in p.sessions
            && Arrived(evs + [LookUp(t, c)], i, |evs|, p.sessions[h].requester, t, p.sessions[h].connectID, h)
  {
    hide Run, Asked, Found;
    var h := p.proxies[c];
    i :| Asked(evs, i, p.sessions[h].requester, p.sessions[h].connectID, h);
    AskedWithin(evs);
    SameAsked(evs, LookUp(t, c));
    FoundNow(evs, p, t, c);
  }

  /** How one event changes a session that waits before or after it. */
  lemma WaitingChanges(p: Proxy, ev: Event, h: nat)
    requires Enabled(p, ev) && h in p.sessions && p.nextReq + 1 !in p.sessions
    ensures h in Do(p, ev).sessions
    ensures Do(p, ev).sessions[h].phase.Waiting? ==>
              && p.sessions[h].phase.Waiting?
              && (|| Do(p, ev).sessions[h].mailbox == p.sessions[h].mailbox
                  || (&& ev.Deliver? && ev.target in p.arrivals && p.arrivals[ev.target].session == h
                      && p.sessions[h].mailbox.None? && Do(p, ev).sessions[h].mailbox == Some(ev.target)))
    ensures ev.Deliver? && p.arrivals[ev.target].session == h && !p.arrivals[ev.target].queued ==>
              (p.sessions[h].mailbox.None? ==> Do(p, ev).sessions[h].mailbox == Some(ev.target))
  {
  }

  lemma EmptyTellsOn(evs: seq<Event>, p: Proxy, ev: Event, h: nat, k: nat, t: nat)
    requires Run(FRESH, evs) == Some(p) && Enabled(p, ev) && TableOk(p)
    requires ArrivalsTold(evs, p) && WaitingTold(evs, p)
    requires h in Do(p, ev).sessions && Do(p, ev).sessions[h].phase.Waiting? && Do(p, ev).sessions[h].mailbox.None?
    ensures !Delivers(evs + [ev], k, t, h)
  {
    hide Do, Delivers, Run, Arrived, Offered, TableOk;
    SessionsGrow(p, ev);
    NextIsNew(p);
    DeliversNow(evs, p, ev);
    SameDelivers(evs, ev);
    DeliversWithin(evs);
    DeliversWithin(evs + [ev]);
    if h in p.sessions {
      WaitingChanges(p, ev, h);
      assert !Delivers(evs, k, t, h);
    } else {
      NotYetKnown(evs, p, ev, h, k, t);
    }
  }

  lemma NotYetKnown(evs: seq<Event>, p: Proxy, ev: Event, h: nat, k: nat, t: nat)
    requires Run(FRESH, evs) == Some(p) && TableOk(p) && ArrivalsTold(evs, p) && ev.Ask? && h !in p.sessions
    ensures !Delivers(evs + [ev], k, t, h)
  {
    hide Delivers, Run, Arrived, TableOk;
    DeliversNow(evs, p, ev);
    SameDelivers(evs, ev);
    DeliversWithin(evs + [ev]);
    assert k < |evs| ==> !Delivers(evs, k, t, h);
  }

  lemma NewOffer(evs: seq<Event>, p: Proxy, t: nat) returns (i: nat, j: nat)
    requires Run(FRESH, evs) == Some(p) && t in p.arrivals && p.arrivals[t].session in p.sessions
    requires ArrivalsTold(evs, p) && WaitingTold(evs, p)
    requires var s := p.sessions[p.arrivals[t].session]; s.phase.Waiting? && s.mailbox.None?
    ensures var h := p.arrivals[t].session;
            Offered(evs + [Deliver(t)], i, j, |evs|, p.sessions[h].requester, t, p.sessions[h].connectID, h)
  {
    hide Delivers, Run, Arrived;
    var ev, h := Deliver(t), p.arrivals[t].session;
    i, j :| Arrived(evs, i, j, p.sessions[h].requester, t, p.sessions[h].connectID, h);
    StillArrived(evs, ev);
    DeliversNow(evs, p, ev);
    SameDelivers(evs, ev);
    ArrivedWithin(evs, i, j, p.sessions[h].requester, t, p.sessions[h].connectID, h);
  }

  lemma ArrivedWithin(evs: seq<Event>, i: nat, j: nat, r: nat, t: nat, c: string, h: nat)
    requires Arrived(evs, i, j, r, t, c, h)
    ensures i < j < |evs|
  {
  }

  lemma WaitingTellOn(evs: seq<Event>, p: Proxy, ev: Event)
    requires Run(FRESH, evs) == Some(p) && Enabled(p, ev) && TableOk(p)
    requires ArrivalsTold(evs, p) && WaitingTold(evs, p)
    ensures WaitingTold(evs + [ev], Do(p, ev))
  {
    hide Do, Delivers, Run, Offered, TableOk, ArrivalsTold;
    var evs', p' := evs + [ev], Do(p, ev);
    forall h, k, t | h in p'.sessions && p'.sessions[h].phase.Waiting? && p'.sessions[h].mailbox.None?
      ensures !Delivers(evs', k, t, h)
    {
      EmptyTellsOn(evs, p, ev, h, k, t);
    }
    SessionsGrow(p, ev);
    NextIsNew(p);
    StillOffered(evs, ev);
    forall h | h in p'.sessions && p'.sessions[h].phase.Waiting? && p'.sessions[h].mailbox.Some?
      ensures exists i, j, k :: Offered(evs', i, j, k, p'.sessions[h].requester, p'.sessions[h].mailbox.value,
                                        p'.sessions[h].connectID, h)
    {
      assert h in p.sessions;
      WaitingChanges(p, ev, h);
      var s, s' := p.sessions[h], p'.sessions[h];
      if s.mailbox.Some? {
        var i, j, k :| Offered(evs, i, j, k, s.requester, s.mailbox.value, s.connectID, h);
        assert Offered(evs', i, j, k, s'.requester, s'.mailbox.value, s'.connectID, h);
      } else {
        var i, j := NewOffer(evs, p, ev.target);
        assert Offered(evs', i, j, |evs|, s'.requester, s'.mailbox.value, s'.connectID, h);
      }
    }
  }

  lemma TookChanges(p: Proxy, ev: Event, h: nat)
    requires Enabled(p, ev) && h in p.sessions && p.nextReq + 1 !in p.sessions
    requires p.sessions[h].phase.Waiting? ==> p.sessions[h].took.None?
    ensures h in Do(p, ev).sessions
    ensures p.sessions[h].took.Some? ==> Do(p, ev).sessions[h].took == p.sessions[h].took
    ensures p.sessions[h].took.None? && Do(p, ev).sessions[h].took.Some? ==>
              ev == Splice(h) && p.sessions[h].phase.Waiting? && Do(p, ev).sessions[h].took == p.sessions[h].mailbox
    ensures ev == Splice(h) ==> Do(p, ev).sessions[h].took.Some?
  {
  }

  lemma WaitingTookNothing(p: Proxy)
    requires MailOk(p)
    ensures forall h :: h in p.sessions && p.sessions[h].phase.Waiting? ==> p.sessions[h].took.None?
  {
  }

  lemma SplicesTellOn(evs: seq<Event>, p: Proxy, ev: Event)
    requires Run(FRESH, evs) == Some(p) && Enabled(p, ev) && TableOk(p) && MailOk(p)
    requires WaitingTold(evs, p) && SplicesTold(evs, p)
    ensures SplicesTold(evs + [ev], Do(p, ev))
  {
    hide Do, Delivers, Run, Offered, TableOk, MailOk;
    var evs', p' := evs + [ev], Do(p, ev);
    SessionsGrow(p, ev);
    NextIsNew(p);
    WaitingTookNothing(p);
    forall h, l | 0 <= l < |evs'| && evs'[l] == Splice(h)
      ensures h in p'.sessions && p'.sessions[h].took.Some?
    {
      assert l < |evs| ==> evs[l] == Splice(h);
      assert h in p.sessions;
      TookChanges(p, ev, h);
    }
    forall h | h in p'.sessions && p'.sessions[h].took.Some?
      ensures exists i, j, k, l :: Meet(evs', i, j, k, l, p'.sessions[h].requester, p'.sessions[h].took.value,
                                        p'.sessions[h].connectID, h)
    {
      assert h in p.sessions;
      TookChanges(p, ev, h);
      MeetsOn(evs, p, ev, h);
    }
  }

  lemma MeetsOn(evs: seq<Event>, p: Proxy, ev: Event, h: nat)
    requires Run(FRESH, evs) == Some(p) && h in p.sessions && WaitingTold(evs, p) && SplicesTold(evs, p)
    ensures p.sessions[h].took.Some? ==>
              exists i, j, k, l :: Meet(evs + [ev], i, j, k, l, p.sessions[h].requester, p.sessions[h].took.value,
                                        p.sessions[h].connectID, h)
    ensures ev == Splice(h) && p.sessions[h].phase.Waiting? && p.sessions[h].mailbox.Some? ==>
              exists i, j, k, l :: Meet(evs + [ev], i, j, k, l, p.sessions[h].requester, p.sessions[h].mailbox.value,
                                        p.sessions[h].connectID, h)
  {
    hide Run, Offered;
    var s := p.sessions[h];
    if s.took.Some? {
      StillMet(evs, ev);
      var i, j, k, l :| Meet(evs, i, j, k, l, s.requester, s.took.value, s.connectID, h);
      assert Meet(evs + [ev], i, j, k, l, s.requester, s.took.value, s.connectID, h);
    }
    if ev == Splice(h) && s.phase.Waiting? && s.mailbox.Some? {
      StillOffered(evs, ev);
      var i, j, k :| Offered(evs, i, j, k, s.requester, s.mailbox.value, s.connectID, h);
      OfferedWithin(evs, i, j, k, s.requester, s.mailbox.value, s.connectID, h);
      assert Meet(evs + [ev], i, j, k, |evs|, s.requester, s.mailbox.value, s.connectID, h);
    }
  }

  lemma OfferedWithin(evs: seq<Event>, i: nat, j: nat, k: nat, r: nat, t: nat, c: string, h: nat)
    requires Offered(evs, i, j, k, r, t, c, h)
    ensures k < |evs|
  {
  }

  lemma {:induction false} ToldOn(evs: seq<Event>, p: Proxy, more: seq<Event>, q: Proxy)
    requires Run(FRESH, evs) == Some(p) && Inv(p) && Told(evs, p) && Run(p, more) == Some(q)
    ensures Told(evs + more, q)
    decreases |more|
  {
    hide Do, Enabled, TableOk, MailOk, PairsOk, SessionsTold, ArrivalsTold, WaitingTold, SplicesTold;
    if more == [] {
      assert evs + more == evs;
    } else {
      var ev := more[0];
      SessionsTellOn(evs, p, ev);
      ArrivalsTellOn(evs, p, ev);
      WaitingTellOn(evs, p, ev);
      SplicesTellOn(evs, p, ev);
      DoKeeps(p, ev);
      RunSnoc(FRESH, evs, p, ev);
      ToldOn(evs + [ev], Do(p, ev), more[1..], q);
      assert evs + more == evs + [ev] + more[1..];
    }
  }

  // ---------- the theorems ----------

  /**
   * Exactly which runs splice a requester with a target: the requester's Ask opened a session, the target
   * presented its connect id while it was registered, was the first that did to be handed over, and the
   * session then spliced, in this order.
   */
  lemma SplicedIff(evs: seq<Event>, p: Proxy, r: nat, t: nat)
    requires Run(FRESH, evs) == Some(p)
    ensures (r, t) in p.spliced <==> exists i, j, k, l, c, h :: Meet(evs, i, j, k, l, r, t, c, h)
  {
    hide Run, Meet, Told, Inv;
    AtFirst();
    ToldOn([], FRESH, evs, p);
    assert [] + evs == evs;
    RunKeeps(FRESH, evs, p);
    if (r, t) in p.spliced {
      SplicedMet(evs, p, r, t);
    }
    if exists i, j, k, l, c, h :: Meet(evs, i, j, k, l, r, t, c, h) {
      var i, j, k, l, c, h :| Meet(evs, i, j, k, l, r, t, c, h);
      MetSpliced(evs, p, i, j, k, l, r, t, c, h);
    }
  }

  lemma SplicedMet(evs: seq<Event>, p: Proxy, r: nat, t: nat)
    requires Inv(p) && Told(evs, p) && (r, t) in p.spliced
    ensures exists i, j, k, l, c, h :: Meet(evs, i, j, k, l, r, t, c, h)
  {
    hide Meet, ArrivalsTold, WaitingTold, SessionsTold, TableOk, MailOk;
    var h :| Spliced(p, h, (r, t));
    var i, j, k, l :| Meet(evs, i, j, k, l, r, t, p.sessions[h].connectID, h);
  }

  lemma MetSpliced(evs: seq<Event>, p: Proxy, i: nat, j: nat, k: nat, l: nat, r: nat, t: nat, c: string, h: nat)
    requires Inv(p) && Told(evs, p) && Meet(evs, i, j, k, l, r, t, c, h)
    ensures (r, t) in p.spliced
  {
    hide Meet, ArrivalsTold, WaitingTold, TableOk, MailOk, Asked;
    MeetFacts(evs, i, j, k, l, r, t, c, h);
    var t' := p.sessions[h].took.value;
    var i', j', k', l' :| Meet(evs, i', j', k', l', r, t', c, h);
    OneFirst(evs, i, j, k, l, t, i', j', k', l', t', r, c, h);
  }

  lemma AtFirst()
    ensures Inv(FRESH) && Told([], FRESH) && Run(FRESH, []) == Some(FRESH)
  {
  }

  lemma MeetFacts(evs: seq<Event>, i: nat, j: nat, k: nat, l: nat, r: nat, t: nat, c: string, h: nat)
    requires Meet(evs, i, j, k, l, r, t, c, h)
    ensures Asked(evs, i, r, c, h) && l < |evs| && evs[l] == Splice(h)
  {
  }

  lemma OneFirst(evs: seq<Event>, i: nat, j: nat, k: nat, l: nat, t: nat,
                 i': nat, j': nat, k': nat, l': nat, t': nat, r: nat, c: string, h: nat)
    requires Meet(evs, i, j, k, l, r, t, c, h) && Meet(evs, i', j', k', l', r, t', c, h)
    ensures t == t'
  {
    hide Arrived;
    assert !(k < k') && !(k' < k);
  }

  /**
   * In every run, handing over a target that found a waiting session with an empty mailbox lets that session
   * splice, and splicing it adds exactly its requester with that target.
   */
  lemma DeliveredIsSpliced(evs: seq<Event>, p: Proxy, t: nat)
    requires Run(FRESH, evs) == Some(p) && t in p.arrivals && p.arrivals[t].session in p.sessions
    requires !p.arrivals[t].queued
    requires var s := p.sessions[p.arrivals[t].session]; s.phase.Waiting? && s.mailbox.None?
    ensures var h := p.arrivals[t].session;
            && Enabled(p, Deliver(t))
            && Enabled(Do(p, Deliver(t)), Splice(h))
            && Do(Do(p, Deliver(t)), Splice(h)).spliced == p.spliced + {(p.sessions[h].requester, t)}
  {
  }

  /** A session that already holds a target is not given another: handing one over changes nothing at all. */
  lemma FullMailboxRefuses(evs: seq<Event>, p: Proxy, t: nat)
    requires Run(FRESH, evs) == Some(p) && t in p.arrivals
    ensures Enabled(p, Deliver(t))
    ensures p.sessions[p.arrivals[t].session].mailbox.Some? ==> Do(p, Deliver(t)) == p
  {
    hide Run;
    RunKeeps(FRESH, evs, p) by { assert Inv(FRESH); }
  }

  /** From every state of every run, a new requester and a new target with a free connect id can be spliced. */
  lemma MeetingSucceeds(evs: seq<Event>, p: Proxy, r: nat, t: nat, c: string)
    requires Run(FRESH, evs) == Some(p) && r !in p.requesters && t !in p.arrivals && c !in p.proxies
    ensures exists h, q :: && Run(p, [Ask(r, c), LookUp(t, c), Deliver(t), Splice(h)]) == Some(q)
                           && q.spliced == p.spliced + {(r, t)}
  {
    var h := p.nextReq + 1;
    var p1 := Do(p, Ask(r, c));
    var p2 := Do(p1, LookUp(t, c));
    var p3 := Do(p2, Deliver(t));
    var p4 := Do(p3, Splice(h));
    var a, b, d, e := Ask(r, c), LookUp(t, c), Deliver(t), Splice(h);
    assert [a, b, d, e][1..] == [b, d, e] && [b, d, e][1..] == [d, e] && [d, e][1..] == [e] && [e][1..] == [];
    assert Run(p3, [e]) == Some(p4);
    assert Run(p2, [d, e]) == Some(p4);
    assert Run(p1, [b, d, e]) == Some(p4);
    assert Run(p, [a, b, d, e]) == Some(p4);
  }
}
