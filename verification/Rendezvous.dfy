/** The proxy rendezvous: requesters and reverse-connecting targets matched by connect id. */
module Rendezvous {
  import opened Options

  /** A session waits for a target, holds the one it took until the splice ends, or is over. */
  datatype Phase = Waiting | Splicing | Over

  /** `mailbox` is the session's one-place channel; `took` the target connection it received from it. */
  datatype Session = Session(connectID: string, requester: nat, mailbox: Option<nat>, took: Option<nat>, phase: Phase)

  /** A reverse-connect: its connect id, the session it found, and whether it has been put in the mailbox. */
  datatype Arrival = Arrival(connectID: string, session: nat, queued: bool)

  /**
   * Sessions and arrivals stay in their maps when they end; `requesters` holds every requester that has asked.
   * `proxies` is the table the source keeps, by connect id.
   */
  datatype Proxy = Proxy(nextReq: nat, proxies: map<string, nat>, sessions: map<nat, Session>,
                         arrivals: map<nat, Arrival>, requesters: set<nat>, spliced: set<(nat, nat)>)

  datatype Event =
    | Ask(requester: nat, connectID: string)
    | LookUp(target: nat, connectID: string)
    | Deliver(target: nat)
    | Splice(session: nat)
    | SpliceFails(session: nat)
    | GiveUp(session: nat)
    | Finish(session: nat)

  const FRESH := Proxy(0, map[], map[], map[], {}, {})

  /** proxyRelay up to the registration: a connect id already in use is refused. */
  function DoAsk(p: Proxy, requester: nat, connectID: string): Proxy {
    var id := p.nextReq + 1;
    var q := p.(nextReq := id, requesters := p.requesters + {requester});
    if connectID in p.proxies then q
    else q.(proxies := p.proxies[connectID := id],
            sessions := p.sessions[id := Session(connectID, requester, None, None, Waiting)])
  }

  /** handleReverseConnect's look-up; a connect id with no session is refused. */
  function DoLookUp(p: Proxy, target: nat, connectID: string): Proxy {
    if connectID !in p.proxies then p
    else p.(arrivals := p.arrivals[target := Arrival(connectID, p.proxies[connectID], false)])
  }

  /** The non-blocking send into the session's channel. */
  function DoDeliver(p: Proxy, target: nat): Proxy
    requires target in p.arrivals && p.arrivals[target].session in p.sessions
  {
    var h := p.arrivals[target].session;
    var s := p.sessions[h];
    if s.mailbox.Some? || p.arrivals[target].queued then p
    else p.(sessions := p.sessions[h := s.(mailbox := Some(target))],
            arrivals := p.arrivals[target := p.arrivals[target].(queued := true)])
  }

  function DoSplice(p: Proxy, h: nat): Proxy
    requires h in p.sessions && p.sessions[h].mailbox.Some?
  {
    var s := p.sessions[h];
    p.(sessions := p.sessions[h := s.(mailbox := None, took := s.mailbox, phase := Splicing)],
       spliced := p.spliced + {(s.requester, s.mailbox.value)})
  }

  /** Leaving proxyRelay: the deferred removal is by connect id. */
  function Leave(p: Proxy, h: nat, s: Session): Proxy {
    p.(sessions := p.sessions[h := s.(phase := Over)],
       proxies := map c | c in p.proxies && c != s.connectID :: p.proxies[c])
  }

  predicate Enabled(p: Proxy, ev: Event) {
    match ev
    case Ask(r, _) => r !in p.requesters
    case LookUp(t, _) => t !in p.arrivals
    case Deliver(t) => t in p.arrivals && p.arrivals[t].session in p.sessions
    case Splice(h) => h in p.sessions && p.sessions[h].phase.Waiting? && p.sessions[h].mailbox.Some?
    case SpliceFails(h) => h in p.sessions && p.sessions[h].phase.Waiting? && p.sessions[h].mailbox.Some?
    case GiveUp(h) => h in p.sessions && p.sessions[h].phase.Waiting?
    case Finish(h) => h in p.sessions && p.sessions[h].phase.Splicing?
  }

  function Do(p: Proxy, ev: Event): Proxy
    requires Enabled(p, ev)
  {
    match ev
    case Ask(r, c) => DoAsk(p, r, c)
    case LookUp(t, c) => DoLookUp(p, t, c)
    case Deliver(t) => DoDeliver(p, t)
    case Splice(h) => DoSplice(p, h)
    case SpliceFails(h) => Leave(p, h, p.sessions[h].(mailbox := None))
    case GiveUp(h) => Leave(p, h, p.sessions[h])
    case Finish(h) => Leave(p, h, p.sessions[h])
  }

  function Run(p: Proxy, evs: seq<Event>): Option<Proxy>
    decreases |evs|
  {
    if evs == [] then Some(p) else
    if Enabled(p, evs[0]) then Run(Do(p, evs[0]), evs[1..]) else None
  }

  // ---------- what every run keeps ----------

  /** A session is registered under its connect id exactly while it is not over. */
  ghost predicate TableOk(p: Proxy) {
    && (forall c :: c in p.proxies ==> p.proxies[c] in p.sessions && p.sessions[p.proxies[c]].connectID == c
                                       && !p.sessions[p.proxies[c]].phase.Over?)
    && (forall h :: h in p.sessions && !p.sessions[h].phase.Over? ==>
          p.sessions[h].connectID in p.proxies && p.proxies[p.sessions[h].connectID] == h)
    && (forall h :: h in p.sessions ==> h <= p.nextReq && p.sessions[h].requester in p.requesters)
    && (forall h, k :: h in p.sessions && k in p.sessions && p.sessions[h].requester == p.sessions[k].requester ==>
          h == k)
  }

  /** A target in a mailbox, or taken from one, came with that session's connect id and went nowhere else. */
  ghost predicate MailOk(p: Proxy) {
    && (forall t :: t in p.arrivals ==> p.arrivals[t].session in p.sessions
                                        && p.sessions[p.arrivals[t].session].connectID == p.arrivals[t].connectID)
    && (forall h :: h in p.sessions && p.sessions[h].mailbox.Some? ==> Holds(p, h, p.sessions[h].mailbox.value))
    && (forall h :: h in p.sessions && p.sessions[h].took.Some? ==> Holds(p, h, p.sessions[h].took.value))
    && (forall h :: h in p.sessions && p.sessions[h].phase.Waiting? ==> p.sessions[h].took.None?)
    && (forall h :: h in p.sessions && p.sessions[h].mailbox.Some? ==> p.sessions[h].mailbox != p.sessions[h].took)
  }

  ghost predicate Holds(p: Proxy, h: nat, t: nat) {
    t in p.arrivals && p.arrivals[t].session == h && p.arrivals[t].queued
  }

  /** The spliced pairs are exactly the sessions that took a target. */
  ghost predicate PairsOk(p: Proxy) {
    && (forall pair :: pair in p.spliced ==> exists h :: Spliced(p, h, pair))
    && (forall h :: h in p.sessions && p.sessions[h].took.Some? ==>
          (p.sessions[h].requester, p.sessions[h].took.value) in p.spliced)
  }

  ghost predicate Spliced(p: Proxy, h: nat, pair: (nat, nat)) {
    h in p.sessions && p.sessions[h].requester == pair.0 && p.sessions[h].took == Some(pair.1)
  }

  ghost predicate Inv(p: Proxy) {
    TableOk(p) && MailOk(p) && PairsOk(p)
  }

  lemma SplicedStays(p: Proxy, p': Proxy)
    requires PairsOk(p)
    requires forall h :: h in p.sessions ==> h in p'.sessions && p'.sessions[h].requester == p.sessions[h].requester
                                             && (p.sessions[h].took.Some? ==> p'.sessions[h].took == p.sessions[h].took)
    ensures forall pair :: pair in p.spliced ==> exists h :: Spliced(p', h, pair)
  {
    forall pair | pair in p.spliced
      ensures exists h :: Spliced(p', h, pair)
    {
      var h :| Spliced(p, h, pair);
      assert Spliced(p', h, pair);
    }
  }

  lemma AskKeeps(p: Proxy, r: nat, c: string)
    requires Inv(p) && r !in p.requesters
    ensures Inv(DoAsk(p, r, c))
  {
    hide MailOk, PairsOk, TableOk;
    AskKeepsTable(p, r, c);
    AskKeepsMail(p, r, c);
    AskKeepsPairs(p, r, c);
  }

  lemma AskKeepsTable(p: Proxy, r: nat, c: string)
    requires TableOk(p) && r !in p.requesters
    ensures TableOk(DoAsk(p, r, c)) && p.nextReq + 1 !in p.sessions
  {
    assert p.nextReq + 1 !in p.sessions;
  }

  lemma AskKeepsMail(p: Proxy, r: nat, c: string)
    requires MailOk(p) && p.nextReq + 1 !in p.sessions
    ensures MailOk(DoAsk(p, r, c))
  {
    assert forall h, t :: Holds(p, h, t) ==> Holds(DoAsk(p, r, c), h, t);
  }

  lemma AskKeepsPairs(p: Proxy, r: nat, c: string)
    requires PairsOk(p) && p.nextReq + 1 !in p.sessions
    ensures PairsOk(DoAsk(p, r, c))
  {
    SplicedStays(p, DoAsk(p, r, c));
  }

  lemma LookUpKeeps(p: Proxy, t: nat, c: string)
    requires Inv(p) && t !in p.arrivals
    ensures Inv(DoLookUp(p, t, c))
  {
    var p' := DoLookUp(p, t, c);
    SplicedStays(p, p');
    assert forall h, u :: Holds(p, h, u) ==> Holds(p', h, u);
  }

  lemma DeliverKeeps(p: Proxy, t: nat)
    requires Inv(p) && t in p.arrivals && p.arrivals[t].session in p.sessions
    ensures Inv(DoDeliver(p, t))
  {
    hide TableOk, MailOk, PairsOk;
    DeliverKeepsTable(p, t);
    DeliverKeepsMail(p, t);
    DeliverKeepsPairs(p, t);
  }

  lemma DeliverKeepsTable(p: Proxy, t: nat)
    requires TableOk(p) && t in p.arrivals && p.arrivals[t].session in p.sessions
    ensures TableOk(DoDeliver(p, t))
  {
  }

  lemma DeliverKeepsMail(p: Proxy, t: nat)
    requires MailOk(p) && t in p.arrivals && p.arrivals[t].session in p.sessions
    ensures MailOk(DoDeliver(p, t))
  {
    var p' := DoDeliver(p, t);
    assert forall k, u :: Holds(p, k, u) ==> Holds(p', k, u);
    assert p' == p || Holds(p', p.arrivals[t].session, t);
  }

  lemma DeliverKeepsPairs(p: Proxy, t: nat)
    requires PairsOk(p) && t in p.arrivals && p.arrivals[t].session in p.sessions
    ensures PairsOk(DoDeliver(p, t))
  {
    SplicedStays(p, DoDeliver(p, t));
  }

  lemma SpliceKeeps(p: Proxy, h: nat)
    requires Inv(p) && Enabled(p, Splice(h))
    ensures Inv(DoSplice(p, h))
  {
    hide TableOk, PairsOk;
    SpliceKeepsTable(p, h);
    SpliceKeepsMail(p, h);
    SpliceKeepsPairs(p, h);
  }

  lemma SpliceKeepsTable(p: Proxy, h: nat)
    requires TableOk(p) && Enabled(p, Splice(h))
    ensures TableOk(DoSplice(p, h))
  {
  }

  lemma SpliceKeepsMail(p: Proxy, h: nat)
    requires MailOk(p) && Enabled(p, Splice(h))
    ensures MailOk(DoSplice(p, h))
  {
    var p' := DoSplice(p, h);
    assert forall k, u :: Holds(p, k, u) ==> Holds(p', k, u);
  }

  lemma SpliceKeepsPairs(p: Proxy, h: nat)
    requires PairsOk(p) && Enabled(p, Splice(h)) && p.sessions[h].took.None?
    ensures PairsOk(DoSplice(p, h))
  {
    var p' := DoSplice(p, h);
    SplicedStays(p, p');
    assert Spliced(p', h, (p.sessions[h].requester, p.sessions[h].mailbox.value));
  }

  lemma LeaveKeeps(p: Proxy, h: nat, s: Session)
    requires Inv(p) && Leaving(p, h, s)
    ensures Inv(Leave(p, h, s))
  {
    hide TableOk, MailOk, PairsOk;
    LeaveKeepsTable(p, h, s);
    LeaveKeepsMail(p, h, s);
    LeaveKeepsPairs(p, h, s);
  }

  lemma LeaveKeepsTable(p: Proxy, h: nat, s: Session)
    requires TableOk(p) && Leaving(p, h, s)
    ensures TableOk(Leave(p, h, s))
  {
  }

  lemma LeaveKeepsMail(p: Proxy, h: nat, s: Session)
    requires MailOk(p) && Leaving(p, h, s)
    ensures MailOk(Leave(p, h, s))
  {
    var p' := Leave(p, h, s);
    assert forall k, u :: Holds(p, k, u) ==> Holds(p', k, u);
  }

  lemma LeaveKeepsPairs(p: Proxy, h: nat, s: Session)
    requires PairsOk(p) && Leaving(p, h, s)
    ensures PairsOk(Leave(p, h, s))
  {
    SplicedStays(p, Leave(p, h, s));
  }

  ghost predicate Leaving(p: Proxy, h: nat, s: Session) {
    && h in p.sessions && !p.sessions[h].phase.Over?
    && (s == p.sessions[h] || s == p.sessions[h].(mailbox := None))
  }

  lemma DoKeeps(p: Proxy, ev: Event)
    requires Inv(p) && Enabled(p, ev)
    ensures Inv(Do(p, ev))
  {
    hide Inv, DoAsk, DoLookUp, DoDeliver, DoSplice, Leave;
    match ev
    case Ask(r, c) => AskKeeps(p, r, c);
    case LookUp(t, c) => LookUpKeeps(p, t, c);
    case Deliver(t) => DeliverKeeps(p, t);
    case Splice(h) => SpliceKeeps(p, h);
    case SpliceFails(h) => LeaveKeeps(p, h, p.sessions[h].(mailbox := None));
    case GiveUp(h) => LeaveKeeps(p, h, p.sessions[h]);
    case Finish(h) => LeaveKeeps(p, h, p.sessions[h]);
  }

  lemma {:induction false} RunKeeps(p: Proxy, evs: seq<Event>, p': Proxy)
    requires Inv(p) && Run(p, evs) == Some(p')
    ensures Inv(p')
    decreases |evs|
  {
    hide Inv, Do;
    if evs != [] {
      DoKeeps(p, evs[0]);
      RunKeeps(Do(p, evs[0]), evs[1..], p');
    }
  }

  // ---------- the matching ----------

  predicate Open(p: Proxy, h: nat) {
    h in p.sessions && !p.sessions[h].phase.Over?
  }

  /** A spliced pair: one session asked for by the requester, whose connect id the target presented. */
  ghost predicate SameConnectID(p: Proxy, pair: (nat, nat)) {
    exists h :: Spliced(p, h, pair) && pair.1 in p.arrivals && p.arrivals[pair.1].connectID == p.sessions[h].connectID
  }

  /**
   * Over every run the spliced pairs are a partial one-to-one matching of requesters and targets with equal
   * connect ids, and every connect id names at most one session that is not over.
   */
  lemma Matching(evs: seq<Event>, p: Proxy)
    requires Run(FRESH, evs) == Some(p)
    ensures forall x, y :: x in p.spliced && y in p.spliced && x.0 == y.0 ==> x == y
    ensures forall x, y :: x in p.spliced && y in p.spliced && x.1 == y.1 ==> x == y
    ensures forall x :: x in p.spliced ==> SameConnectID(p, x)
    ensures forall h, k :: Open(p, h) && Open(p, k) && p.sessions[h].connectID == p.sessions[k].connectID ==> h == k
  {
    hide Run;
    RunKeeps(FRESH, evs, p) by { assert Inv(FRESH); }
    forall x | x in p.spliced
      ensures SameConnectID(p, x)
    {
      var h :| Spliced(p, h, x);
      assert Holds(p, h, x.1);
    }
    forall x, y | x in p.spliced && y in p.spliced && (x.0 == y.0 || x.1 == y.1)
      ensures x == y
    {
      var h :| Spliced(p, h, x);
      var k :| Spliced(p, k, y);
      assert Holds(p, h, x.1) && Holds(p, k, y.1);
    }
  }

  predicate Leaves(ev: Event, h: nat) {
    ev == GiveUp(h) || ev == Finish(h) || ev == SpliceFails(h)
  }

  /**
   * Nothing but a session's own end unregisters it: not a duplicate request for its connect id, nor another
   * session's removal, which is by connect id, nor a reverse-connect. Its own end removes its entry.
   */
  lemma OnlyOwnEndUnregisters(evs: seq<Event>, p: Proxy, c: string, ev: Event)
    requires Run(FRESH, evs) == Some(p) && c in p.proxies && Enabled(p, ev)
    ensures (c in Do(p, ev).proxies && Do(p, ev).proxies[c] == p.proxies[c]) <==> !Leaves(ev, p.proxies[c])
  {
    hide Run;
    RunKeeps(FRESH, evs, p) by { assert Inv(FRESH); }
  }

  // ---------- the rendezvous as the object the source updates in place ----------

  class Broker {
    var nextReq: nat
    var proxies: map<string, nat>
    var sessions: map<nat, Session>
    ghost var arrivals: map<nat, Arrival>
    ghost var requesters: set<nat>
    ghost var spliced: set<(nat, nat)>

    ghost function State(): Proxy
      reads this
    {
      Proxy(nextReq, proxies, sessions, arrivals, requesters, spliced)
    }

    constructor ()
      ensures State() == FRESH
    {
      nextReq, proxies, sessions := 0, map[], map[];
      arrivals, requesters, spliced := map[], {}, {};
    }

    /** proxyRelay's first section: registers a session, or reports a duplicate connect id. */
    method Request(requester: nat, connectID: string) returns (session: Option<nat>)
      requires requester !in requesters
      modifies this
      ensures State() == DoAsk(old(State()), requester, connectID)
      ensures session == if connectID in old(proxies) then None else Some(nextReq)
    {
      nextReq := nextReq + 1;
      requesters := requesters + {requester};
      if connectID in proxies {
        return None;
      }
      sessions := sessions[nextReq := Session(connectID, requester, None, None, Waiting)];
      proxies := proxies[connectID := nextReq];
      session := Some(nextReq);
    }

    /** handleReverseConnect's look-up, under the lock. */
    method LookUp(target: nat, connectID: string) returns (session: Option<nat>)
      requires Inv(State()) && target !in arrivals
      modifies this
      ensures Inv(State()) && State() == DoLookUp(old(State()), target, connectID)
      ensures session == if connectID in proxies then Some(proxies[connectID]) else None
    {
      LookUpKeeps(State(), target, connectID);
      if connectID !in proxies {
        return None;
      }
      session := Some(proxies[connectID]);
      arrivals := arrivals[target := Arrival(connectID, proxies[connectID], false)];
    }

    /** Its send into the one-place channel of the session it found, which may be over by now. */
    method Deliver(target: nat, h: nat) returns (queued: bool)
      requires Inv(State()) && Enabled(State(), Event.Deliver(target))
      requires arrivals[target].session == h && !arrivals[target].queued
      modifies this
      ensures Inv(State()) && State() == DoDeliver(old(State()), target)
      ensures queued == old(sessions)[h].mailbox.None?
      ensures sessions.Keys == old(sessions).Keys
      ensures sessions[h] == if queued then old(sessions)[h].(mailbox := Some(target)) else old(sessions)[h]
      ensures queued && sessions[h].phase.Waiting? ==> Enabled(State(), Splice(h))
    {
      hide Inv;
      DeliverKeeps(State(), target);
      queued := sessions[h].mailbox.None?;
      if queued {
        sessions := sessions[h := sessions[h].(mailbox := Some(target))];
        arrivals := arrivals[target := arrivals[target].(queued := true)];
      }
    }

    /** The waiting handler receives a target from its channel and splices it. */
    method TakeTarget(h: nat) returns (target: nat)
      requires Inv(State()) && Enabled(State(), Splice(h))
      modifies this
      ensures Inv(State()) && State() == DoSplice(old(State()), h)
      ensures old(sessions)[h].mailbox == Some(target)
    {
      SpliceKeeps(State(), h);
      var s := sessions[h];
      target := s.mailbox.value;
      sessions := sessions[h := s.(mailbox := None, took := s.mailbox, phase := Splicing)];
      spliced := spliced + {(s.requester, target)};
    }

    /** The handler returns; its deferred removal is by connect id. */
    method End(h: nat)
      requires Inv(State()) && Open(State(), h)
      modifies this
      ensures Inv(State()) && State() == Leave(old(State()), h, old(sessions)[h])
    {
      LeaveKeeps(State(), h, sessions[h]);
      var s := sessions[h];
      sessions := sessions[h := s.(phase := Over)];
      proxies := map c | c in proxies && c != s.connectID :: proxies[c];
    }
  }
}
