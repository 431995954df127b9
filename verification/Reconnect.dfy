/** Who keeps its id: reconnection over every run of the broker, and how long a record lasts. */
module Reconnect {
  import opened Options
  import opened Store
  import opened Registry

  // ---------- reconnecting with the id and cookie handed out ----------

  /** The event is a sweep that drops the record of `id`: not connected, and last touched before the cutoff. */
  predicate Drops(id: nat, s: Server, ev: Event) {
    ev.Sweep? && id in s.reconnects && id !in s.targets && s.reconnects[id].updatedAt < ev.cutoff
  }

  /** A sweep removes exactly the records it drops and changes no other. */
  lemma SweepIff(anyIP: bool, s: Server, ev: Event, id: nat)
    requires Enabled(s, ev) && ev.Sweep?
    ensures id in Do(anyIP, s, ev).reconnects <==> id in s.reconnects && !Drops(id, s, ev)
    ensures id in Do(anyIP, s, ev).reconnects ==> Do(anyIP, s, ev).reconnects[id] == s.reconnects[id]
  {
  }

  /** A record with this cookie is in the table, at this address unless any address will do. */
  predicate Kept(anyIP: bool, s: Server, id: nat, cookie: string, peerIP: string) {
    && id in s.reconnects && id in s.issued && s.issued[id] == cookie
    && (anyIP || s.reconnects[id].peerIP == peerIP)
  }

  predicate Dropped(s: Server, id: nat) {
    id in s.issued && id !in s.reconnects
  }

  lemma StepKept(anyIP: bool, s: Server, ev: Event, id: nat, cookie: string, peerIP: string)
    requires Inv(s) && Enabled(s, ev) && Kept(anyIP, s, id, cookie, peerIP)
    ensures var s' := Do(anyIP, s, ev);
            if Drops(id, s, ev) then Dropped(s', id) else Kept(anyIP, s', id, cookie, peerIP)
  {
  }

  lemma StepDropped(anyIP: bool, s: Server, ev: Event, id: nat)
    requires Inv(s) && Enabled(s, ev) && Dropped(s, id)
    ensures Dropped(Do(anyIP, s, ev), id)
  {
  }

  lemma {:induction false} RunDropped(anyIP: bool, s: Server, evs: seq<Event>, s': Server, id: nat)
    requires Inv(s) && Run(anyIP, s, evs) == Some(s') && Dropped(s, id)
    ensures Dropped(s', id)
    decreases |evs|
  {
    hide Inv, Do, Enabled, Dropped;
    if evs != [] {
      StepDropped(anyIP, s, evs[0], id);
      DoKeeps(anyIP, s, evs[0]);
      RunDropped(anyIP, Do(anyIP, s, evs[0]), evs[1..], s', id);
    }
  }

  lemma {:induction false} RunKept(anyIP: bool, s: Server, evs: seq<Event>, s': Server,
                                   id: nat, cookie: string, peerIP: string)
    requires Inv(s) && Run(anyIP, s, evs) == Some(s') && Kept(anyIP, s, id, cookie, peerIP)
    ensures if Somewhere(anyIP, (x, ev) => Drops(id, x, ev), s, evs)
            then Dropped(s', id) else Kept(anyIP, s', id, cookie, peerIP)
    decreases |evs|
  {
    hide Inv, Do, Enabled, Dropped, Kept, Drops;
    if evs != [] {
      StepKept(anyIP, s, evs[0], id, cookie, peerIP);
      DoKeeps(anyIP, s, evs[0]);
      if Drops(id, s, evs[0]) {
        RunDropped(anyIP, Do(anyIP, s, evs[0]), evs[1..], s', id);
      } else {
        RunKept(anyIP, Do(anyIP, s, evs[0]), evs[1..], s', id, cookie, peerIP);
      }
    }
  }

  /**
   * In every run, a target that registers again from the same address with the id and cookie it was handed
   * gets that id and cookie back if and only if no sweep dropped its record in between.
   */
  lemma SameIdIff(anyIP: bool, recs: Records, evs: seq<Event>, s: Server, x: nat, q: Request,
                  more: seq<Event>, t: Server, y: nat, again: Request)
    requires RecordsOk(recs) && Run(anyIP, Boot(recs), evs) == Some(s) && Enabled(s, Register(x, q))
    requires Run(anyIP, Do(anyIP, s, Register(x, q)), more) == Some(t) && Enabled(t, Register(y, again))
    requires var s' := Do(anyIP, s, Register(x, q));
             && x in s'.live && again.prevID == Some(s'.live[x]) && again.peerIP == q.peerIP
             && s'.live[x] in s'.issued && again.cookie == s'.issued[s'.live[x]]
    ensures var s', t' := Do(anyIP, s, Register(x, q)), Do(anyIP, t, Register(y, again));
            && y in t'.live && t'.live[y] in t'.issued
            && (t'.live[y] == s'.live[x] && t'.issued[t'.live[y]] == s'.issued[s'.live[x]]
                <==> !Somewhere(anyIP, (z, ev) => Drops(s'.live[x], z, ev), s', more))
  {
    hide Run, Boot, Inv, Do, Drops, Somewhere;
    BootOk(recs);
    RunKeeps(anyIP, Boot(recs), evs, s);
    RegisterIff(anyIP, s, x, q);
    DoKeeps(anyIP, s, Register(x, q));
    var s', t' := Do(anyIP, s, Register(x, q)), Do(anyIP, t, Register(y, again));
    var id := s'.live[x];
    RunKept(anyIP, s', more, t, id, again.cookie, q.peerIP);
    RunKeeps(anyIP, s', more, t);
    RegisterIff(anyIP, t, y, again);
  }

  /** In every run, a request that does not present the cookie issued for an id is not given that id. */
  lemma NoCookieNoId(anyIP: bool, recs: Records, evs: seq<Event>, s: Server, x: nat, q: Request, id: nat)
    requires RecordsOk(recs) && Run(anyIP, Boot(recs), evs) == Some(s) && Enabled(s, Register(x, q))
    requires id in s.issued && q.cookie != s.issued[id]
    ensures var s' := Do(anyIP, s, Register(x, q));
            && x in s'.live && s'.live[x] != id
            && (id in s'.targets <==> id in s.targets) && (id in s.targets ==> s'.targets[id] == s.targets[id])
  {
    hide Run, Boot, Inv;
    BootOk(recs);
    RunKeeps(anyIP, Boot(recs), evs, s);
    RegisterIff(anyIP, s, x, q);
  }

  // ---------- how long a record lasts ----------

  /** From time t on: nothing is registered or leaves earlier, and no sweep reaches past it. */
  predicate From(t: int, ev: Event) {
    match ev
    case Register(_, q) => q.now >= t
    case Exit(_, now) => now >= t
    case Sweep(_, cutoff, _) => cutoff <= t
    case Tell(_) => true
  }

  lemma {:induction false} RecordLasts(anyIP: bool, s: Server, evs: seq<Event>, s': Server, id: nat, t: int)
    requires Run(anyIP, s, evs) == Some(s') && id in s.reconnects && s.reconnects[id].updatedAt >= t
    requires forall i :: 0 <= i < |evs| ==> From(t, evs[i])
    ensures id in s'.reconnects && s'.reconnects[id].updatedAt >= t
    decreases |evs|
  {
    if evs != [] {
      assert From(t, evs[0]);
      StepLasts(anyIP, s, evs[0], id, t);
      hide Do, Enabled, From;
      RecordLasts(anyIP, Do(anyIP, s, evs[0]), evs[1..], s', id, t);
    }
  }

  lemma StepLasts(anyIP: bool, s: Server, ev: Event, id: nat, t: int)
    requires Enabled(s, ev) && From(t, ev) && id in s.reconnects && s.reconnects[id].updatedAt >= t
    ensures id in Do(anyIP, s, ev).reconnects && Do(anyIP, s, ev).reconnects[id].updatedAt >= t
  {
  }

  /**
   * A target's record outlasts its exit, stamped with the time of it: in any run on from there the record is
   * still in the table, so long as no sweep's cutoff is past that time.
   */
  lemma LastsAfterExit(anyIP: bool, s: Server, x: nat, now: int, evs: seq<Event>, s': Server)
    requires Enabled(s, Exit(x, now)) && x in s.live && s.live[x] in s.reconnects
    requires Run(anyIP, Do(anyIP, s, Exit(x, now)), evs) == Some(s')
    requires forall i :: 0 <= i < |evs| ==> From(now, evs[i])
    ensures s.live[x] !in Do(anyIP, s, Exit(x, now)).targets && s.live[x] in Do(anyIP, s, Exit(x, now)).reconnects
    ensures s.live[x] in s'.reconnects
    ensures Do(anyIP, s, Exit(x, now)).reconnects[s.live[x]] == s.reconnects[s.live[x]].(updatedAt := now)
  {
    hide From;
    RecordLasts(anyIP, Do(anyIP, s, Exit(x, now)), evs, s', s.live[x], now);
  }

  // ---------- who is among the targets ----------

  /** An id among the targets is being served by the handler registered under it. */
  ghost predicate Served(s: Server) {
    forall id :: id in s.targets ==> s.targets[id].session in s.live && s.live[s.targets[id].session] == id
  }

  lemma StepServed(anyIP: bool, s: Server, ev: Event)
    requires Served(s) && Enabled(s, ev)
    ensures Served(Do(anyIP, s, ev))
  {
  }

  /** In every run, an id is among the targets only while the handler that last registered it is serving it. */
  lemma {:induction false} TargetsAreServed(anyIP: bool, s: Server, evs: seq<Event>, s': Server)
    requires Served(s) && Run(anyIP, s, evs) == Some(s')
    ensures Served(s')
    decreases |evs|
  {
    hide Served, Do, Enabled;
    if evs != [] {
      StepServed(anyIP, s, evs[0]);
      TargetsAreServed(anyIP, Do(anyIP, s, evs[0]), evs[1..], s');
    }
  }
}
