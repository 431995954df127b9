/** Registration and reconnection: the broker's tables, and which targets stay registered. */
module Registry {
  import opened Options
  import opened Store

  datatype Target = Target(session: nat, cookie: string)

  /**
   * The broker's tables, and the store behind them. The store is told outside the lock: `outbox` holds, for
   * each goroutine, the calls it has still to make, and `ops` the calls made so far. A registration's call
   * copies the record it put in the table only when it is made; `shared` names the goroutine whose
   * outstanding call still shares an id's record. `live` maps each handler still serving a target to its id;
   * `issued` is history: every id loaded or handed out in this process, with its cookie.
   */
  datatype Server = Server(nextID: nat, targets: map<nat, Target>, reconnects: Records,
                           outbox: map<nat, seq<Op>>, shared: map<nat, nat>, ops: seq<Op>,
                           live: map<nat, nat>, issued: map<nat, string>)

  /** A registration: the id and cookie presented, if any; who asks; and the cookie to use if a fresh id is given. */
  datatype Request = Request(prevID: Option<nat>, cookie: string, peerIP: string, name: string,
                             freshCookie: string, now: int)

  /** Whether the presented id is given back: a known record, its cookie, and its address unless any is allowed. */
  predicate Reclaims(anyIP: bool, recs: Records, q: Request) {
    && q.prevID.Some? && q.cookie != ""
    && q.prevID.value in recs && recs[q.prevID.value].cookie == q.cookie
    && (anyIP || recs[q.prevID.value].peerIP == q.peerIP)
  }

  function AssignedID(anyIP: bool, s: Server, q: Request): nat {
    if Reclaims(anyIP, s.reconnects, q) then q.prevID.value else s.nextID + 1
  }

  function AssignedCookie(anyIP: bool, s: Server, q: Request): string {
    if Reclaims(anyIP, s.reconnects, q) then s.reconnects[q.prevID.value].cookie else q.freshCookie
  }

  function NewRecord(anyIP: bool, s: Server, q: Request): Record {
    Record(AssignedID(anyIP, s, q), AssignedCookie(anyIP, s, q), q.peerIP, q.name, q.now)
  }

  function DoRegister(anyIP: bool, s: Server, session: nat, q: Request): Server {
    var rec := NewRecord(anyIP, s, q);
    var id := rec.ccbid;
    Server(if Reclaims(anyIP, s.reconnects, q) then s.nextID else s.nextID + 1,
           s.targets[id := Target(session, rec.cookie)], s.reconnects[id := rec],
           s.outbox[session := [Put(rec)]], s.shared[id := session], s.ops,
           s.live[session := id], s.issued[id := rec.cookie])
  }

  /**
   * A handler's exit removes its id from the targets, whoever holds it now, and stamps the record in place;
   * an outstanding call that shares the record will carry the stamp.
   */
  function DoRemove(s: Server, session: nat, now: int): Server
    requires session in s.live
  {
    var id := s.live[session];
    var t := s.(targets := s.targets - {id}, live := s.live - {session});
    if id !in s.reconnects then t else
    var rec := s.reconnects[id].(updatedAt := now);
    var stamped := if id in s.shared then s.outbox[s.shared[id] := [Put(rec)]] else s.outbox;
    t.(reconnects := s.reconnects[id := rec], outbox := stamped[session := [Put(rec)]])
  }

  function Stale(s: Server, cutoff: int): set<nat> {
    set id | id in s.reconnects && id !in s.targets && s.reconnects[id].updatedAt < cutoff
  }

  function Deletes(order: seq<nat>): seq<Op> {
    seq(|order|, i requires 0 <= i < |order| => Delete(order[i]))
  }

  /** Sweeping drops the stale records; `order` is the order in which the store will be told. */
  function DoSweep(s: Server, sweeper: nat, cutoff: int, order: seq<nat>): Server {
    s.(reconnects := s.reconnects - Stale(s, cutoff), shared := s.shared - Stale(s, cutoff),
       outbox := if order == [] then s.outbox else s.outbox[sweeper := Deletes(order)])
  }

  /** A goroutine makes the first of its outstanding calls. */
  function DoTell(s: Server, g: nat): Server
    requires g in s.outbox && s.outbox[g] != []
  {
    s.(ops := s.ops + [s.outbox[g][0]],
       outbox := if |s.outbox[g]| == 1 then s.outbox - {g} else s.outbox[g := s.outbox[g][1..]],
       shared := map id | id in s.shared && s.shared[id] != g :: s.shared[id])
  }

  predicate Lists(order: seq<nat>, ids: set<nat>) {
    (forall i :: 0 <= i < |order| ==> order[i] in ids) && (forall id :: id in ids ==> id in order)
  }

  datatype Event =
    | Register(session: nat, request: Request)
    | Exit(session: nat, now: int)
    | Sweep(sweeper: nat, cutoff: int, order: seq<nat>)
    | Tell(caller: nat)

  /** A goroutine makes its outstanding calls before it goes on; a fresh cookie is never empty. */
  predicate Enabled(s: Server, ev: Event) {
    match ev
    case Register(session, q) => session !in s.live && session !in s.outbox && q.freshCookie != ""
    case Exit(session, _) => session in s.live && session !in s.outbox
    case Sweep(sweeper, cutoff, order) =>
      sweeper !in s.live && sweeper !in s.outbox && Lists(order, Stale(s, cutoff))
    case Tell(caller) => caller in s.outbox && s.outbox[caller] != []
  }

  function Do(anyIP: bool, s: Server, ev: Event): Server
    requires Enabled(s, ev)
  {
    match ev
    case Register(session, q) => DoRegister(anyIP, s, session, q)
    case Exit(session, now) => DoRemove(s, session, now)
    case Sweep(sweeper, cutoff, order) => DoSweep(s, sweeper, cutoff, order)
    case Tell(caller) => DoTell(s, caller)
  }

  function Run(anyIP: bool, s: Server, evs: seq<Event>): Option<Server>
    decreases |evs|
  {
    if evs == [] then Some(s) else
    if Enabled(s, evs[0]) then Run(anyIP, Do(anyIP, s, evs[0]), evs[1..]) else None
  }

  // ---------- loading ----------

  ghost function MaxID(ids: set<nat>): (m: nat)
    ensures forall id :: id in ids ==> id <= m
    ensures m == 0 || m in ids
  {
    if ids == {} then 0 else
    var x :| x in ids;
    assert ids == (ids - {x}) + {x};
    var rest := MaxID(ids - {x});
    if x > rest then x else rest
  }

  const GUARD := 100

  /** The server after a start from persisted records: ids continue past the highest one, plus a guard. */
  ghost function Boot(recs: Records): Server {
    var top := MaxID(recs.Keys);
    Server(if top > 0 then top + GUARD else 0, map[], recs, map[], map[], [], map[],
           map id | id in recs :: recs[id].cookie)
  }

  ghost predicate RecordsOk(recs: Records) {
    forall id :: id in recs ==> recs[id].ccbid == id
  }

  // ---------- what every run keeps ----------

  ghost predicate TablesOk(s: Server) {
    && (forall id :: id in s.targets ==> id in s.reconnects && s.reconnects[id].cookie == s.targets[id].cookie)
    && (forall id :: id in s.reconnects ==>
          id in s.issued && s.reconnects[id].cookie == s.issued[id] && s.reconnects[id].ccbid == id)
    && (forall id :: id in s.issued ==> id <= s.nextID)
    && (forall session :: session in s.live ==> s.live[session] in s.issued)
  }

  /** A goroutine has one call to make, or is a sweep with its deletions. */
  predicate CallsOk(calls: seq<Op>) {
    calls != [] && (|calls| == 1 || forall i :: 0 <= i < |calls| ==> calls[i].Delete?)
  }

  /** A call is about an id that was issued, and carries its cookie. */
  predicate CallNamed(op: Op, issued: map<nat, string>) {
    Key(op) in issued && (op.Put? ==> op.rec.cookie == issued[op.rec.ccbid])
  }

  predicate CallsNamed(calls: seq<Op>, issued: map<nat, string>) {
    forall i :: 0 <= i < |calls| ==> CallNamed(calls[i], issued)
  }

  /** A call that shares the table's record carries what the table says. */
  ghost predicate OutboxOk(s: Server) {
    && (forall g :: g in s.outbox ==> CallsOk(s.outbox[g]) && CallsNamed(s.outbox[g], s.issued))
    && (forall id :: id in s.shared ==>
          id in s.reconnects && s.shared[id] in s.outbox && s.outbox[s.shared[id]] == [Put(s.reconnects[id])])
  }

  ghost predicate Inv(s: Server) {
    TablesOk(s) && OutboxOk(s)
  }

  /** The history only grows, and never changes the cookie of an id. */
  ghost predicate Extends(s: Server, s': Server) {
    && s.nextID <= s'.nextID
    && (forall id :: id in s.issued ==> id in s'.issued && s'.issued[id] == s.issued[id])
  }

  lemma RegisterTables(anyIP: bool, s: Server, session: nat, q: Request)
    requires TablesOk(s)
    ensures TablesOk(DoRegister(anyIP, s, session, q)) && Extends(s, DoRegister(anyIP, s, session, q))
  {
  }

  lemma RegisterKeeps(anyIP: bool, s: Server, session: nat, q: Request)
    requires Inv(s) && session !in s.outbox
    ensures Inv(DoRegister(anyIP, s, session, q)) && Extends(s, DoRegister(anyIP, s, session, q))
  {
    hide TablesOk, OutboxOk, DoRegister;
    RegisterTables(anyIP, s, session, q);
    RegisterOutbox(anyIP, s, session, q);
  }

  lemma RegisterOutbox(anyIP: bool, s: Server, session: nat, q: Request)
    requires OutboxOk(s) && session !in s.outbox && Extends(s, DoRegister(anyIP, s, session, q))
    ensures OutboxOk(DoRegister(anyIP, s, session, q))
  {
    hide CallsOk, Reclaims;
    var s' := DoRegister(anyIP, s, session, q);
    assert CallsOk([Put(NewRecord(anyIP, s, q))]) by { OneCall(Put(NewRecord(anyIP, s, q))); }
  }

  lemma OneCall(op: Op)
    ensures CallsOk([op])
  {
  }

  lemma RemoveKeeps(s: Server, session: nat, now: int)
    requires Inv(s) && session in s.live && session !in s.outbox
    ensures Inv(DoRemove(s, session, now)) && Extends(s, DoRemove(s, session, now))
  {
    hide TablesOk, OutboxOk;
    RemoveTables(s, session, now);
    RemoveOutbox(s, session, now);
  }

  lemma RemoveTables(s: Server, session: nat, now: int)
    requires TablesOk(s) && session in s.live
    ensures TablesOk(DoRemove(s, session, now))
  {
  }

  lemma RemoveOutbox(s: Server, session: nat, now: int)
    requires Inv(s) && session in s.live && session !in s.outbox
    ensures OutboxOk(DoRemove(s, session, now))
  {
    hide CallsOk;
    if s.live[session] in s.reconnects {
      OneCall(Put(s.reconnects[s.live[session]].(updatedAt := now)));
    }
  }

  lemma SweepKeeps(s: Server, sweeper: nat, cutoff: int, order: seq<nat>)
    requires Inv(s) && sweeper !in s.outbox && Lists(order, Stale(s, cutoff))
    ensures Inv(DoSweep(s, sweeper, cutoff, order)) && Extends(s, DoSweep(s, sweeper, cutoff, order))
  {
  }

  lemma TellKeeps(s: Server, g: nat)
    requires Inv(s) && g in s.outbox
    ensures Inv(DoTell(s, g)) && Extends(s, DoTell(s, g))
  {
  }

  lemma DoKeeps(anyIP: bool, s: Server, ev: Event)
    requires Inv(s) && Enabled(s, ev)
    ensures Inv(Do(anyIP, s, ev)) && Extends(s, Do(anyIP, s, ev))
  {
    hide DoRegister, DoRemove, DoSweep, DoTell, Inv;
    match ev
    case Register(session, q) => RegisterKeeps(anyIP, s, session, q);
    case Exit(session, now) => RemoveKeeps(s, session, now);
    case Sweep(sweeper, cutoff, order) => SweepKeeps(s, sweeper, cutoff, order);
    case Tell(caller) => TellKeeps(s, caller);
  }

  /**
   * Every run: connected targets have a record with their cookie, every id is at most nextID, and an id
   * keeps its cookie for good.
   */
  lemma {:induction false} RunKeeps(anyIP: bool, s: Server, evs: seq<Event>, s': Server)
    requires Inv(s) && Run(anyIP, s, evs) == Some(s')
    ensures Inv(s') && Extends(s, s')
    decreases |evs|
  {
    hide Do, Enabled, Inv;
    if evs != [] {
      DoKeeps(anyIP, s, evs[0]);
      RunKeeps(anyIP, Do(anyIP, s, evs[0]), evs[1..], s');
    }
  }

  lemma BootOk(recs: Records)
    requires RecordsOk(recs)
    ensures Inv(Boot(recs))
  {
  }

  /** In every run from a start: a fresh registration gets an id never issued or loaded in this process. */
  lemma FreshIdIsNew(anyIP: bool, recs: Records, evs: seq<Event>, s: Server, q: Request)
    requires RecordsOk(recs) && Run(anyIP, Boot(recs), evs) == Some(s)
    ensures !Reclaims(anyIP, s.reconnects, q) ==> AssignedID(anyIP, s, q) !in s.issued
    ensures Reclaims(anyIP, s.reconnects, q) ==>
              AssignedID(anyIP, s, q) in s.issued && AssignedCookie(anyIP, s, q) == s.issued[AssignedID(anyIP, s, q)]
  {
    hide Run, Boot;
    BootOk(recs);
    RunKeeps(anyIP, Boot(recs), evs, s);
  }

  /** The id presented is one in the table, with the cookie issued for it, from its address unless any will do. */
  predicate Proves(anyIP: bool, s: Server, q: Request) {
    && q.prevID.Some? && q.prevID.value in s.reconnects && q.prevID.value in s.issued
    && q.cookie != "" && q.cookie == s.issued[q.prevID.value]
    && (anyIP || q.peerIP == s.reconnects[q.prevID.value].peerIP)
  }

  /**
   * What a registration does to the tables: it hands out an id issued before exactly when the request proves
   * it, and then that id with its cookie; and otherwise an id above every one issued, with the fresh cookie.
   */
  lemma RegisterIff(anyIP: bool, s: Server, session: nat, q: Request)
    requires Inv(s) && Enabled(s, Register(session, q))
    ensures var s' := Do(anyIP, s, Register(session, q));
            && session in s'.live && var id := s'.live[session];
               && id in s'.issued && var cookie := s'.issued[id];
                  && id in s'.targets && s'.targets[id] == Target(session, cookie)
                  && id in s'.reconnects && s'.reconnects[id] == Record(id, cookie, q.peerIP, q.name, q.now)
                  && (id in s.issued <==> Proves(anyIP, s, q))
                  && (id in s.issued ==> q.prevID == Some(id) && cookie == q.cookie && s'.nextID == s.nextID)
                  && (id !in s.issued ==> cookie == q.freshCookie && s'.nextID == id)
                  && (id !in s.issued ==> forall k :: k in s.issued ==> k < id)
  {
  }

  // ---------- crashes ----------

  /** In no run after a start from `recs` does a fresh registration get an id issued before. */
  ghost predicate NeverRepeats(anyIP: bool, recs: Records, issued: set<nat>) {
    forall evs, s, q :: Run(anyIP, Boot(recs), evs) == Some(s) && !Reclaims(anyIP, s.reconnects, q) ==>
      AssignedID(anyIP, s, q) !in issued
  }

  const NEWCOMER := Request(None, "", "", "", "c", 0)

  lemma {:induction false} FreshRun(anyIP: bool, s: Server, n: nat) returns (evs: seq<Event>, s': Server)
    ensures Run(anyIP, s, evs) == Some(s') && s'.nextID == s.nextID + n
    decreases n
  {
    if n == 0 {
      evs, s' := [], s;
    } else {
      var ev := Register(MaxID(s.live.Keys + s.outbox.Keys) + 1, NEWCOMER);
      var rest;
      rest, s' := FreshRun(anyIP, Do(anyIP, s, ev), n - 1);
      evs := [ev] + rest;
      assert evs[1..] == rest;
    }
  }

  /**
   * After a crash that left any part of the records persisted, ids never repeat if and only if the highest
   * issued id is at most the highest persisted id plus the guard, or nothing had been issued.
   */
  lemma CrashRepeatsIff(anyIP: bool, recs: Records, issued: set<nat>)
    requires RecordsOk(recs) && 0 !in issued
    ensures NeverRepeats(anyIP, recs, issued) <==>
            issued == {} || (MaxID(recs.Keys) > 0 && MaxID(issued) <= MaxID(recs.Keys) + 100)
  {
    hide Run;
    var top, next := MaxID(issued), Boot(recs).nextID;
    if issued != {} {
      var x :| x in issued;
      assert 0 < x <= top && top in issued;
      if top > next {
        var evs, s := FreshRun(anyIP, Boot(recs), top - next - 1);
        assert !Reclaims(anyIP, s.reconnects, NEWCOMER) && AssignedID(anyIP, s, NEWCOMER) == top;
      }
    }
    if issued == {} || top <= next {
      BootOk(recs);
      forall evs, s, q | Run(anyIP, Boot(recs), evs) == Some(s) && !Reclaims(anyIP, s.reconnects, q)
        ensures AssignedID(anyIP, s, q) !in issued
      {
        RunKeeps(anyIP, Boot(recs), evs, s);
      }
    }
  }

  // ---------- which targets stay registered ----------

  /** Every handler still serving a target finds its id among the targets. */
  ghost predicate Registered(s: Server) {
    forall session :: session in s.live ==> s.live[session] in s.targets
  }

  /** The event is the exit of a handler whose id another handler is still serving. */
  predicate LeavesAnother(s: Server, ev: Event) {
    && ev.Exit? && ev.session in s.live
    && exists other :: other in s.live && other != ev.session && s.live[other] == s.live[ev.session]
  }

  lemma StepRegistered(anyIP: bool, s: Server, ev: Event)
    requires Inv(s) && Registered(s) && Enabled(s, ev)
    ensures Registered(Do(anyIP, s, ev)) <==> !LeavesAnother(s, ev)
  {
    var s' := Do(anyIP, s, ev);
    if LeavesAnother(s, ev) {
      var other :| other in s.live && other != ev.session && s.live[other] == s.live[ev.session];
      assert other in s'.live && s'.live[other] !in s'.targets;
    }
  }

  ghost predicate Throughout(anyIP: bool, good: Server -> bool, s: Server, evs: seq<Event>)
    decreases |evs|
  {
    good(s) && (evs != [] && Enabled(s, evs[0]) ==> Throughout(anyIP, good, Do(anyIP, s, evs[0]), evs[1..]))
  }

  ghost predicate Somewhere(anyIP: bool, bad: (Server, Event) -> bool, s: Server, evs: seq<Event>)
    decreases |evs|
  {
    && evs != [] && Enabled(s, evs[0])
    && (bad(s, evs[0]) || Somewhere(anyIP, bad, Do(anyIP, s, evs[0]), evs[1..]))
  }

  /**
   * Every connected target stays registered throughout a run if and only if no handler exits while another
   * one is serving the same id.
   */
  lemma {:induction false} RegisteredIff(anyIP: bool, s: Server, evs: seq<Event>)
    requires Inv(s) && Registered(s)
    ensures Throughout(anyIP, x => Registered(x), s, evs) <==> !Somewhere(anyIP, LeavesAnother, s, evs)
    decreases |evs|
  {
    hide Inv, LeavesAnother, Do, Enabled, Registered;
    if evs != [] && Enabled(s, evs[0]) {
      StepRegistered(anyIP, s, evs[0]);
      DoKeeps(anyIP, s, evs[0]);
      if Registered(Do(anyIP, s, evs[0])) {
        RegisteredIff(anyIP, Do(anyIP, s, evs[0]), evs[1..]);
      }
    }
  }

  /** Every handler still serving a target is the one registered under its id. */
  ghost predicate Foremost(s: Server) {
    forall session :: session in s.live ==>
      s.live[session] in s.targets && s.targets[s.live[session]].session == session
  }

  /** The event reclaims an id that another handler is still serving. */
  predicate Overlaps(anyIP: bool, s: Server, ev: Event) {
    && ev.Register? && Reclaims(anyIP, s.reconnects, ev.request)
    && exists session :: session in s.live && s.live[session] == ev.request.prevID.value
  }

  lemma StepForemost(anyIP: bool, s: Server, ev: Event)
    requires Inv(s) && Foremost(s) && Enabled(s, ev)
    ensures Foremost(Do(anyIP, s, ev)) <==> !Overlaps(anyIP, s, ev)
  {
    if Overlaps(anyIP, s, ev) {
      var other :| other in s.live && s.live[other] == ev.request.prevID.value;
      var s' := Do(anyIP, s, ev);
      assert other in s'.live && s'.targets[s'.live[other]].session == ev.session != other;
    }
  }

  /** No handler is displaced throughout a run if and only if no registration reclaims an id still being served. */
  lemma {:induction false} DisplacedIff(anyIP: bool, s: Server, evs: seq<Event>)
    requires Inv(s) && Foremost(s)
    ensures Throughout(anyIP, x => Foremost(x), s, evs)
            <==> !Somewhere(anyIP, (x, ev) => Overlaps(anyIP, x, ev), s, evs)
    decreases |evs|
  {
    hide Inv, Overlaps, Do, Enabled, Foremost;
    if evs != [] && Enabled(s, evs[0]) {
      StepForemost(anyIP, s, evs[0]);
      DoKeeps(anyIP, s, evs[0]);
      if Foremost(Do(anyIP, s, evs[0])) {
        DisplacedIff(anyIP, Do(anyIP, s, evs[0]), evs[1..]);
      }
    }
  }

  /**
   * A run that unregisters a connected target: the second handler reclaims id 1 while the first is still
   * serving it, and the first one's exit removes the entry that is now the second one's.
   */
  lemma OverlapUnregisters(anyIP: bool) returns (evs: seq<Event>, s: Server)
    ensures Run(anyIP, Boot(map[]), evs) == Some(s)
    ensures 2 in s.live && s.live[2] == 1 && 1 !in s.targets && 1 in s.reconnects
  {
    var first := Request(None, "", "10.0.0.1", "a", "c", 0);
    var again := Request(Some(1), "c", "10.0.0.1", "a", "d", 1);
    var s0 := Boot(map[]);
    assert s0.nextID == 0;
    var s1 := Do(anyIP, s0, Register(1, first));
    var s2 := Do(anyIP, s1, Tell(1));
    var s3 := Do(anyIP, s2, Register(2, again));
    assert Reclaims(anyIP, s2.reconnects, again);
    s := Do(anyIP, s3, Exit(1, 2));
    RunNothing(anyIP, s);
    evs := RunOne(anyIP, s3, Exit(1, 2), [], s);
    evs := RunOne(anyIP, s2, Register(2, again), evs, s);
    evs := RunOne(anyIP, s1, Tell(1), evs, s);
    evs := RunOne(anyIP, s0, Register(1, first), evs, s);
  }

  lemma RunNothing(anyIP: bool, s: Server)
    ensures Run(anyIP, s, []) == Some(s)
  {
  }

  lemma RunOne(anyIP: bool, s: Server, ev: Event, rest: seq<Event>, s': Server) returns (evs: seq<Event>)
    requires Enabled(s, ev) && Run(anyIP, Do(anyIP, s, ev), rest) == Some(s')
    ensures Run(anyIP, s, evs) == Some(s')
  {
    evs := [ev] + rest;
    assert evs[1..] == rest;
  }

  // ---------- the broker as the object the source updates in place ----------

  class Broker {
    const anyIP: bool
    var nextID: nat
    var targets: map<nat, Target>
    var reconnects: Records
    var outbox: map<nat, seq<Op>>
    var shared: map<nat, nat>
    var ops: seq<Op>
    ghost var live: map<nat, nat>
    ghost var issued: map<nat, string>

    ghost function State(): Server
      reads this
    {
      Server(nextID, targets, reconnects, outbox, shared, ops, live, issued)
    }

    /** Restores the persisted records and moves nextID past the highest id, plus the guard. */
    constructor (anyIP: bool, recs: seq<Record>)
      ensures this.anyIP == anyIP
      ensures reconnects == ById(recs) && State() == Boot(reconnects) && Inv(State())
    {
      this.anyIP := anyIP;
      var m, maxID := IndexRecords(recs);
      reconnects := m;
      nextID := if maxID > 0 then maxID + GUARD else 0;
      targets, outbox, shared, ops, live := map[], map[], map[], [], map[];
      issued := map id | id in m :: m[id].cookie;
      ByIdKeys(recs);
      BootOk(m);
    }

    /** Gives back the presented id when its record matches, or the next fresh one. */
    method Assign(q: Request) returns (id: nat, cookie: string)
      modifies this`nextID
      ensures id == AssignedID(anyIP, old(State()), q) && cookie == AssignedCookie(anyIP, old(State()), q)
      ensures nextID == if Reclaims(anyIP, reconnects, q) then old(nextID) else old(nextID) + 1
    {
      if q.prevID.Some? && q.cookie != "" {
        var prev := q.prevID.value;
        if prev in reconnects && reconnects[prev].cookie == q.cookie && (anyIP || reconnects[prev].peerIP == q.peerIP) {
          return prev, reconnects[prev].cookie;
        }
      }
      nextID := nextID + 1;
      return nextID, q.freshCookie;
    }

    /** A registration, up to the unlock: the id goes among the targets and its record into the table. */
    method Register(session: nat, q: Request) returns (id: nat, cookie: string)
      requires Inv(State()) && Enabled(State(), Event.Register(session, q))
      modifies this
      ensures Inv(State()) && State() == DoRegister(anyIP, old(State()), session, q)
      ensures id == AssignedID(anyIP, old(State()), q) && cookie == AssignedCookie(anyIP, old(State()), q)
      ensures targets == old(targets)[id := Target(session, cookie)] && live == old(live)[session := id]
      ensures id in old(issued) <==> Proves(anyIP, old(State()), q)
      ensures if id in old(issued) then q.prevID == Some(id) && cookie == q.cookie
              else cookie == q.freshCookie && forall k :: k in old(issued) ==> k < id
    {
      hide Inv, Reclaims, Proves;
      RegisterIff(anyIP, State(), session, q);
      RegisterKeeps(anyIP, State(), session, q);
      id, cookie := Assign(q);
      targets := targets[id := Target(session, cookie)];
      var rec := Record(id, cookie, q.peerIP, q.name, q.now);
      reconnects := reconnects[id := rec];
      live, issued := live[session := id], issued[id := cookie];
      outbox, shared := outbox[session := [Op.Put(rec)]], shared[id := session];
    }

    /** A handler's exit, up to the unlock: drops its id from the targets and stamps the record it leaves behind. */
    method RemoveTarget(session: nat, id: nat, now: int)
      requires Inv(State()) && Enabled(State(), Exit(session, now)) && live[session] == id
      modifies this
      ensures Inv(State()) && State() == DoRemove(old(State()), session, now)
    {
      hide Inv;
      RemoveKeeps(State(), session, now);
      targets := targets - {id};
      live := live - {session};
      if id in reconnects {
        var rec := reconnects[id].(updatedAt := now);
        reconnects := reconnects[id := rec];
        if id in shared {
          outbox := outbox[shared[id] := [Op.Put(rec)]];
        }
        outbox := outbox[session := [Op.Put(rec)]];
      }
    }

    /** Up to the unlock: drops the records of disconnected targets last touched before the cutoff. */
    method SweepReconnects(sweeper: nat, cutoff: int) returns (order: seq<nat>)
      requires Inv(State()) && sweeper !in live && sweeper !in outbox
      modifies this
      ensures Inv(State()) && Lists(order, Stale(old(State()), cutoff))
      ensures State() == DoSweep(old(State()), sweeper, cutoff, order)
    {
      hide Inv;
      order := FindStale(reconnects, targets.Keys, cutoff);
      assert Among(order) == Stale(State(), cutoff);
      SweepKeeps(State(), sweeper, cutoff, order);
      hide Among, Stale, Lists, Deletes;
      reconnects := DropAll(reconnects, order);
      shared := shared - Among(order);
      if order != [] {
        outbox := outbox[sweeper := Deletes(order)];
      }
    }

    /** After the unlock: the goroutine makes its next store call. */
    method TellStore(g: nat)
      requires Inv(State()) && g in outbox
      modifies this
      ensures Inv(State()) && State() == DoTell(old(State()), g)
    {
      TellKeeps(State(), g);
      ops := ops + [outbox[g][0]];
      if |outbox[g]| == 1 {
        outbox := outbox - {g};
      } else {
        outbox := outbox[g := outbox[g][1..]];
      }
      shared := map id | id in shared && shared[id] != g :: shared[id];
    }
  }

  /** Indexes loaded records by id and finds the highest id. */
  method IndexRecords(recs: seq<Record>) returns (m: Records, maxID: nat)
    ensures m == ById(recs) && maxID == MaxID(m.Keys)
  {
    m, maxID := map[], 0;
    var i := 0;
    while i < |recs|
      invariant 0 <= i <= |recs| && m == ById(recs[..i]) && maxID == MaxID(m.Keys)
    {
      var r := recs[i];
      assert recs[..i + 1][..i] == recs[..i];
      MaxIDGrows(m.Keys, r.ccbid);
      assert m[r.ccbid := r].Keys == m.Keys + {r.ccbid};
      m := m[r.ccbid := r];
      if r.ccbid > maxID {
        maxID := r.ccbid;
      }
      i := i + 1;
    }
    assert recs[..i] == recs;
  }

  method FindStale(recs: Records, connected: set<nat>, cutoff: int) returns (stale: seq<nat>)
    ensures forall id :: id in stale <==> id in recs && id !in connected && recs[id].updatedAt < cutoff
  {
    stale := [];
    var todo := recs.Keys;
    while todo != {}
      invariant todo <= recs.Keys
      invariant forall id :: id in stale <==> id in recs.Keys - todo && id !in connected && recs[id].updatedAt < cutoff
      decreases |todo|
    {
      var id :| id in todo;
      if id !in connected && recs[id].updatedAt < cutoff {
        stale := stale + [id];
      }
      todo := todo - {id};
    }
  }

  function Among(ids: seq<nat>): set<nat> {
    set id | id in ids
  }

  method DropAll(recs: Records, ids: seq<nat>) returns (left: Records)
    ensures left == recs - Among(ids)
  {
    left := recs;
    var i := 0;
    while i < |ids|
      invariant 0 <= i <= |ids| && left == recs - Among(ids[..i])
    {
      assert ids[..i + 1] == ids[..i] + [ids[i]];
      left := left - {ids[i]};
      i := i + 1;
    }
    assert ids[..i] == ids;
  }

  function ById(recs: seq<Record>): Records {
    if recs == [] then map[] else ById(recs[..|recs| - 1])[recs[|recs| - 1].ccbid := recs[|recs| - 1]]
  }

  lemma {:induction false} ByIdKeys(recs: seq<Record>)
    ensures RecordsOk(ById(recs))
    ensures forall id :: id in ById(recs) <==> exists i :: 0 <= i < |recs| && recs[i].ccbid == id
  {
    if recs != [] {
      var init, last := recs[..|recs| - 1], recs[|recs| - 1];
      ByIdKeys(init);
      forall id
        ensures id in ById(recs) <==> exists i :: 0 <= i < |recs| && recs[i].ccbid == id
      {
        if id in ById(init) {
          var i :| 0 <= i < |init| && init[i].ccbid == id;
          assert recs[i].ccbid == id;
        }
        if i :| 0 <= i < |recs| && recs[i].ccbid == id && id != last.ccbid {
          assert init[i].ccbid == id;
        }
      }
    }
  }

  lemma MaxIDGrows(ids: set<nat>, x: nat)
    ensures MaxID(ids + {x}) == if x > MaxID(ids) then x else MaxID(ids)
  {
    var m, m' := MaxID(ids), MaxID(ids + {x});
    assert m' == 0 || m' in ids || m' == x;
    assert x in ids + {x} && (m == 0 || m in ids + {x});
  }
}
