/** The store behind the table: when the calls made outside the lock leave it equal, and what a restart gives back. */
module Persist {
  import opened Options
  import opened Store
  import opened Registry

  // ---------- what the store will hold ----------

  lemma ApplyOne(m: Records, ops: seq<Op>, op: Op)
    ensures ApplyAll(m, ops + [op]) == Apply(ApplyAll(m, ops), op)
  {
    assert (ops + [op])[..|ops|] == ops;
  }

  /** Some goroutine has still to make this call. */
  ghost predicate Outstanding(outbox: map<nat, seq<Op>>, op: Op) {
    exists g :: g in outbox && op in outbox[g]
  }

  /** What two records have to have in common to count as the same. */
  type Likeness = (Record, Record) -> bool

  /** The call tells the store what the table says. */
  predicate Says(like: Likeness, op: Op, recs: Records) {
    match op
    case Put(rec) => rec.ccbid in recs && like(rec, recs[rec.ccbid])
    case Delete(id) => id !in recs
  }

  ghost predicate Quiet(outbox: map<nat, seq<Op>>, id: nat) {
    forall op :: Outstanding(outbox, op) ==> Key(op) != id
  }

  predicate Agree(like: Likeness, m: Records, n: Records, id: nat) {
    (id in m <==> id in n) && (id in m && id in n ==> like(m[id], n[id]))
  }

  ghost predicate Alike(like: Likeness, m: Records, n: Records) {
    forall id :: Agree(like, m, n, id)
  }

  /** Every outstanding call says what the table says, and where there is none the store does. */
  ghost predicate InStep(like: Likeness, base: Records, s: Server) {
    && (forall op :: Outstanding(s.outbox, op) ==> Says(like, op, s.reconnects))
    && (forall id :: Quiet(s.outbox, id) ==> Agree(like, ApplyAll(base, s.ops), s.reconnects, id))
  }

  lemma NothingLeft(like: Likeness, base: Records, s: Server)
    requires s.outbox == map[] && InStep(like, base, s)
    ensures Alike(like, ApplyAll(base, s.ops), s.reconnects)
  {
    hide ApplyAll, Agree;
    assert forall id :: Quiet(s.outbox, id);
  }

  // ---------- making the outstanding calls ----------

  lemma ToldOne(s: Server, g: nat, op: Op)
    requires Inv(s) && g in s.outbox
    ensures Outstanding(DoTell(s, g).outbox, op) ==> Outstanding(s.outbox, op)
    ensures Outstanding(s.outbox, op) ==> op == s.outbox[g][0] || Outstanding(DoTell(s, g).outbox, op)
  {
    var s' := DoTell(s, g);
    if x :| x in s'.outbox && op in s'.outbox[x] {
      assert x in s.outbox && op in s.outbox[x];
    }
    if x :| x in s.outbox && op in s.outbox[x] {
      if x != g || op != s.outbox[g][0] {
        assert x in s'.outbox && op in s'.outbox[x];
      }
    }
  }

  /** Making an outstanding call keeps the store in step. */
  lemma TellInStep(like: Likeness, base: Records, s: Server, g: nat)
    requires Inv(s) && g in s.outbox && InStep(like, base, s)
    ensures InStep(like, base, DoTell(s, g))
  {
    hide ApplyAll, Outstanding, TablesOk;
    var s', op := DoTell(s, g), s.outbox[g][0];
    assert Outstanding(s.outbox, op) by { IsOutstanding(s.outbox, g, op); }
    ApplyOne(base, s.ops, op);
    forall x | Outstanding(s'.outbox, x)
      ensures Says(like, x, s'.reconnects)
    {
      ToldOne(s, g, x);
    }
    forall id | Quiet(s'.outbox, id)
      ensures Agree(like, ApplyAll(base, s'.ops), s'.reconnects, id)
    {
      if Key(op) != id {
        forall x | Outstanding(s.outbox, x)
          ensures Key(x) != id
        {
          ToldOne(s, g, x);
        }
        assert Quiet(s.outbox, id);
      }
    }
  }

  lemma IsOutstanding(outbox: map<nat, seq<Op>>, g: nat, op: Op)
    requires g in outbox && op in outbox[g]
    ensures Outstanding(outbox, op)
  {
  }

  /** The outstanding calls are made in this order of goroutines, with no table change between. */
  function TellAll(s: Server, gs: seq<nat>): Option<Server>
    decreases |gs|
  {
    if gs == [] then Some(s) else
    if gs[0] in s.outbox && s.outbox[gs[0]] != [] then TellAll(DoTell(s, gs[0]), gs[1..]) else None
  }

  /** However the outstanding calls are ordered, the store ends up like the table. */
  ghost predicate EndsAlike(like: Likeness, base: Records, s: Server) {
    forall gs, s' :: TellAll(s, gs) == Some(s') && s'.outbox == map[] ==>
      Alike(like, ApplyAll(base, s'.ops), s'.reconnects)
  }

  lemma {:induction false} TellAllInStep(like: Likeness, base: Records, s: Server, gs: seq<nat>, s': Server)
    requires Inv(s) && TellAll(s, gs) == Some(s') && InStep(like, base, s)
    ensures InStep(like, base, s')
    decreases |gs|
  {
    hide Inv, InStep, DoTell;
    if gs != [] {
      TellInStep(like, base, s, gs[0]);
      TellKeeps(s, gs[0]);
      TellAllInStep(like, base, DoTell(s, gs[0]), gs[1..], s');
    }
  }

  lemma {:induction false} TellConcat(s: Server, gs: seq<nat>, s': Server, more: seq<nat>)
    requires TellAll(s, gs) == Some(s')
    ensures TellAll(s, gs + more) == TellAll(s', more)
    decreases |gs|
  {
    hide DoTell;
    if gs == [] {
      assert gs + more == more;
    } else {
      TellConcat(DoTell(s, gs[0]), gs[1..], s', more);
      assert (gs + more)[1..] == gs[1..] + more;
    }
  }

  /** One goroutine makes all its calls. */
  lemma {:induction false} TellOut(s: Server, g: nat) returns (gs: seq<nat>, s': Server)
    requires Inv(s) && g in s.outbox
    ensures TellAll(s, gs) == Some(s') && Inv(s') && s'.outbox == s.outbox - {g}
    ensures s'.reconnects == s.reconnects && s'.ops == s.ops + s.outbox[g]
    decreases |s.outbox[g]|
  {
    var t := DoTell(s, g);
    TellKeeps(s, g);
    if |s.outbox[g]| == 1 {
      gs, s' := [g], t;
      assert gs[1..] == [];
    } else {
      var rest;
      rest, s' := TellOut(t, g);
      gs := [g] + rest;
      assert gs[1..] == rest;
      assert s.outbox[g] == [s.outbox[g][0]] + s.outbox[g][1..];
      assert t.outbox - {g} == s.outbox - {g};
    }
  }

  /** All goroutines but those kept back make their calls. */
  lemma {:induction false} TellOthers(s: Server, keep: set<nat>) returns (gs: seq<nat>, s': Server)
    requires Inv(s)
    ensures TellAll(s, gs) == Some(s') && Inv(s') && s'.reconnects == s.reconnects
    ensures s'.outbox.Keys == s.outbox.Keys * keep && forall g :: g in s'.outbox ==> s'.outbox[g] == s.outbox[g]
    decreases |s.outbox.Keys - keep|
  {
    hide Inv, DoTell, TellAll;
    if s.outbox.Keys <= keep {
      gs, s' := [], s;
      TellNothing(s);
    } else {
      var g :| g in s.outbox && g !in keep;
      var gs1, s1 := TellOut(s, g);
      assert s1.outbox.Keys - keep == s.outbox.Keys - keep - {g};
      var gs2;
      gs2, s' := TellOthers(s1, keep);
      TellConcat(s, gs1, s1, gs2);
      gs := gs1 + gs2;
    }
  }

  lemma TellNothing(s: Server)
    ensures TellAll(s, []) == Some(s)
  {
  }

  lemma {:induction false} LastDeleted(m: Records, ops: seq<Op>, i: nat)
    requires i < |ops| && forall j :: 0 <= j < |ops| ==> ops[j].Delete?
    ensures Key(ops[i]) !in ApplyAll(m, ops)
    decreases |ops|
  {
    if i < |ops| - 1 {
      LastDeleted(m, ops[..|ops| - 1], i);
    }
  }

  /** A goroutine's calls, made last, leave the store saying what each of them says. */
  lemma CallsWin(m: Records, ops: seq<Op>, calls: seq<Op>, op: Op)
    requires CallsOk(calls) && op in calls
    ensures Says((x, y) => x == y, op, ApplyAll(m, ops + calls))
  {
    var i :| 0 <= i < |calls| && calls[i] == op;
    if |calls| == 1 {
      assert calls == [op];
      ApplyOne(m, ops, op);
    } else {
      ApplyAllConcat(m, ops, calls);
      LastDeleted(ApplyAll(m, ops), calls, i);
    }
  }

  lemma {:induction false} Untouched(base: Records, s: Server, gs: seq<nat>, s': Server, id: nat)
    requires Inv(s) && TellAll(s, gs) == Some(s') && Quiet(s.outbox, id)
    ensures s'.reconnects == s.reconnects
    ensures Agree((x, y) => x == y, ApplyAll(base, s.ops), ApplyAll(base, s'.ops), id)
    decreases |gs|
  {
    hide ApplyAll, Outstanding, TablesOk;
    if gs != [] {
      var g, t := gs[0], DoTell(s, gs[0]);
      var op := s.outbox[g][0];
      assert Outstanding(s.outbox, op) by { IsOutstanding(s.outbox, g, op); }
      ApplyOne(base, s.ops, op);
      forall x | Outstanding(t.outbox, x)
        ensures Key(x) != id
      {
        ToldOne(s, g, x);
      }
      TellKeeps(s, g);
      Untouched(base, t, gs[1..], s', id);
    }
  }

  /** An outstanding call that contradicts the table can be the last one made. */
  lemma Contradiction(like: Likeness, base: Records, s: Server, op: Op)
    requires Inv(s) && Outstanding(s.outbox, op) && !Says(like, op, s.reconnects)
    ensures !EndsAlike(like, base, s)
  {
    hide Inv, ApplyAll, DoTell;
    var g :| g in s.outbox && op in s.outbox[g];
    var gs1, s1 := TellOthers(s, {g});
    var gs2, s2 := TellOut(s1, g);
    TellConcat(s, gs1, s1, gs2);
    assert s1.outbox[g] == s.outbox[g];
    assert CallsOk(s.outbox[g]) by { CallsOfInv(s, g); }
    CallsWin(base, s1.ops, s1.outbox[g], op);
    assert !Agree(like, ApplyAll(base, s2.ops), s2.reconnects, Key(op));
  }

  lemma CallsOfInv(s: Server, g: nat)
    requires Inv(s) && g in s.outbox
    ensures CallsOk(s.outbox[g])
  {
  }

  lemma Disagreement(like: Likeness, base: Records, s: Server, id: nat)
    requires Inv(s) && Quiet(s.outbox, id) && !Agree(like, ApplyAll(base, s.ops), s.reconnects, id)
    ensures !EndsAlike(like, base, s)
  {
    hide Inv, ApplyAll, DoTell, Quiet;
    var gs, s' := TellOthers(s, {});
    Untouched(base, s, gs, s', id);
    assert !Agree(like, ApplyAll(base, s'.ops), s'.reconnects, id);
  }

  /**
   * However the outstanding calls are ordered, the store ends up like the table, if and only if each of them
   * says what the table says now and the store does wherever none is outstanding.
   */
  lemma EndsAlikeIff(like: Likeness, base: Records, s: Server)
    requires Inv(s)
    ensures EndsAlike(like, base, s) <==> InStep(like, base, s)
  {
    hide Inv, ApplyAll, TellAll, Says, Agree, Outstanding, Quiet;
    if InStep(like, base, s) {
      forall gs, s' | TellAll(s, gs) == Some(s') && s'.outbox == map[]
        ensures Alike(like, ApplyAll(base, s'.ops), s'.reconnects)
      {
        TellAllInStep(like, base, s, gs, s');
        NothingLeft(like, base, s');
      }
    } else if op :| Outstanding(s.outbox, op) && !Says(like, op, s.reconnects) {
      Contradiction(like, base, s, op);
    } else {
      var id :| Quiet(s.outbox, id) && !Agree(like, ApplyAll(base, s.ops), s.reconnects, id);
      Disagreement(like, base, s, id);
    }
  }

  // ---------- whole records: which table changes keep the store in step ----------

  /** Two records are the same in every field. */
  function Whole(): Likeness {
    (x, y) => x == y
  }

  lemma WholeIsEqual(m: Records, n: Records)
    ensures Alike(Whole(), m, n) <==> m == n
  {
    if Alike(Whole(), m, n) {
      assert forall id :: id in m ==> Agree(Whole(), m, n, id);
      assert forall id :: id in n ==> Agree(Whole(), m, n, id);
    }
  }

  /** An outstanding call for the same id carries something else. */
  ghost predicate Contradicted(outbox: map<nat, seq<Op>>, op: Op) {
    exists x :: Outstanding(outbox, x) && Key(x) == Key(op) && x != op
  }

  /** The calls that do not share the record of an id. */
  function Unshared(s: Server, id: nat): map<nat, seq<Op>> {
    if id in s.shared then s.outbox - {s.shared[id]} else s.outbox
  }

  /** What the table is changed to is contradicted by a call still outstanding for that id. */
  ghost predicate Crosses(anyIP: bool, s: Server, ev: Event) {
    match ev
    case Register(_, q) => Contradicted(s.outbox, Put(NewRecord(anyIP, s, q)))
    case Exit(session, now) =>
      && session in s.live && s.live[session] in s.reconnects
      && Contradicted(Unshared(s, s.live[session]), Put(s.reconnects[s.live[session]].(updatedAt := now)))
    case Sweep(_, cutoff, _) => exists id :: id in Stale(s, cutoff) && Contradicted(s.outbox, Delete(id))
    case Tell(_) => false
  }

  /** One id changes, and `rest` are the outstanding calls besides the new one. */
  lemma ChangeOne(base: Records, s: Server, s': Server, op: Op, rest: map<nat, seq<Op>>)
    requires InStep(Whole(), base, s) && s'.ops == s.ops && s'.reconnects == Apply(s.reconnects, op)
    requires forall x :: Outstanding(s'.outbox, x) <==> x == op || Outstanding(rest, x)
    requires forall x :: Outstanding(rest, x) ==> Outstanding(s.outbox, x)
    requires forall x :: Outstanding(s.outbox, x) ==> Key(x) == Key(op) || Outstanding(rest, x)
    ensures InStep(Whole(), base, s') <==> !Contradicted(rest, op)
  {
    hide ApplyAll, Outstanding;
    assert Says(Whole(), op, s'.reconnects);
    if Contradicted(rest, op) {
      var x :| Outstanding(rest, x) && Key(x) == Key(op) && x != op;
      assert !Says(Whole(), x, s'.reconnects);
    } else {
      forall x | Outstanding(s'.outbox, x)
        ensures Says(Whole(), x, s'.reconnects)
      {
      }
      forall id | Quiet(s'.outbox, id)
        ensures Agree(Whole(), ApplyAll(base, s'.ops), s'.reconnects, id)
      {
        assert Outstanding(s'.outbox, op);
        assert Quiet(s.outbox, id);
      }
    }
  }

  lemma OneMoreCall(outbox: map<nat, seq<Op>>, g: nat, calls: seq<Op>, x: Op)
    requires g !in outbox
    ensures Outstanding(outbox[g := calls], x) <==> x in calls || Outstanding(outbox, x)
  {
    var outbox' := outbox[g := calls];
    if h :| h in outbox && x in outbox[h] {
      assert h in outbox' && x in outbox'[h];
    }
    if x in calls {
      assert g in outbox' && x in outbox'[g];
    }
  }

  lemma RegisterInStep(anyIP: bool, base: Records, s: Server, session: nat, q: Request)
    requires InStep(Whole(), base, s) && session !in s.outbox
    ensures InStep(Whole(), base, DoRegister(anyIP, s, session, q)) <==> !Crosses(anyIP, s, Register(session, q))
  {
    hide InStep, Outstanding;
    var op := Put(NewRecord(anyIP, s, q));
    var s' := DoRegister(anyIP, s, session, q);
    forall x
      ensures Outstanding(s'.outbox, x) <==> x == op || Outstanding(s.outbox, x)
    {
      OneMoreCall(s.outbox, session, [op], x);
    }
    ChangeOne(base, s, s', op, s.outbox);
  }

  lemma SharedCall(s: Server, id: nat, x: Op)
    requires Inv(s)
    ensures Outstanding(Unshared(s, id), x) ==> Outstanding(s.outbox, x)
    ensures Outstanding(s.outbox, x) ==> Key(x) == id || Outstanding(Unshared(s, id), x)
  {
    var rest := Unshared(s, id);
    if g :| g in rest && x in rest[g] {
      assert g in s.outbox && x in s.outbox[g];
    }
    if g :| g in s.outbox && x in s.outbox[g] {
      if id in s.shared && g == s.shared[id] {
        assert x == Put(s.reconnects[id]);
      } else {
        assert g in rest && x in rest[g];
      }
    }
  }

  lemma StampedCall(s: Server, id: nat, op: Op, g: nat, x: Op)
    requires Inv(s) && g !in s.outbox
    ensures var stamped := if id in s.shared then s.outbox[s.shared[id] := [op]] else s.outbox;
            Outstanding(stamped[g := [op]], x) <==> x == op || Outstanding(Unshared(s, id), x)
  {
    hide Outstanding, TablesOk;
    var rest := Unshared(s, id);
    var stamped := if id in s.shared then s.outbox[s.shared[id] := [op]] else s.outbox;
    OneMoreCall(stamped, g, [op], x);
    if id in s.shared {
      OneMoreCall(rest, s.shared[id], [op], x);
      assert stamped == rest[s.shared[id] := [op]];
    }
  }

  lemma ExitInStep(anyIP: bool, base: Records, s: Server, session: nat, now: int)
    requires Inv(s) && InStep(Whole(), base, s) && session in s.live && session !in s.outbox
    ensures InStep(Whole(), base, DoRemove(s, session, now)) <==> !Crosses(anyIP, s, Exit(session, now))
  {
    hide Outstanding, ApplyAll, Contradicted, OutboxOk;
    var s', id := DoRemove(s, session, now), s.live[session];
    if id in s.reconnects {
      hide InStep;
      var op := Put(s.reconnects[id].(updatedAt := now));
      forall x
        ensures Outstanding(s'.outbox, x) <==> x == op || Outstanding(Unshared(s, id), x)
        ensures Outstanding(Unshared(s, id), x) ==> Outstanding(s.outbox, x)
        ensures Outstanding(s.outbox, x) ==> Key(x) == Key(op) || Outstanding(Unshared(s, id), x)
      {
        StampedCall(s, id, op, session, x);
        SharedCall(s, id, x);
      }
      ChangeOne(base, s, s', op, Unshared(s, id));
    }
  }

  lemma SweepCalls(s: Server, sweeper: nat, cutoff: int, order: seq<nat>, x: Op)
    requires sweeper !in s.outbox && Lists(order, Stale(s, cutoff))
    ensures Outstanding(DoSweep(s, sweeper, cutoff, order).outbox, x)
            <==> (x.Delete? && Key(x) in Stale(s, cutoff)) || Outstanding(s.outbox, x)
  {
    hide Outstanding;
    if order != [] {
      OneMoreCall(s.outbox, sweeper, Deletes(order), x);
    }
    if x.Delete? && x.ccbid in order {
      var i :| 0 <= i < |order| && order[i] == x.ccbid;
      assert Deletes(order)[i] == x;
    }
  }

  lemma SweepInStep(anyIP: bool, base: Records, s: Server, sweeper: nat, cutoff: int, order: seq<nat>)
    requires InStep(Whole(), base, s) && sweeper !in s.outbox && Lists(order, Stale(s, cutoff))
    ensures InStep(Whole(), base, DoSweep(s, sweeper, cutoff, order))
            <==> !Crosses(anyIP, s, Sweep(sweeper, cutoff, order))
  {
    hide Outstanding, ApplyAll, Stale, Lists;
    var s', gone := DoSweep(s, sweeper, cutoff, order), Stale(s, cutoff);
    forall x
      ensures Outstanding(s'.outbox, x) <==> (x.Delete? && Key(x) in gone) || Outstanding(s.outbox, x)
    {
      SweepCalls(s, sweeper, cutoff, order, x);
    }
    if Crosses(anyIP, s, Sweep(sweeper, cutoff, order)) {
      var id :| id in gone && Contradicted(s.outbox, Delete(id));
      var x :| Outstanding(s.outbox, x) && Key(x) == id && x != Delete(id);
      assert Outstanding(s'.outbox, x) && !Says(Whole(), x, s'.reconnects);
    } else {
      forall x | Outstanding(s'.outbox, x)
        ensures Says(Whole(), x, s'.reconnects)
      {
        assert Outstanding(s.outbox, x) && x != Delete(Key(x)) ==> Contradicted(s.outbox, Delete(Key(x)));
      }
      forall id | Quiet(s'.outbox, id)
        ensures Agree(Whole(), ApplyAll(base, s'.ops), s'.reconnects, id)
      {
        assert id in gone ==> Outstanding(s'.outbox, Delete(id));
        assert Quiet(s.outbox, id);
      }
    }
  }

  lemma StepInStep(anyIP: bool, base: Records, s: Server, ev: Event)
    requires Inv(s) && InStep(Whole(), base, s) && Enabled(s, ev)
    ensures InStep(Whole(), base, Do(anyIP, s, ev)) <==> !Crosses(anyIP, s, ev)
  {
    hide Inv, InStep, DoRegister, DoRemove, DoSweep, DoTell;
    match ev
    case Register(session, q) => RegisterInStep(anyIP, base, s, session, q);
    case Exit(session, now) => ExitInStep(anyIP, base, s, session, now);
    case Sweep(sweeper, cutoff, order) => SweepInStep(anyIP, base, s, sweeper, cutoff, order);
    case Tell(caller) => TellInStep(Whole(), base, s, caller);
  }

  /**
   * Throughout a run the store ends up with the table however the outstanding calls are ordered, if and only
   * if no event changes an id while a call for it that says otherwise is outstanding.
   */
  lemma {:induction false} InStepIff(anyIP: bool, base: Records, s: Server, evs: seq<Event>)
    requires Inv(s) && EndsAlike(Whole(), base, s)
    ensures Throughout(anyIP, x => EndsAlike(Whole(), base, x), s, evs)
            <==> !Somewhere(anyIP, (x, ev) => Crosses(anyIP, x, ev), s, evs)
    decreases |evs|
  {
    hide Inv, Crosses, Do, Enabled, EndsAlike, InStep;
    EndsAlikeIff(Whole(), base, s);
    if evs != [] && Enabled(s, evs[0]) {
      var s' := Do(anyIP, s, evs[0]);
      StepInStep(anyIP, base, s, evs[0]);
      DoKeeps(anyIP, s, evs[0]);
      EndsAlikeIff(Whole(), base, s');
      if EndsAlike(Whole(), base, s') {
        InStepIff(anyIP, base, s', evs[1..]);
      }
    }
  }


  // ---------- what reconnecting reads: which table changes keep the store in step ----------

  /** Two records let the same requests reclaim the same id: times and names do not matter. */
  function Reclaimed(anyIP: bool): Likeness {
    (x: Record, y: Record) => x.ccbid == y.ccbid && x.cookie == y.cookie && (anyIP || x.peerIP == y.peerIP)
  }

  /** The event is a sweep that drops an id for which a Put is outstanding. */
  ghost predicate SweepsAside(s: Server, ev: Event) {
    ev.Sweep? && exists rec :: Outstanding(s.outbox, Put(rec)) && rec.ccbid in Stale(s, ev.cutoff)
  }

  lemma NamesIssued(s: Server, op: Op)
    requires Inv(s) && Outstanding(s.outbox, op)
    ensures Key(op) in s.issued
  {
    var g :| g in s.outbox && op in s.outbox[g];
    var i :| 0 <= i < |s.outbox[g]| && s.outbox[g][i] == op;
    assert CallNamed(s.outbox[g][i], s.issued);
  }

  /** A registration keeps the store in step: an outstanding call for the id says the same of it. */
  lemma RegisterReclaims(anyIP: bool, base: Records, s: Server, session: nat, q: Request)
    requires Inv(s) && InStep(Reclaimed(anyIP), base, s) && session !in s.outbox
    ensures InStep(Reclaimed(anyIP), base, DoRegister(anyIP, s, session, q))
  {
    hide ApplyAll, Outstanding, OutboxOk;
    var s', rec := DoRegister(anyIP, s, session, q), NewRecord(anyIP, s, q);
    forall x
      ensures Outstanding(s'.outbox, x) <==> x == Put(rec) || Outstanding(s.outbox, x)
    {
      OneMoreCall(s.outbox, session, [Put(rec)], x);
    }
    forall x | Outstanding(s'.outbox, x)
      ensures Says(Reclaimed(anyIP), x, s'.reconnects)
    {
      if x != Put(rec) {
        NamesIssued(s, x);
      }
    }
    forall id | Quiet(s'.outbox, id)
      ensures Agree(Reclaimed(anyIP), ApplyAll(base, s'.ops), s'.reconnects, id)
    {
      assert Outstanding(s'.outbox, Put(rec));
      assert Quiet(s.outbox, id);
    }
  }

  /** An exit changes only the time. */
  lemma ExitReclaims(anyIP: bool, base: Records, s: Server, session: nat, now: int)
    requires Inv(s) && InStep(Reclaimed(anyIP), base, s) && session in s.live && session !in s.outbox
    ensures InStep(Reclaimed(anyIP), base, DoRemove(s, session, now))
  {
    hide ApplyAll, Outstanding, OutboxOk;
    var s', id := DoRemove(s, session, now), s.live[session];
    if id in s.reconnects {
      var op := Put(s.reconnects[id].(updatedAt := now));
      forall x
        ensures Outstanding(s'.outbox, x) <==> x == op || Outstanding(Unshared(s, id), x)
        ensures Outstanding(Unshared(s, id), x) ==> Outstanding(s.outbox, x)
        ensures Outstanding(s.outbox, x) ==> Key(x) == id || Outstanding(Unshared(s, id), x)
      {
        StampedCall(s, id, op, session, x);
        SharedCall(s, id, x);
      }
      forall x | Outstanding(s'.outbox, x)
        ensures Says(Reclaimed(anyIP), x, s'.reconnects)
      {
      }
      forall i | Quiet(s'.outbox, i)
        ensures Agree(Reclaimed(anyIP), ApplyAll(base, s'.ops), s'.reconnects, i)
      {
        assert Outstanding(s'.outbox, op);
        assert Quiet(s.outbox, i);
      }
    }
  }

  lemma SweepReclaims(anyIP: bool, base: Records, s: Server, sweeper: nat, cutoff: int, order: seq<nat>)
    requires InStep(Reclaimed(anyIP), base, s) && sweeper !in s.outbox && Lists(order, Stale(s, cutoff))
    ensures InStep(Reclaimed(anyIP), base, DoSweep(s, sweeper, cutoff, order))
            <==> !SweepsAside(s, Sweep(sweeper, cutoff, order))
  {
    hide Outstanding, ApplyAll, Stale, Lists;
    var s', gone := DoSweep(s, sweeper, cutoff, order), Stale(s, cutoff);
    forall x
      ensures Outstanding(s'.outbox, x) <==> (x.Delete? && Key(x) in gone) || Outstanding(s.outbox, x)
    {
      SweepCalls(s, sweeper, cutoff, order, x);
    }
    if SweepsAside(s, Sweep(sweeper, cutoff, order)) {
      var rec :| Outstanding(s.outbox, Put(rec)) && rec.ccbid in gone;
      assert Outstanding(s'.outbox, Put(rec)) && !Says(Reclaimed(anyIP), Put(rec), s'.reconnects);
    } else {
      forall x | Outstanding(s'.outbox, x)
        ensures Says(Reclaimed(anyIP), x, s'.reconnects)
      {
      }
      forall id | Quiet(s'.outbox, id)
        ensures Agree(Reclaimed(anyIP), ApplyAll(base, s'.ops), s'.reconnects, id)
      {
        assert id in gone ==> Outstanding(s'.outbox, Delete(id));
        assert Quiet(s.outbox, id);
      }
    }
  }

  lemma StepReclaims(anyIP: bool, base: Records, s: Server, ev: Event)
    requires Inv(s) && InStep(Reclaimed(anyIP), base, s) && Enabled(s, ev)
    ensures InStep(Reclaimed(anyIP), base, Do(anyIP, s, ev)) <==> !SweepsAside(s, ev)
  {
    hide Inv, InStep, DoRegister, DoRemove, DoSweep, DoTell;
    match ev
    case Register(session, q) => RegisterReclaims(anyIP, base, s, session, q);
    case Exit(session, now) => ExitReclaims(anyIP, base, s, session, now);
    case Sweep(sweeper, cutoff, order) => SweepReclaims(anyIP, base, s, sweeper, cutoff, order);
    case Tell(caller) => TellInStep(Reclaimed(anyIP), base, s, caller);
  }

  lemma {:induction false} ReclaimedIff(anyIP: bool, base: Records, s: Server, evs: seq<Event>)
    requires Inv(s) && InStep(Reclaimed(anyIP), base, s)
    ensures Throughout(anyIP, x => InStep(Reclaimed(anyIP), base, x), s, evs)
            <==> !Somewhere(anyIP, (x, ev) => SweepsAside(x, ev), s, evs)
    decreases |evs|
  {
    hide Inv, SweepsAside, Do, Enabled, InStep;
    if evs != [] && Enabled(s, evs[0]) {
      StepReclaims(anyIP, base, s, evs[0]);
      DoKeeps(anyIP, s, evs[0]);
      if InStep(Reclaimed(anyIP), base, Do(anyIP, s, evs[0])) {
        ReclaimedIff(anyIP, base, Do(anyIP, s, evs[0]), evs[1..]);
      }
    }
  }

  // ---------- which reconnects succeed ----------

  /** The same requests reclaim an id of either table. */
  ghost predicate SameReclaims(anyIP: bool, m: Records, n: Records) {
    forall q :: Reclaims(anyIP, m, q) <==> Reclaims(anyIP, n, q)
  }

  /** Records under their own ids, with cookies. */
  ghost predicate Named(m: Records) {
    forall id :: id in m ==> m[id].ccbid == id && m[id].cookie != ""
  }

  lemma AlikeReclaims(anyIP: bool, m: Records, n: Records)
    requires Alike(Reclaimed(anyIP), m, n)
    ensures SameReclaims(anyIP, m, n)
  {
    forall q
      ensures Reclaims(anyIP, m, q) <==> Reclaims(anyIP, n, q)
    {
      if q.prevID.Some? {
        assert Agree(Reclaimed(anyIP), m, n, q.prevID.value);
      }
    }
  }

  lemma ReclaimsAlike(anyIP: bool, m: Records, n: Records)
    requires Named(m) && Named(n) && SameReclaims(anyIP, m, n)
    ensures Alike(Reclaimed(anyIP), m, n)
  {
    forall id
      ensures Agree(Reclaimed(anyIP), m, n, id)
    {
      if id in m {
        assert Reclaims(anyIP, m, Request(Some(id), m[id].cookie, m[id].peerIP, "", "", 0));
      }
      if id in n {
        assert Reclaims(anyIP, n, Request(Some(id), n[id].cookie, n[id].peerIP, "", "", 0));
      }
    }
  }

  /** However the outstanding calls are ordered, the store lets the same reconnects succeed as the table. */
  ghost predicate KeepsReconnects(anyIP: bool, base: Records, s: Server) {
    forall gs, s' :: TellAll(s, gs) == Some(s') && s'.outbox == map[] ==>
      SameReclaims(anyIP, ApplyAll(base, s'.ops), s'.reconnects)
  }

  /** Every record that was loaded, issued or told has a cookie. */
  ghost predicate AllNamed(base: Records, s: Server) {
    && Named(base) && (forall id :: id in s.issued ==> s.issued[id] != "") && CallsNamed(s.ops, s.issued)
  }

  lemma {:induction false} ToldNamed(base: Records, ops: seq<Op>, issued: map<nat, string>)
    requires Named(base) && CallsNamed(ops, issued) && forall id :: id in issued ==> issued[id] != ""
    ensures Named(ApplyAll(base, ops))
  {
    if ops != [] {
      ToldNamed(base, ops[..|ops| - 1], issued);
      assert CallNamed(ops[|ops| - 1], issued);
    }
  }

  lemma NamesStay(ops: seq<Op>, s: Server, s': Server)
    requires CallsNamed(ops, s.issued) && Extends(s, s')
    ensures CallsNamed(ops, s'.issued)
  {
    forall i | 0 <= i < |ops|
      ensures CallNamed(ops[i], s'.issued)
    {
      assert CallNamed(ops[i], s.issued);
    }
  }

  lemma TellNamed(base: Records, s: Server, g: nat)
    requires Inv(s) && AllNamed(base, s) && g in s.outbox
    ensures AllNamed(base, DoTell(s, g))
  {
    assert CallsNamed(s.outbox[g], s.issued) && s.outbox[g] != [];
    assert CallNamed(s.outbox[g][0], s.issued);
  }

  lemma DoNamed(anyIP: bool, base: Records, s: Server, ev: Event)
    requires Inv(s) && AllNamed(base, s) && Enabled(s, ev)
    ensures AllNamed(base, Do(anyIP, s, ev))
  {
    hide Named, OutboxOk, CallsNamed;
    DoKeeps(anyIP, s, ev);
    NamesStay(s.ops, s, Do(anyIP, s, ev));
    if ev.Tell? {
      TellNamed(base, s, ev.caller);
    }
  }

  lemma {:induction false} TellAllNamed(base: Records, s: Server, gs: seq<nat>, s': Server)
    requires Inv(s) && AllNamed(base, s) && TellAll(s, gs) == Some(s')
    ensures Inv(s') && AllNamed(base, s')
    decreases |gs|
  {
    hide Inv, AllNamed, DoTell;
    if gs != [] {
      TellNamed(base, s, gs[0]);
      TellKeeps(s, gs[0]);
      TellAllNamed(base, DoTell(s, gs[0]), gs[1..], s');
    }
  }

  lemma KeepsIff(anyIP: bool, base: Records, s: Server)
    requires Inv(s) && AllNamed(base, s)
    ensures KeepsReconnects(anyIP, base, s) <==> InStep(Reclaimed(anyIP), base, s)
  {
    hide ApplyAll, TellAll, InStep, Alike, SameReclaims, OutboxOk;
    EndsAlikeIff(Reclaimed(anyIP), base, s);
    forall gs, s' | TellAll(s, gs) == Some(s')
      ensures SameReclaims(anyIP, ApplyAll(base, s'.ops), s'.reconnects)
              <==> Alike(Reclaimed(anyIP), ApplyAll(base, s'.ops), s'.reconnects)
    {
      TellAllNamed(base, s, gs, s');
      ToldNamed(base, s'.ops, s'.issued);
      if Alike(Reclaimed(anyIP), ApplyAll(base, s'.ops), s'.reconnects) {
        AlikeReclaims(anyIP, ApplyAll(base, s'.ops), s'.reconnects);
      } else if SameReclaims(anyIP, ApplyAll(base, s'.ops), s'.reconnects) {
        ReclaimsAlike(anyIP, ApplyAll(base, s'.ops), s'.reconnects);
      }
    }
  }

  /**
   * Throughout a run the store lets the same reconnects succeed as the table, however the outstanding calls
   * are ordered, if and only if no sweep drops an id for which a Put is outstanding. Overlapping handlers and
   * reconnects that overtake the call of an earlier exit do no harm.
   */
  lemma {:induction false} ReconnectsIff(anyIP: bool, base: Records, s: Server, evs: seq<Event>)
    requires Inv(s) && AllNamed(base, s) && KeepsReconnects(anyIP, base, s)
    ensures Throughout(anyIP, x => KeepsReconnects(anyIP, base, x), s, evs)
            <==> !Somewhere(anyIP, (x, ev) => SweepsAside(x, ev), s, evs)
    decreases |evs|
  {
    hide Inv, AllNamed, SweepsAside, Do, Enabled, InStep, KeepsReconnects;
    KeepsIff(anyIP, base, s);
    if evs != [] && Enabled(s, evs[0]) {
      var s' := Do(anyIP, s, evs[0]);
      StepReclaims(anyIP, base, s, evs[0]);
      DoKeeps(anyIP, s, evs[0]);
      DoNamed(anyIP, base, s, evs[0]);
      KeepsIff(anyIP, base, s');
      if KeepsReconnects(anyIP, base, s') {
        ReconnectsIff(anyIP, base, s', evs[1..]);
      }
    }
  }

  // ---------- restarts ----------

  lemma BootInStep(like: Likeness, base: Records)
    requires forall x :: like(x, x)
    ensures InStep(like, base, Boot(base))
  {
    assert Boot(base).outbox == map[];
  }

  lemma {:induction false} ThroughoutEnd(anyIP: bool, good: Server -> bool, s: Server, evs: seq<Event>, s': Server)
    requires Throughout(anyIP, good, s, evs) && Run(anyIP, s, evs) == Some(s')
    ensures good(s')
    decreases |evs|
  {
    hide Do, Enabled;
    if evs != [] {
      ThroughoutEnd(anyIP, good, Do(anyIP, s, evs[0]), evs[1..], s');
    }
  }

  /** The records loaded after the store has handled its calls and been closed with a last flush. */
  function Reloaded(c: Cipher, t: Table, storeRun: seq<WriterEvent>, last: Fault): Records {
    Loaded(c, HandleAll(c, Writer(t, map[], [], []), storeRun + [Flushed(last)]).table)
  }

  /** No sweep dropped an id whose Put was outstanding, from the start of a run. */
  ghost predicate NoneSweptAside(anyIP: bool, base: Records, evs: seq<Event>) {
    !Somewhere(anyIP, (x, ev) => SweepsAside(x, ev), Boot(base), evs)
  }

  /** From the start of every run on records with cookies. */
  lemma RestartIff(anyIP: bool, base: Records, evs: seq<Event>)
    requires Named(base)
    ensures Throughout(anyIP, x => KeepsReconnects(anyIP, base, x), Boot(base), evs)
            <==> NoneSweptAside(anyIP, base, evs)
  {
    hide Throughout, Somewhere, KeepsReconnects, InStep;
    BootOk(base);
    BootInStep(Reclaimed(anyIP), base);
    KeepsIff(anyIP, base, Boot(base));
    ReconnectsIff(anyIP, base, Boot(base), evs);
  }

  /** With every call made, the store has been told what reconnecting reads. */
  lemma StoreReclaims(anyIP: bool, base: Records, evs: seq<Event>, s: Server)
    requires RecordsOk(base) && Run(anyIP, Boot(base), evs) == Some(s)
    requires NoneSweptAside(anyIP, base, evs) && s.outbox == map[]
    ensures Alike(Reclaimed(anyIP), ApplyAll(base, s.ops), s.reconnects)
  {
    hide Run, Boot, Throughout, Somewhere, ApplyAll, InStep, Alike;
    BootOk(base);
    BootInStep(Reclaimed(anyIP), base);
    ReclaimedIff(anyIP, base, Boot(base), evs);
    ThroughoutEnd(anyIP, x => InStep(Reclaimed(anyIP), base, x), Boot(base), evs, s);
    NothingLeft(Reclaimed(anyIP), base, s);
  }

  lemma CutAlike(anyIP: bool, m: Records, n: Records)
    requires Alike(Reclaimed(anyIP), m, n)
    ensures Alike(Reclaimed(anyIP), Cut(m), n)
  {
    forall id
      ensures Agree(Reclaimed(anyIP), Cut(m), n, id)
    {
      assert Agree(Reclaimed(anyIP), m, n, id);
    }
  }

  /**
   * A clean restart: no sweep dropped an id whose Put was outstanding, all calls were made, the store is closed
   * without faults, wherever its flush ticks fell, and the broker boots from what it loads. Every registration
   * that would have reclaimed an id before still does, the same id with the same cookie, and no other one does.
   */
  lemma CleanRestart(anyIP: bool, c: Cipher, t: Table, base: Records, evs: seq<Event>, s: Server,
                     storeRun: seq<WriterEvent>, last: Fault, q: Request)
    requires CipherOk(c) && RecordsOk(base) && Loaded(c, t) == Cut(base)
    requires Run(anyIP, Boot(base), evs) == Some(s) && NoneSweptAside(anyIP, base, evs) && s.outbox == map[]
    requires OpsOf(storeRun) == s.ops && NoFaults(c, storeRun + [Flushed(last)])
    ensures var s' := Boot(Reloaded(c, t, storeRun, last));
            && s'.reconnects.Keys == s.reconnects.Keys
            && (Reclaims(anyIP, s'.reconnects, q) <==> Reclaims(anyIP, s.reconnects, q))
            && (Reclaims(anyIP, s.reconnects, q) ==>
                  && AssignedID(anyIP, s', q) == AssignedID(anyIP, s, q)
                  && AssignedCookie(anyIP, s', q) == AssignedCookie(anyIP, s, q))
  {
    hide Run, ApplyAll, HandleAll, CipherOk, NoFaults, Loaded, OpsOf, NoneSweptAside;
    StoreReclaims(anyIP, base, evs, s);
    CloseLeavesReference(c, t, base, storeRun, last);
    var loaded := Reloaded(c, t, storeRun, last);
    CutAlike(anyIP, ApplyAll(base, s.ops), s.reconnects);
    AlikeReclaims(anyIP, loaded, s.reconnects);
    forall id
      ensures id in loaded <==> id in s.reconnects
    {
      assert Agree(Reclaimed(anyIP), loaded, s.reconnects, id);
    }
  }

  /**
   * A run in which a sweep drops an id whose Put is outstanding, with a single handler: its exit stamps the
   * record, the sweep drops the record and tells the store, and the exit's call arrives last. The exit's call
   * must be late by more than the time records are kept, since the sweep counts from the stamp. All calls are
   * made and the table is empty, but after a clean close and restart a reconnect succeeds that the running
   * broker would refuse.
   */
  lemma ExitCrossesSweep(anyIP: bool, c: Cipher, t: Table) returns (evs: seq<Event>, s: Server, q: Request)
    requires CipherOk(c) && Loaded(c, t) == map[]
    ensures Run(anyIP, Boot(map[]), evs) == Some(s) && s.outbox == map[] && s.reconnects == map[]
    ensures !Reclaims(anyIP, s.reconnects, q)
    ensures forall storeRun, last ::
              OpsOf(storeRun) == s.ops && NoFaults(c, storeRun + [Flushed(last)]) ==>
                Reclaims(anyIP, Reloaded(c, t, storeRun, last), q)
  {
    hide CipherOk, NoFaults, Loaded, OpsOf, HandleAll;
    var first := Request(None, "", "10.0.0.1", "a", "c", 0);
    q := Request(Some(1), "c", "10.0.0.1", "a", "d", 1);
    evs, s := CrossingRun(anyIP, first);
    forall storeRun, last | OpsOf(storeRun) == s.ops && NoFaults(c, storeRun + [Flushed(last)])
      ensures Reclaims(anyIP, Reloaded(c, t, storeRun, last), q)
    {
      assert Cut(map[]) == map[];
      CloseLeavesReference(c, t, map[], storeRun, last);
    }
  }

  lemma CrossingRun(anyIP: bool, first: Request) returns (evs: seq<Event>, s: Server)
    requires first == Request(None, "", "10.0.0.1", "a", "c", 0)
    ensures Run(anyIP, Boot(map[]), evs) == Some(s) && s.outbox == map[] && s.reconnects == map[]
    ensures ApplyAll(map[], s.ops) == map[1 := Record(1, "c", "10.0.0.1", "a", 5)]
  {
    hide ApplyAll, Run;
    var rec0, rec := Record(1, "c", "10.0.0.1", "a", 0), Record(1, "c", "10.0.0.1", "a", 5);
    var s1, s3 := BeforeSweep(anyIP, first);
    var s4, s5 := AfterSweep(anyIP, s3);
    s := Do(anyIP, s5, Tell(1));
    ApplyOne(map[], [Put(rec0), Delete(1)], Put(rec));
    ApplyOne(map[], [Put(rec0)], Delete(1));
    ApplyOne(map[], [], Put(rec0));
    assert [] + [Put(rec0)] == [Put(rec0)] && [Put(rec0)] + [Delete(1)] == [Put(rec0), Delete(1)];
    NoOps();
    RunNothing(anyIP, s);
    evs := RunOne(anyIP, s5, Tell(1), [], s);
    evs := RunOne(anyIP, s4, Tell(2), evs, s);
    evs := RunOne(anyIP, s3, Sweep(2, 9, [1]), evs, s);
    evs := RunOne(anyIP, Do(anyIP, s1, Tell(1)), Exit(1, 5), evs, s);
    evs := RunOne(anyIP, s1, Tell(1), evs, s);
    evs := RunOne(anyIP, Boot(map[]), Register(1, first), evs, s);
  }

  lemma NoOps()
    ensures ApplyAll(map[], []) == map[]
  {
  }

  lemma BeforeSweep(anyIP: bool, first: Request) returns (s1: Server, s3: Server)
    requires first == Request(None, "", "10.0.0.1", "a", "c", 0)
    ensures Enabled(Boot(map[]), Register(1, first)) && s1 == Do(anyIP, Boot(map[]), Register(1, first))
    ensures Enabled(s1, Tell(1)) && Enabled(Do(anyIP, s1, Tell(1)), Exit(1, 5))
    ensures s3 == Do(anyIP, Do(anyIP, s1, Tell(1)), Exit(1, 5))
    ensures var rec0, rec := Record(1, "c", "10.0.0.1", "a", 0), Record(1, "c", "10.0.0.1", "a", 5);
            s3 == Server(1, map[], map[1 := rec], map[1 := [Put(rec)]], map[], [Put(rec0)], map[], map[1 := "c"])
  {
    var s0 := Boot(map[]);
    assert s0 == Server(0, map[], map[], map[], map[], [], map[], map[]);
    s1 := Do(anyIP, s0, Register(1, first));
    var s2 := Do(anyIP, s1, Tell(1));
    s3 := Do(anyIP, s2, Exit(1, 5));
  }

  lemma AfterSweep(anyIP: bool, s3: Server) returns (s4: Server, s5: Server)
    requires var rec0, rec := Record(1, "c", "10.0.0.1", "a", 0), Record(1, "c", "10.0.0.1", "a", 5);
             s3 == Server(1, map[], map[1 := rec], map[1 := [Put(rec)]], map[], [Put(rec0)], map[], map[1 := "c"])
    ensures Enabled(s3, Sweep(2, 9, [1])) && s4 == Do(anyIP, s3, Sweep(2, 9, [1]))
    ensures Enabled(s4, Tell(2)) && s5 == Do(anyIP, s4, Tell(2))
    ensures var rec0, rec := Record(1, "c", "10.0.0.1", "a", 0), Record(1, "c", "10.0.0.1", "a", 5);
            s5 == Server(1, map[], map[], map[1 := [Put(rec)]], map[], [Put(rec0), Delete(1)], map[], map[1 := "c"])
  {
    assert Stale(s3, 9) == {1};
    assert Deletes([1]) == [Delete(1)];
    s4 := Do(anyIP, s3, Sweep(2, 9, [1]));
    s5 := Do(anyIP, s4, Tell(2));
  }
}
