/** The reconnect stores: the in-memory reference, and the batching one over a database table. */
module Store {
  import opened Options

  /** `updatedAt` is in nanoseconds. */
  datatype Record = Record(ccbid: nat, cookie: string, peerIP: string, name: string, updatedAt: int)

  type Records = map<nat, Record>

  datatype Op = Put(rec: Record) | Delete(ccbid: nat)

  function Key(op: Op): nat {
    match op
    case Put(rec) => rec.ccbid
    case Delete(id) => id
  }

  // ---------- the reference store ----------

  function Apply(m: Records, op: Op): Records {
    match op
    case Put(rec) => m[rec.ccbid := rec]
    case Delete(id) => m - {id}
  }

  function ApplyAll(m: Records, ops: seq<Op>): Records {
    if ops == [] then m else Apply(ApplyAll(m, ops[..|ops| - 1]), ops[|ops| - 1])
  }

  /** An id no operation names keeps what it had. */
  lemma {:induction false} Untouched(m: Records, ops: seq<Op>, id: nat)
    requires forall j :: 0 <= j < |ops| ==> Key(ops[j]) != id
    ensures id in ApplyAll(m, ops) <==> id in m
    ensures id in m ==> id in ApplyAll(m, ops) && ApplyAll(m, ops)[id] == m[id]
  {
    if ops != [] {
      Untouched(m, ops[..|ops| - 1], id);
      assert Key(ops[|ops| - 1]) != id;
    }
  }

  /** Of the operations that name an id, the last one decides whether it has a record, and which. */
  lemma {:induction false} LastOneDecides(m: Records, ops: seq<Op>, k: nat)
    requires k < |ops| && forall j :: k < j < |ops| ==> Key(ops[j]) != Key(ops[k])
    ensures ops[k].Put? <==> Key(ops[k]) in ApplyAll(m, ops)
    ensures ops[k].Put? ==> ops[k].rec.ccbid in ApplyAll(m, ops) && ApplyAll(m, ops)[ops[k].rec.ccbid] == ops[k].rec
  {
    if k < |ops| - 1 {
      assert Key(ops[|ops| - 1]) != Key(ops[k]);
      LastOneDecides(m, ops[..|ops| - 1], k);
    }
  }

  class MemoryStore {
    var recs: Records

    constructor ()
      ensures recs == map[]
    {
      recs := map[];
    }

    method Put(rec: Record)
      modifies this
      ensures recs == Apply(old(recs), Op.Put(rec))
    {
      recs := recs[rec.ccbid := rec];
    }

    method Delete(ccbid: nat)
      modifies this
      ensures recs == Apply(old(recs), Op.Delete(ccbid))
    {
      recs := recs - {ccbid};
    }

    method Load() returns (out: seq<Record>)
      ensures |out| == |recs| && (forall r :: r in out <==> r in recs.Values)
    {
      out := [];
      var todo := recs.Keys;
      while todo != {}
        invariant todo <= recs.Keys
        invariant |out| + |todo| == |recs.Keys|
        invariant forall r :: r in out <==> exists id :: id in recs.Keys - todo && recs[id] == r
        decreases |todo|
      {
        var id :| id in todo;
        out := out + [recs[id]];
        todo := todo - {id};
      }
    }
  }

  // ---------- rows ----------

  type Blob = seq<char>

  /** What is encrypted in a row; the id and the time stay in the clear, the time cut to whole seconds. */
  datatype Secret = Secret(cookie: string, peerIP: string, name: string)

  datatype Row = Row(sealed: Blob, updatedAt: int)

  type Table = map<nat, Row>

  /** Sealing and unsealing of a row's secret fields; either may fail. */
  datatype Cipher = Cipher(seal: Secret -> Option<Blob>, unseal: Blob -> Option<Secret>)

  ghost predicate CipherOk(c: Cipher) {
    forall s :: c.seal(s).Some? ==> c.unseal(c.seal(s).value) == Some(s)
  }

  const SECOND := 1_000_000_000

  function Seconds(r: Record): Record {
    r.(updatedAt := r.updatedAt / SECOND * SECOND)
  }

  function SecretOf(r: Record): Secret {
    Secret(r.cookie, r.peerIP, r.name)
  }

  function RecordOf(c: Cipher, id: nat, row: Row): Option<Record> {
    match c.unseal(row.sealed)
    case Some(s) => Some(Record(id, s.cookie, s.peerIP, s.name, row.updatedAt * SECOND))
    case None => None
  }

  function Readable(c: Cipher, t: Table): set<nat> {
    set id | id in t && RecordOf(c, id, t[id]).Some?
  }

  /** What Load makes of a table: every row that unseals. */
  function Loaded(c: Cipher, t: Table): Records {
    map id | id in Readable(c, t) :: RecordOf(c, id, t[id]).value
  }

  function Cut(m: Records): Records {
    map id | id in m :: Seconds(m[id])
  }

  /** The same ids with the same cookie, address and name, and each time the whole second it falls in. */
  ghost predicate ToTheSecond(m: Records, x: Records) {
    && x.Keys == m.Keys
    && (forall id :: id in m ==> && x[id].ccbid == m[id].ccbid && x[id].cookie == m[id].cookie
                                 && x[id].peerIP == m[id].peerIP && x[id].name == m[id].name
                                 && x[id].updatedAt % 1_000_000_000 == 0
                                 && x[id].updatedAt <= m[id].updatedAt < x[id].updatedAt + 1_000_000_000)
  }

  lemma CutMeans(m: Records, x: Records)
    ensures x == Cut(m) <==> ToTheSecond(m, x)
  {
    if ToTheSecond(m, x) {
      forall id | id in m
        ensures x[id] == Cut(m)[id]
      {
        var a, b := x[id].updatedAt, m[id].updatedAt;
        assert a / 1_000_000_000 * 1_000_000_000 == a;
        assert a / 1_000_000_000 == b / 1_000_000_000;
      }
    }
  }

  // ---------- batches ----------

  type Batch = map<nat, Op>

  /** The last operation per id of a run of operations. */
  function Coalesced(ops: seq<Op>): Batch {
    if ops == [] then map[] else
    Coalesced(ops[..|ops| - 1])[Key(ops[|ops| - 1]) := ops[|ops| - 1]]
  }

  /** Whether every statement of the batch succeeds: an id in `faults` fails, and so does an unsealable row. */
  predicate Commits(c: Cipher, b: Batch, faults: set<nat>) {
    forall id :: id in b ==> id !in faults && (b[id].Put? ==> c.seal(SecretOf(b[id].rec)).Some?)
  }

  function Deleted(b: Batch): set<nat> {
    set id | id in b && b[id].Delete?
  }

  function Sealed(c: Cipher, r: Record): Row
    requires c.seal(SecretOf(r)).Some?
  {
    Row(c.seal(SecretOf(r)).value, r.updatedAt / SECOND)
  }

  /** A table with a batch written over it. */
  function Written(c: Cipher, t: Table, b: Batch): Table
    requires Commits(c, b, {})
  {
    map id | id in t.Keys + b.Keys && id !in Deleted(b) ::
      if id in b && b[id].Put? then Sealed(c, b[id].rec) else t[id]
  }

  /** A batch applied to records, whatever the order of its entries. */
  function Overlay(m: Records, b: Batch): Records {
    map id | id in m.Keys + b.Keys && id !in Deleted(b) ::
      if id in b && b[id].Put? then b[id].rec else m[id]
  }

  ghost predicate Keyed(b: Batch) {
    forall id :: id in b ==> Key(b[id]) == id
  }

  lemma {:induction false} CoalescedKeyed(ops: seq<Op>)
    ensures Keyed(Coalesced(ops))
  {
    if ops != [] {
      CoalescedKeyed(ops[..|ops| - 1]);
    }
  }

  /** Applying operations one by one is the same as applying the last one per id, all at once. */
  lemma {:induction false} CoalescingIsExact(m: Records, ops: seq<Op>)
    ensures Overlay(m, Coalesced(ops)) == ApplyAll(m, ops)
  {
    if ops == [] {
    } else {
      var init, last := ops[..|ops| - 1], ops[|ops| - 1];
      CoalescingIsExact(m, init);
      OverlayOne(m, Coalesced(init), last);
    }
  }

  lemma OverlayOne(m: Records, b: Batch, op: Op)
    ensures Overlay(m, b[Key(op) := op]) == Apply(Overlay(m, b), op)
  {
    var x, y := Overlay(m, b[Key(op) := op]), Apply(Overlay(m, b), op);
    assert forall id :: id in x <==> id in y;
  }

  /** Loading a table with a batch written over it gives the loaded records with the batch applied, cut to seconds. */
  lemma LoadedWritten(c: Cipher, t: Table, m: Records, b: Batch)
    requires CipherOk(c) && Commits(c, b, {}) && Keyed(b)
    requires Loaded(c, t) == Cut(m)
    ensures Loaded(c, Written(c, t, b)) == Cut(Overlay(m, b))
    ensures ToTheSecond(Overlay(m, b), Loaded(c, Written(c, t, b)))
  {
    CutMeans(Overlay(m, b), Loaded(c, Written(c, t, b)));
    hide ToTheSecond;
    var t' := Written(c, t, b);
    var x, y := Loaded(c, t'), Cut(Overlay(m, b));
    forall id
      ensures id in x <==> id in y
      ensures id in x && id in y ==> x[id] == y[id]
    {
      if id in b && b[id].Put? {
        assert id in t' && RecordOf(c, id, t'[id]) == Some(Seconds(b[id].rec));
        assert id in Readable(c, t');
      } else if id !in b {
        assert id in Loaded(c, t) <==> id in Cut(m);
        assert id in t' <==> id in t;
        assert id in Readable(c, t') <==> id in Readable(c, t);
      }
    }
  }

  // ---------- the batching store ----------

  /** Begin or commit of the transaction fails, or the statements for some ids do. */
  datatype Fault = Fault(tx: bool, ids: set<nat>)

  predicate Survives(c: Cipher, b: Batch, f: Fault) {
    !f.tx && Commits(c, b, f.ids)
  }

  function AfterCommit(c: Cipher, t: Table, b: Batch, f: Fault): Table {
    if Survives(c, b, f) then Written(c, t, b) else t
  }

  /** One statement per entry, in whatever order the map yields them, stopping at the first that fails. */
  method RunStatements(c: Cipher, t: Table, b: Batch, faults: set<nat>) returns (ok: bool, tx: Table)
    requires Keyed(b)
    ensures ok == Commits(c, b, faults)
    ensures ok ==> tx == Written(c, t, b)
  {
    hide Written;
    WrittenNothing(c, t);
    tx := t;
    var todo := b.Keys;
    ghost var part: Batch := map[];
    while todo != {}
      invariant todo <= b.Keys && part.Keys == b.Keys - todo
      invariant forall id :: id in part ==> part[id] == b[id]
      invariant Commits(c, part, faults)
      invariant tx == Written(c, t, part)
      decreases |todo|
    {
      var id :| id in todo;
      if id in faults {
        return false, tx;
      }
      assert Key(b[id]) == id;
      match b[id] {
        case Delete(_) =>
          WrittenDelete(c, t, part, b[id]);
          tx := tx - {id};
        case Put(rec) =>
          var sealed := c.seal(SecretOf(rec));
          if sealed.None? {
            return false, tx;
          }
          WrittenPut(c, t, part, rec);
          tx := tx[id := Row(sealed.value, rec.updatedAt / SECOND)];
      }
      part := part[id := b[id]];
      todo := todo - {id};
    }
    assert part == b;
    ok := true;
  }

  class SqliteStore {
    const cipher: Cipher
    var table: Table
    var queue: seq<Op>
    var batch: Batch
    var done: bool

    constructor (cipher: Cipher, table: Table)
      ensures this.cipher == cipher && this.table == table && queue == [] && batch == map[] && !done
    {
      this.cipher, this.table := cipher, table;
      queue, batch, done := [], map[], false;
    }

    /** Queues an operation for the writer, unless the store has been closed. */
    method Enqueue(op: Op)
      modifies this`queue
      ensures queue == if done then old(queue) else old(queue) + [op]
    {
      if !done {
        queue := queue + [op];
      }
    }

    /** The writer takes the oldest queued operation into its batch. */
    method Receive()
      requires queue != []
      modifies this`queue, this`batch
      ensures queue == old(queue)[1..] && batch == old(batch)[Key(old(queue)[0]) := old(queue)[0]]
    {
      var op := queue[0];
      batch := batch[Key(op) := op];
      queue := queue[1..];
    }

    /** Commits the batch in one transaction; any failure rolls the whole batch back. */
    method Commit(f: Fault)
      requires Keyed(batch)
      modifies this`table
      ensures table == AfterCommit(cipher, old(table), batch, f)
    {
      hide Written;
      WrittenNothing(cipher, table);
      if batch == map[] || f.tx {
        return;
      }
      var ok, tx := RunStatements(cipher, table, batch, f.ids);
      if ok {
        table := tx;
      }
    }

    /** A flush tick: commit, then start a new batch whether or not the commit succeeded. */
    method Tick(f: Fault)
      requires Keyed(batch)
      modifies this`table, this`batch
      ensures table == AfterCommit(cipher, old(table), old(batch), f) && batch == map[]
    {
      Commit(f);
      batch := map[];
    }

    /** Closes the store: drains the queue into the batch and commits it. */
    method Close(f: Fault)
      requires Keyed(batch)
      modifies this
      ensures done && queue == []
      ensures batch == Drained(old(batch), old(queue))
      ensures table == AfterCommit(cipher, old(table), Drained(old(batch), old(queue)), f)
    {
      done := true;
      ghost var n := 0;
      while queue != []
        invariant 0 <= n <= |old(queue)| && queue == old(queue)[n..]
        invariant batch == Drained(old(batch), old(queue)[..n])
        invariant Keyed(batch) && done && table == old(table)
        decreases |queue|
      {
        Receive();
        assert old(queue)[..n + 1][..n] == old(queue)[..n];
        n := n + 1;
      }
      assert old(queue)[..n] == old(queue);
      Commit(f);
    }

    /** Every row that unseals, each once. */
    method Load() returns (out: seq<Record>)
      ensures |out| == |Loaded(cipher, table)|
      ensures forall r :: r in out <==> r in Loaded(cipher, table).Values
    {
      out := [];
      var todo := table.Keys;
      ghost var got: Records := map[];
      while todo != {}
        invariant todo <= table.Keys
        invariant forall id :: id in got <==> id in Readable(cipher, table) && id !in todo
        invariant forall id :: id in got ==> got[id] == RecordOf(cipher, id, table[id]).value
        invariant |out| == |got| && (forall r :: r in out <==> r in got.Values)
        decreases |todo|
      {
        var id :| id in todo;
        var rec := RecordOf(cipher, id, table[id]);
        if rec.Some? {
          ValuesOfUpdate(got, id, rec.value);
          got := got[id := rec.value];
          out := out + [rec.value];
        }
        todo := todo - {id};
      }
      assert got == Loaded(cipher, table);
    }
  }

  lemma ValuesOfUpdate(m: Records, id: nat, r: Record)
    requires id !in m
    ensures m[id := r].Values == m.Values + {r} && |m[id := r]| == |m| + 1
  {
    var m' := m[id := r];
    assert m'.Keys == m.Keys + {id};
    forall x | x in m.Values + {r}
      ensures x in m'.Values
    {
      if x in m.Values {
        var k :| k in m && m[k] == x;
        assert m'[k] == x;
      } else {
        assert m'[id] == x;
      }
    }
  }

  lemma WrittenNothing(c: Cipher, t: Table)
    ensures Written(c, t, map[]) == t
  {
  }

  lemma WrittenPut(c: Cipher, t: Table, b: Batch, r: Record)
    requires Commits(c, b, {}) && c.seal(SecretOf(r)).Some?
    ensures Commits(c, b[r.ccbid := Put(r)], {})
    ensures Written(c, t, b[r.ccbid := Put(r)]) == Written(c, t, b)[r.ccbid := Sealed(c, r)]
  {
    var x, y := Written(c, t, b[r.ccbid := Put(r)]), Written(c, t, b)[r.ccbid := Sealed(c, r)];
    assert forall id :: id in x <==> id in y;
  }

  lemma WrittenDelete(c: Cipher, t: Table, b: Batch, op: Op)
    requires Commits(c, b, {}) && op.Delete?
    ensures Commits(c, b[Key(op) := op], {})
    ensures Written(c, t, b[Key(op) := op]) == Written(c, t, b) - {Key(op)}
  {
    var x, y := Written(c, t, b[Key(op) := op]), Written(c, t, b) - {Key(op)};
    assert forall id :: id in x <==> id in y;
  }

  function Drained(b: Batch, ops: seq<Op>): Batch {
    if ops == [] then b else Drained(b, ops[..|ops| - 1])[Key(ops[|ops| - 1]) := ops[|ops| - 1]]
  }

  /** Draining the queue at close continues the batch as if each operation had been received. */
  lemma {:induction false} DrainedCoalesced(a: seq<Op>, b: seq<Op>)
    ensures Drained(Coalesced(a), b) == Coalesced(a + b)
  {
    if b == [] {
      assert a + b == a;
    } else {
      DrainedCoalesced(a, b[..|b| - 1]);
      assert (a + b)[..|a + b| - 1] == a + b[..|b| - 1];
    }
  }

  // ---------- every run of the writer ----------

  datatype WriterEvent = Received(op: Op) | Flushed(fault: Fault)

  /**
   * The writer's batch and table, and what they stand for: the operations whose batches were committed,
   * and the ones received since the last flush.
   */
  datatype Writer = Writer(table: Table, batch: Batch, kept: seq<Op>, pending: seq<Op>)

  function Handle(c: Cipher, w: Writer, ev: WriterEvent): Writer {
    match ev
    case Received(op) => w.(batch := w.batch[Key(op) := op], pending := w.pending + [op])
    case Flushed(f) =>
      Writer(AfterCommit(c, w.table, w.batch, f), map[],
             if Survives(c, w.batch, f) then w.kept + w.pending else w.kept, [])
  }

  function HandleAll(c: Cipher, w: Writer, evs: seq<WriterEvent>): Writer {
    if evs == [] then w else Handle(c, HandleAll(c, w, evs[..|evs| - 1]), evs[|evs| - 1])
  }

  function OpsOf(evs: seq<WriterEvent>): seq<Op> {
    if evs == [] then [] else
    OpsOf(evs[..|evs| - 1]) +
    match evs[|evs| - 1]
    case Received(op) => [op]
    case Flushed(_) => []
  }

  ghost predicate WriterOk(c: Cipher, m: Records, w: Writer) {
    && w.batch == Coalesced(w.pending)
    && Loaded(c, w.table) == Cut(ApplyAll(m, w.kept))
  }

  lemma {:induction false} ApplyAllConcat(m: Records, a: seq<Op>, b: seq<Op>)
    ensures ApplyAll(m, a + b) == ApplyAll(ApplyAll(m, a), b)
  {
    if b == [] {
      assert a + b == a;
    } else {
      ApplyAllConcat(m, a, b[..|b| - 1]);
      assert (a + b)[..|a + b| - 1] == a + b[..|b| - 1];
    }
  }

  lemma CommitsFewerFaults(c: Cipher, b: Batch, f: Fault)
    requires Survives(c, b, f)
    ensures Commits(c, b, {})
  {
  }

  lemma HandleKeeps(c: Cipher, m: Records, w: Writer, ev: WriterEvent)
    requires CipherOk(c) && WriterOk(c, m, w)
    ensures WriterOk(c, m, Handle(c, w, ev))
  {
    match ev
    case Received(op) =>
      assert (w.pending + [op])[..|w.pending|] == w.pending;
    case Flushed(f) =>
      if Survives(c, w.batch, f) {
        CommitsFewerFaults(c, w.batch, f);
        CoalescedKeyed(w.pending);
        LoadedWritten(c, w.table, ApplyAll(m, w.kept), w.batch);
        CoalescingIsExact(ApplyAll(m, w.kept), w.pending);
        ApplyAllConcat(m, w.kept, w.pending);
      }
  }

  /**
   * The batching store refines the reference store: after any run of operations and flush ticks, what
   * Load returns is the reference store after exactly the operations whose batches were committed,
   * cut to whole seconds. A failed commit leaves the table as if its batch had never existed.
   */
  lemma {:induction false} RefinesReference(c: Cipher, t: Table, m: Records, evs: seq<WriterEvent>)
    requires CipherOk(c) && Loaded(c, t) == Cut(m)
    ensures var w := HandleAll(c, Writer(t, map[], [], []), evs);
            && Loaded(c, w.table) == Cut(ApplyAll(m, w.kept))
            && w.batch == Coalesced(w.pending)
  {
    if evs != [] {
      var init := evs[..|evs| - 1];
      RefinesReference(c, t, m, init);
      HandleKeeps(c, m, HandleAll(c, Writer(t, map[], [], []), init), evs[|evs| - 1]);
    }
  }

  ghost predicate NoFaults(c: Cipher, evs: seq<WriterEvent>) {
    && (forall s :: c.seal(s).Some?)
    && (forall i :: 0 <= i < |evs| && evs[i].Flushed? ==> !evs[i].fault.tx && evs[i].fault.ids == {})
  }

  lemma {:induction false} NothingDropped(c: Cipher, t: Table, evs: seq<WriterEvent>)
    requires NoFaults(c, evs)
    ensures var w := HandleAll(c, Writer(t, map[], [], []), evs);
            w.kept + w.pending == OpsOf(evs)
  {
    if evs != [] {
      var init := evs[..|evs| - 1];
      NothingDropped(c, t, init);
      var w := HandleAll(c, Writer(t, map[], [], []), init);
      match evs[|evs| - 1]
      case Received(op) =>
        assert w.kept + (w.pending + [op]) == (w.kept + w.pending) + [op];
      case Flushed(f) =>
    }
  }

  /** Without faults, wherever the ticks fall, closing leaves the records of the reference store. */
  lemma CloseLeavesReference(c: Cipher, t: Table, m: Records, evs: seq<WriterEvent>, last: Fault)
    requires CipherOk(c) && Loaded(c, t) == Cut(m)
    requires NoFaults(c, evs + [Flushed(last)])
    ensures var w := HandleAll(c, Writer(t, map[], [], []), evs + [Flushed(last)]);
            Loaded(c, w.table) == Cut(ApplyAll(m, OpsOf(evs)))
  {
    hide Loaded, Cut, ApplyAll, Coalesced, AfterCommit, CipherOk, Survives;
    var all := evs + [Flushed(last)];
    assert all[..|all| - 1] == evs && all[|all| - 1] == Flushed(last);
    var w := HandleAll(c, Writer(t, map[], [], []), all);
    assert w.pending == [] && w.kept + w.pending == w.kept;
    assert OpsOf(all) == OpsOf(evs) + [] == OpsOf(evs);
    RefinesReference(c, t, m, all);
    NothingDropped(c, t, all);
  }

  /**
   * What the next start loads after a close without faults: the ids of the reference store, each with its
   * cookie, address and name, and with its time cut down to the second.
   */
  lemma ReloadsReference(c: Cipher, t: Table, m: Records, evs: seq<WriterEvent>, last: Fault)
    requires CipherOk(c) && ToTheSecond(m, Loaded(c, t))
    requires NoFaults(c, evs + [Flushed(last)])
    ensures var w := HandleAll(c, Writer(t, map[], [], []), evs + [Flushed(last)]);
            ToTheSecond(ApplyAll(m, OpsOf(evs)), Loaded(c, w.table))
  {
    hide Loaded, Cut, ApplyAll, HandleAll, ToTheSecond, NoFaults, OpsOf, CipherOk;
    CutMeans(m, Loaded(c, t));
    CloseLeavesReference(c, t, m, evs, last);
    var w := HandleAll(c, Writer(t, map[], [], []), evs + [Flushed(last)]);
    CutMeans(ApplyAll(m, OpsOf(evs)), Loaded(c, w.table));
  }

  lemma {:induction false} HandleConcat(c: Cipher, w: Writer, a: seq<WriterEvent>, b: seq<WriterEvent>)
    ensures HandleAll(c, w, a + b) == HandleAll(c, HandleAll(c, w, a), b)
  {
    hide Handle;
    if b == [] {
      assert a + b == a;
    } else {
      HandleConcat(c, w, a, b[..|b| - 1]);
      assert (a + b)[..|a + b| - 1] == a + b[..|b| - 1];
    }
  }

  function Receipts(ops: seq<Op>): seq<WriterEvent> {
    seq(|ops|, i requires 0 <= i < |ops| => Received(ops[i]))
  }

  lemma {:induction false} ReceiveAll(c: Cipher, w: Writer, ops: seq<Op>)
    requires w.batch == map[] && w.pending == []
    ensures HandleAll(c, w, Receipts(ops)) == w.(batch := Coalesced(ops), pending := ops)
  {
    if ops != [] {
      var init := ops[..|ops| - 1];
      ReceiveAll(c, w, init);
      assert Receipts(ops)[..|ops| - 1] == Receipts(init);
      assert init + [ops[|ops| - 1]] == ops;
    }
  }

  /**
   * A flush that fails forgets its batch for good: the store goes on, whatever happens next, as if the
   * operations received since the flush before it had never been made.
   */
  lemma FailedFlushForgets(c: Cipher, w: Writer, ops: seq<Op>, f: Fault, more: seq<WriterEvent>)
    requires w.batch == map[] && w.pending == []
    requires !Survives(c, Coalesced(ops), f)
    ensures HandleAll(c, w, Receipts(ops) + [Flushed(f)] + more) == HandleAll(c, w, more)
  {
    hide Survives, Coalesced;
    ReceiveAll(c, w, ops);
    var all := Receipts(ops) + [Flushed(f)];
    assert all[..|all| - 1] == Receipts(ops) && all[|all| - 1] == Flushed(f);
    HandleConcat(c, w, all, more);
  }
}
