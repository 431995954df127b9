/** The acceptor: engaging announced tunnels, and removing what they leave behind. */
module Listener {
  import opened Options

  /** An accept goroutine hands over to the goroutine that waits for its pipe to end, which removes, then forgets. */
  datatype Stage = Accepting | Live | Removing | Gone

  datatype Worker = Worker(id: string, stage: Stage)

  /**
   * `seen` are the conn-ids engaged; `inbox` the arrival markers and `trees` the work subtrees, each with the
   * time of its last activity; `workers` every goroutine started, the finished ones included.
   */
  datatype Acceptor = Acceptor(seen: set<string>, inbox: map<string, int>, trees: map<string, int>,
                               workers: seq<Worker>)

  function Without(m: map<string, int>, id: string): map<string, int> {
    map k | k in m && k != id :: m[k]
  }

  function Engage(a: Acceptor, id: string): Acceptor {
    a.(seen := a.seen + {id}, workers := a.workers + [Worker(id, Accepting)])
  }

  /** One inbox entry: drop the marker of a known tunnel, engage a new one whose SYN is visible, leave the rest. */
  function ScanEntry(a: Acceptor, id: string, synVisible: bool): Acceptor {
    if id in a.seen then a.(inbox := Without(a.inbox, id))
    else if !synVisible then a
    else Engage(a.(inbox := Without(a.inbox, id)), id)
  }

  function StartupEntry(a: Acceptor, id: string, synVisible: bool): Acceptor {
    if !synVisible || id in a.seen then a else Engage(a, id)
  }

  function SweepMarker(a: Acceptor, id: string, cutoff: int): Acceptor {
    if id !in a.seen && id in a.inbox && a.inbox[id] < cutoff then a.(inbox := Without(a.inbox, id)) else a
  }

  function SweepTree(a: Acceptor, id: string, cutoff: int): Acceptor {
    if id !in a.seen && id in a.trees && a.trees[id] <= cutoff then a.(trees := Without(a.trees, id)) else a
  }

  function SetStage(a: Acceptor, g: nat, stage: Stage): Acceptor
    requires g < |a.workers|
  {
    a.(workers := a.workers[g := a.workers[g].(stage := stage)])
  }

  function Forget(a: Acceptor, id: string): Acceptor {
    a.(seen := a.seen - {id})
  }

  datatype Event =
    | Announce(id: string, at: int)
    | Touch(id: string, at: int)
    | Scan(id: string, synVisible: bool)
    | Startup(id: string, synVisible: bool)
    | OldMarker(id: string, cutoff: int)
    | OldTree(id: string, cutoff: int)
    | AcceptFails(g: nat)
    | Accepted(g: nat)
    | PipeEnds(g: nat)
    | Forgotten(g: nat)
    | DialFails(id: string)

  predicate Enabled(a: Acceptor, ev: Event) {
    match ev
    case AcceptFails(g) => g < |a.workers| && a.workers[g].stage.Accepting?
    case Accepted(g) => g < |a.workers| && a.workers[g].stage.Accepting?
    case PipeEnds(g) => g < |a.workers| && a.workers[g].stage.Live?
    case Forgotten(g) => g < |a.workers| && a.workers[g].stage.Removing?
    case _ => true
  }

  function Do(a: Acceptor, ev: Event): Acceptor
    requires Enabled(a, ev)
  {
    match ev
    case Announce(id, at) => a.(inbox := a.inbox[id := at])
    case Touch(id, at) => a.(trees := a.trees[id := at])
    case Scan(id, v) => ScanEntry(a, id, v)
    case Startup(id, v) => StartupEntry(a, id, v)
    case OldMarker(id, cutoff) => SweepMarker(a, id, cutoff)
    case OldTree(id, cutoff) => SweepTree(a, id, cutoff)
    case AcceptFails(g) => Forget(SetStage(a, g, Gone), a.workers[g].id)
    case Accepted(g) => SetStage(a, g, Live)
    case PipeEnds(g) =>
      var id := a.workers[g].id;
      SetStage(a, g, Removing).(trees := Without(a.trees, id), inbox := Without(a.inbox, id))
    case Forgotten(g) => Forget(SetStage(a, g, Gone), a.workers[g].id)
    case DialFails(id) => a.(trees := Without(a.trees, id), inbox := Without(a.inbox, id))
  }

  function Run(a: Acceptor, evs: seq<Event>): Option<Acceptor>
    decreases |evs|
  {
    if evs == [] then Some(a) else
    if Enabled(a, evs[0]) then Run(Do(a, evs[0]), evs[1..]) else None
  }

  // ---------- one worker per conn-id ----------

  predicate Working(a: Acceptor, g: int) {
    0 <= g < |a.workers| && !a.workers[g].stage.Gone?
  }

  /** The engaged ids are exactly those of the goroutines at work, and no two of these share an id. */
  ghost predicate Inv(a: Acceptor) {
    && (forall g :: Working(a, g) ==> a.workers[g].id in a.seen)
    && (forall g, k :: Working(a, g) && Working(a, k) && a.workers[g].id == a.workers[k].id ==> g == k)
    && (forall id :: id in a.seen ==> exists g :: Working(a, g) && a.workers[g].id == id)
  }

  lemma EngageKeeps(a: Acceptor, id: string)
    requires Inv(a) && id !in a.seen
    ensures Inv(Engage(a, id))
  {
    var b := Engage(a, id);
    forall x | x in b.seen
      ensures exists g :: Working(b, g) && b.workers[g].id == x
    {
      if x == id {
        assert Working(b, |a.workers|);
      } else {
        var g :| Working(a, g) && a.workers[g].id == x;
        assert Working(b, g);
      }
    }
    assert forall g :: Working(b, g) && g < |a.workers| ==> Working(a, g);
  }

  lemma StageKeeps(a: Acceptor, g: nat, stage: Stage)
    requires Inv(a) && Working(a, g) && !stage.Gone?
    ensures Inv(SetStage(a, g, stage))
  {
    var b := SetStage(a, g, stage);
    assert forall k :: Working(b, k) <==> Working(a, k);
    assert forall k :: Working(a, k) ==> b.workers[k].id == a.workers[k].id;
  }

  lemma LeavingKeeps(a: Acceptor, g: nat)
    requires Inv(a) && Working(a, g)
    ensures Inv(Forget(SetStage(a, g, Gone), a.workers[g].id))
  {
    var id := a.workers[g].id;
    var b := Forget(SetStage(a, g, Gone), id);
    assert forall k :: Working(b, k) <==> Working(a, k) && k != g;
    forall x | x in b.seen
      ensures exists k :: Working(b, k) && b.workers[k].id == x
    {
      var k :| Working(a, k) && a.workers[k].id == x;
      assert Working(b, k);
    }
  }

  lemma SameWorkers(a: Acceptor, b: Acceptor)
    requires Inv(a) && b.seen == a.seen && b.workers == a.workers
    ensures Inv(b)
  {
    assert forall g :: Working(b, g) <==> Working(a, g);
  }

  lemma DoKeeps(a: Acceptor, ev: Event)
    requires Inv(a) && Enabled(a, ev)
    ensures Inv(Do(a, ev))
  {
    hide Inv;
    match ev
    case AcceptFails(g) => LeavingKeeps(a, g);
    case Accepted(g) => StageKeeps(a, g, Live);
    case PipeEnds(g) =>
      StageKeeps(a, g, Removing);
      SameWorkers(SetStage(a, g, Removing), Do(a, ev));
    case Forgotten(g) => LeavingKeeps(a, g);
    case Scan(id, v) =>
      var b := a.(inbox := Without(a.inbox, id));
      SameWorkers(a, b);
      if id !in a.seen && v {
        EngageKeeps(b, id);
      }
    case Startup(id, v) =>
      if id !in a.seen && v {
        EngageKeeps(a, id);
      }
    case _ => SameWorkers(a, Do(a, ev));
  }

  const IDLE := Acceptor({}, map[], map[], [])

  /** At most one accept in progress or live pipe per conn-id, after every run. */
  lemma OneWorkerPerId(evs: seq<Event>, a: Acceptor)
    requires Run(IDLE, evs) == Some(a)
    ensures forall g, k :: Working(a, g) && Working(a, k) && a.workers[g].id == a.workers[k].id ==> g == k
    ensures forall id :: id in a.seen <==> exists g :: Working(a, g) && a.workers[g].id == id
  {
    hide Run;
    RunKeeps(IDLE, evs, a) by { assert Inv(IDLE); }
  }

  lemma {:induction false} RunKeeps(a: Acceptor, evs: seq<Event>, b: Acceptor)
    requires Inv(a) && Run(a, evs) == Some(b)
    ensures Inv(b)
    decreases |evs|
  {
    hide Inv, Do;
    if evs != [] {
      DoKeeps(a, evs[0]);
      RunKeeps(Do(a, evs[0]), evs[1..], b);
    }
  }

  /**
   * In every run a subtree disappears exactly when the goroutine engaged for it sees its pipe end, when a
   * sweep finds it unengaged and last active no later than the cutoff, or when its initiator cleans up after a
   * failed dial. No engaged tunnel is ever swept.
   */
  lemma RemovedOnlyWhenOver(evs: seq<Event>, a: Acceptor, ev: Event, id: string)
    requires Run(IDLE, evs) == Some(a) && Enabled(a, ev) && id in a.trees
    ensures id !in Do(a, ev).trees <==>
            || (ev.PipeEnds? && a.workers[ev.g].id == id)
            || (ev.OldTree? && ev.id == id && a.trees[id] <= ev.cutoff
                && forall g :: Working(a, g) ==> a.workers[g].id != id)
            || (ev.DialFails? && ev.id == id)
  {
    hide Run;
    RunKeeps(IDLE, evs, a) by { assert Inv(IDLE); }
  }

  /**
   * In every run a tunnel is engaged exactly by a scan or the start-up pass that sees its SYN, with one new
   * accept, and let go exactly when that accept fails or its goroutine is through with the removal.
   */
  lemma EngagedIff(evs: seq<Event>, a: Acceptor, ev: Event, id: string)
    requires Run(IDLE, evs) == Some(a) && Enabled(a, ev)
    ensures !Busy(a, id) ==> (Busy(Do(a, ev), id) <==> ev == Scan(id, true) || ev == Startup(id, true))
    ensures !Busy(a, id) && Busy(Do(a, ev), id) ==> Do(a, ev).workers == a.workers + [Worker(id, Accepting)]
    ensures Busy(a, id) ==>
              (!Busy(Do(a, ev), id) <==> (ev.AcceptFails? || ev.Forgotten?) && a.workers[ev.g].id == id)
  {
    hide Run;
    RunKeeps(IDLE, evs, a) by { assert Inv(IDLE); }
    DoKeeps(a, ev);
    BusyIsSeen(a, id);
    BusyIsSeen(Do(a, ev), id);
    hide Inv, Busy;
  }

  /** Some goroutine is at work on the conn-id. */
  ghost predicate Busy(a: Acceptor, id: string) {
    exists g :: Working(a, g) && a.workers[g].id == id
  }

  lemma BusyIsSeen(a: Acceptor, id: string)
    requires Inv(a)
    ensures Busy(a, id) <==> id in a.seen
  {
  }

  /**
   * In every run a marker disappears exactly when a scan finds its tunnel engaged or its SYN visible, when a
   * sweep finds it unengaged and older than the cutoff, when its pipe ends, or after a failed dial.
   */
  lemma MarkerGoneIff(evs: seq<Event>, a: Acceptor, ev: Event, id: string)
    requires Run(IDLE, evs) == Some(a) && Enabled(a, ev) && id in a.inbox
    ensures id !in Do(a, ev).inbox <==>
            || (ev.Scan? && ev.id == id && (ev.synVisible || Busy(a, id)))
            || (ev.OldMarker? && ev.id == id && a.inbox[id] < ev.cutoff && !Busy(a, id))
            || (ev.PipeEnds? && a.workers[ev.g].id == id)
            || (ev.DialFails? && ev.id == id)
  {
    hide Run;
    RunKeeps(IDLE, evs, a) by { assert Inv(IDLE); }
    BusyIsSeen(a, id);
    hide Inv, Busy;
  }

  // ---------- the listener as the object the source updates in place ----------

  class Watcher {
    var seen: set<string>
    var inbox: map<string, int>
    var trees: map<string, int>
    var workers: seq<Worker>

    ghost function State(): Acceptor
      reads this
    {
      Acceptor(seen, inbox, trees, workers)
    }

    constructor ()
      ensures State() == IDLE
    {
      seen, inbox, trees, workers := {}, map[], map[], [];
    }

    /**
     * Reads the inbox once: every marker whose SYN segment is visible, or whose tunnel is known, is gone
     * afterwards and its tunnel engaged; the other markers stay for a later scan.
     */
    method ScanInbox(visible: set<string>)
      requires Inv(State())
      modifies this
      ensures Inv(State()) && trees == old(trees) && old(workers) <= workers
      ensures forall id :: id in seen <==> id in old(seen) || (id in old(inbox) && id in visible)
      ensures forall id :: id in inbox <==> id in old(inbox) && id !in visible && id !in old(seen)
    {
      hide Inv;
      var todo := inbox.Keys;
      while todo != {}
        invariant Inv(State()) && trees == old(trees) && old(workers) <= workers && todo <= old(inbox).Keys
        invariant forall id :: id in seen <==> id in old(seen) || (id in old(inbox) && id !in todo && id in visible)
        invariant forall id :: id in inbox <==> id in old(inbox) && (id in todo || (id !in visible && id !in old(seen)))
        decreases |todo|
      {
        var id :| id in todo;
        ghost var before := State();
        DoKeeps(before, Scan(id, id in visible));
        if id in seen {
          inbox := Without(inbox, id);
        } else if id in visible {
          seen := seen + {id};
          inbox := Without(inbox, id);
          workers := workers + [Worker(id, Accepting)];
        }
        assert State() == ScanEntry(before, id, id in visible);
        todo := todo - {id};
      }
    }

    /** Sweeps once: unengaged markers older than the cutoff and unengaged subtrees not active after it. */
    method AgeSweep(cutoff: int)
      requires Inv(State())
      modifies this
      ensures Inv(State()) && seen == old(seen) && workers == old(workers)
      ensures forall id :: id in inbox <==> id in old(inbox) && (id in seen || old(inbox)[id] >= cutoff)
      ensures forall id :: id in trees <==> id in old(trees) && (id in seen || old(trees)[id] > cutoff)
      ensures forall id :: id in inbox ==> inbox[id] == old(inbox)[id]
      ensures forall id :: id in trees ==> trees[id] == old(trees)[id]
    {
      hide Inv;
      inbox := DropOld(inbox, seen, cutoff - 1);
      trees := DropOld(trees, seen, cutoff);
      SameWorkers(old(State()), State());
    }
  }

  /** Drops the unengaged entries last active no later than `last`. */
  method DropOld(m: map<string, int>, engaged: set<string>, last: int) returns (left: map<string, int>)
    ensures forall id :: id in left <==> id in m && (id in engaged || m[id] > last)
    ensures forall id :: id in left ==> left[id] == m[id]
  {
    left := m;
    var todo := m.Keys;
    while todo != {}
      invariant todo <= m.Keys
      invariant forall id :: id in left <==> id in m && (id in todo || id in engaged || m[id] > last)
      invariant forall id :: id in left ==> left[id] == m[id]
      decreases |todo|
    {
      var id :| id in todo;
      if id !in engaged && m[id] <= last {
        left := Without(left, id);
      }
      todo := todo - {id};
    }
  }
}
