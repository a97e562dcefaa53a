/** The lock-protected state of the watcher, and what each critical section does to it.
    A waiter's identity is its acceptance number; its command id is only a map key. */
module WatcherTable {
  import opened Common
  import opened KamateraTypes
  import opened WatcherTick

  // One accepted waiter: its command and its one-slot channel. `sends` and `removedBy` are
  // history: what was ever sent to it, and whose cancel call deleted its map entry.
  datatype Cell = Cell(cmd: Cmd, slot: Option<WaitResult>, closed: bool,
                       sends: seq<WaitResult>, removedBy: Option<nat>)

  datatype Table = Table(cells: seq<Cell>, pending: map<string, nat>, running: bool)

  predicate Holds(t: Table, w: nat) {
    w < |t.cells| && t.cells[w].cmd.commandID in t.pending && t.pending[t.cells[w].cmd.commandID] == w
  }

  predicate Untouched(c: Cell) {
    c.slot.None? && !c.closed && c.sends == [] && c.removedBy.None?
  }

  predicate Resolved(c: Cell) {
    c.closed && |c.sends| == 1 && c.removedBy.None? && (c.slot.None? || c.slot == Some(c.sends[0]))
  }

  predicate Removed(c: Cell) {
    c.slot.None? && !c.closed && c.sends == [] && c.removedBy.Some?
  }

  // Every map entry leads to a live waiter of that id with an empty, open channel; every
  // other waiter was resolved exactly once or removed by a cancel.
  ghost predicate TableOk(t: Table) {
    && (forall id :: id in t.pending ==>
          (id != "" && t.pending[id] < |t.cells| && t.cells[t.pending[id]].cmd.commandID == id))
    && (forall w: nat :: Holds(t, w) ==> Untouched(t.cells[w]))
    && (forall w: nat :: w < |t.cells| && !Holds(t, w) ==> Resolved(t.cells[w]) || Removed(t.cells[w]))
  }

  predicate Rejected(t: Table, cmd: Cmd) {
    cmd.commandID == "" || cmd.commandID in t.pending
  }

  function Accept(t: Table, cmd: Cmd): Table {
    Table(t.cells + [Cell(cmd, None, false, [], None)], t.pending[cmd.commandID := |t.cells|], true)
  }

  // The cancel call of waiter `canceller`, which deletes whatever entry its id has.
  function CancelId(t: Table, id: string, canceller: nat): Table {
    if id !in t.pending then t
    else
      var w := t.pending[id];
      var cells := if w < |t.cells| then t.cells[w := t.cells[w].(removedBy := Some(canceller))] else t.cells;
      Table(cells, map k | k in t.pending && k != id :: t.pending[k], t.running)
  }

  // Deliver to waiter `c.who` if it still owns its map entry.
  function DeliverOne(t: Table, c: Completion<nat>): (u: Table)
    ensures |u.cells| == |t.cells|
  {
    if !Holds(t, c.who) then t
    else
      var cell := t.cells[c.who];
      Table(t.cells[c.who := cell.(slot := Some(c.result), closed := true, sends := cell.sends + [c.result])],
            map k | k in t.pending && k != cell.cmd.commandID :: t.pending[k], t.running)
  }

  function DeliverAll(t: Table, done: seq<Completion<nat>>): (u: Table)
    ensures |u.cells| == |t.cells|
  {
    if done == [] then t
    else DeliverOne(DeliverAll(t, done[..|done| - 1]), done[|done| - 1])
  }

  // The receiver empties the slot of its own channel.
  function Take(t: Table, w: nat): Table
    requires w < |t.cells|
  {
    t.(cells := t.cells[w := t.cells[w].(slot := None)])
  }

  // Every send of the batch finds an empty, open channel: none blocks while the lock is
  // held, none panics on a closed channel.
  ghost predicate SafeSends(t: Table, done: seq<Completion<nat>>) {
    forall k :: 0 <= k < |done| && Holds(DeliverAll(t, done[..k]), done[k].who) ==>
      Untouched(DeliverAll(t, done[..k]).cells[done[k].who])
  }

  lemma AcceptKeeps(t: Table, cmd: Cmd)
    requires TableOk(t) && !Rejected(t, cmd)
    ensures TableOk(Accept(t, cmd))
    ensures Holds(Accept(t, cmd), |t.cells|)
    ensures forall w: nat :: w < |t.cells| ==> Holds(Accept(t, cmd), w) == Holds(t, w)
  { }

  lemma CancelKeeps(t: Table, id: string, canceller: nat)
    requires TableOk(t)
    ensures TableOk(CancelId(t, id, canceller))
    ensures forall w: nat :: Holds(CancelId(t, id, canceller), w) <==> Holds(t, w) && t.cells[w].cmd.commandID != id
  { }

  lemma DeliverOneKeeps(t: Table, c: Completion<nat>)
    requires TableOk(t)
    ensures TableOk(DeliverOne(t, c))
    ensures forall w: nat :: Holds(DeliverOne(t, c), w) <==> Holds(t, w) && w != c.who
  { }

  lemma {:induction false} DeliverAllKeeps(t: Table, done: seq<Completion<nat>>)
    requires TableOk(t)
    ensures TableOk(DeliverAll(t, done)) && DeliverAll(t, done).running == t.running
    ensures forall w: nat :: Holds(DeliverAll(t, done), w) <==>
              Holds(t, w) && forall c :: c in done ==> c.who != w
  {
    if done != [] {
      var n := |done| - 1;
      DeliverAllKeeps(t, done[..n]);
      DeliverOneKeeps(DeliverAll(t, done[..n]), done[n]);
      assert forall c :: c in done <==> c in done[..n] || c == done[n];
    }
  }

  // A waiter that does not own its entry, or that the batch does not name, is not touched.
  lemma {:induction false} DeliverAllFrame(t: Table, done: seq<Completion<nat>>, w: nat)
    requires w < |t.cells|
    requires !Holds(t, w) || forall c :: c in done ==> c.who != w
    ensures DeliverAll(t, done).cells[w] == t.cells[w]
    ensures Holds(DeliverAll(t, done), w) ==> Holds(t, w)
  {
    if done != [] {
      var n := |done| - 1;
      assert forall c :: c in done[..n] ==> c in done;
      assert done[n] in done;
      DeliverAllFrame(t, done[..n], w);
    }
  }

  lemma {:induction false} DeliverKeepsCommands(t: Table, done: seq<Completion<nat>>, w: nat)
    requires w < |t.cells|
    ensures DeliverAll(t, done).cells[w].cmd == t.cells[w].cmd
  {
    if done != [] {
      DeliverKeepsCommands(t, done[..|done| - 1], w);
    }
  }

  // Channel safety of a delivery, whatever the batch: also one naming stale waiters, or
  // naming the same waiter twice.
  lemma DeliveryIsSafe(t: Table, done: seq<Completion<nat>>)
    requires TableOk(t)
    ensures SafeSends(t, done)
  {
    forall k | 0 <= k < |done|
      ensures TableOk(DeliverAll(t, done[..k]))
    {
      DeliverAllKeeps(t, done[..k]);
    }
  }

  // If the batch gives one waiter one possible result, delivery hands it exactly that.
  lemma {:induction false} DeliverTo(t: Table, done: seq<Completion<nat>>, w: nat, r: WaitResult)
    requires TableOk(t) && Holds(t, w)
    requires Completion(w, r) in done
    requires forall c :: c in done && c.who == w ==> c.result == r
    ensures DeliverAll(t, done).cells[w] == t.cells[w].(slot := Some(r), closed := true, sends := [r])
    ensures !Holds(DeliverAll(t, done), w)
  {
    var n := |done| - 1;
    var u := DeliverAll(t, done[..n]);
    if Completion(w, r) in done[..n] {
      DeliverTo(t, done[..n], w, r);
    } else {
      assert done[n] == Completion(w, r);
      assert forall c :: c in done[..n] ==> c in done;
      DeliverAllFrame(t, done[..n], w);
      DeliverAllKeeps(t, done[..n]);
    }
  }

  // THE BATCHED TICK REFINES THE ONE-WAITER DECISION. Whatever happened to the table since
  // the snapshot, delivering the batch gives every waiter that still owns its entry exactly
  // its own `Decide` outcome, and touches no other waiter.
  lemma BatchRefinesDecide(t: Table, snap: seq<nat>, cmds: seq<Cmd>, now: int,
      queue: Option<seq<QueueStatus>>, servers: Option<seq<Server>>, w: nat)
    requires TableOk(t) && |snap| == |cmds| && w < |t.cells|
    requires forall i :: 0 <= i < |snap| ==> snap[i] < |t.cells| && cmds[i] == t.cells[snap[i]].cmd
    ensures
      var u := DeliverAll(t, Resolve(snap, cmds, now, queue, servers));
      var d := Decide(t.cells[w].cmd, now, queue, servers);
      if w in snap && Holds(t, w) && d.Some? then
        (!Holds(u, w) && u.cells[w] == t.cells[w].(slot := d, closed := true, sends := [d.value]))
      else
        (u.cells[w] == t.cells[w] && Holds(u, w) == Holds(t, w))
  {
    var done := Resolve(snap, cmds, now, queue, servers);
    var d := Decide(t.cells[w].cmd, now, queue, servers);
    forall c | c in done
      ensures c.who in snap && (c.who == w ==> d == Some(c.result))
    {
      ResolveMembers(snap, cmds, now, queue, servers, c);
    }
    if w in snap && Holds(t, w) && d.Some? {
      var i :| 0 <= i < |snap| && snap[i] == w;
      assert Decide(cmds[i], now, queue, servers) == d;
      ResolveMembers(snap, cmds, now, queue, servers, Completion(w, d.value));
      DeliverTo(t, done, w, d.value);
    } else {
      DeliverAllFrame(t, done, w);
      DeliverAllKeeps(t, done);
    }
  }
}
