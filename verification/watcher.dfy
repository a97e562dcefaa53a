/** The watcher as the code has it: a mutable map of waiter records, a running flag, and one
    method per critical section. Each method's new state is a `WatcherTable` function of the
    old one, so what is proved of runs over tables holds of this object. */
module Watcher {
  import opened Common
  import opened WatcherTick
  import opened WatcherTable

  // One outstanding wait: an immutable command and a channel with room for one result.
  class PendingCmd {
    const cmd: Cmd
    var slot: Option<WaitResult>
    var closed: bool
    ghost var wid: nat  // acceptance number, given when the watcher accepts it
    ghost var sends: seq<WaitResult>
    ghost var removedBy: Option<nat>

    constructor (cmd: Cmd)
      ensures this.cmd == cmd && slot.None? && !closed && sends == [] && removedBy.None?
    {
      this.cmd := cmd;
      slot, closed := None, false;
      sends, removedBy := [], None;
    }

    ghost function AsCell(): Cell
      reads this
    {
      Cell(cmd, slot, closed, sends, removedBy)
    }

    // A send on a full channel would block for ever with the lock held, and a send on or a
    // close of a closed channel panics: the preconditions rule both out.
    method SendAndClose(r: WaitResult)
      requires slot.None? && !closed
      modifies this`slot, this`closed, this`sends
      ensures slot == Some(r) && closed && sends == old(sends) + [r]
    {
      slot := Some(r);
      sends := sends + [r];
      closed := true;
    }
  }

  function CmdsOf(ps: seq<PendingCmd>): (cs: seq<Cmd>)
    ensures |cs| == |ps| && forall i :: 0 <= i < |ps| ==> cs[i] == ps[i].cmd
  {
    seq(|ps|, i requires 0 <= i < |ps| => ps[i].cmd)
  }

  ghost function WidsOf(ps: seq<PendingCmd>): (ws: seq<nat>)
    reads ps`wid
    ensures |ws| == |ps| && forall i :: 0 <= i < |ps| ==> ws[i] == ps[i].wid
  {
    if ps == [] then [] else WidsOf(ps[..|ps| - 1]) + [ps[|ps| - 1].wid]
  }

  // The same batch under acceptance numbers.
  ghost function Numbered(done: seq<Completion<PendingCmd>>): (ds: seq<Completion<nat>>)
    reads (set c <- done :: c.who)`wid
    ensures |ds| == |done|
    ensures forall i :: 0 <= i < |done| ==> ds[i] == Completion(done[i].who.wid, done[i].result)
  {
    if done == [] then []
    else
      var c := done[|done| - 1];
      Numbered(done[..|done| - 1]) + [Completion(c.who.wid, c.result)]
  }

  // The next step of a delivery loop that walks a snapshot and may skip entries.
  lemma PickStep(t: Table, ws: seq<nat>, outs: seq<Option<WaitResult>>, k: nat)
    requires |ws| == |outs| && k < |ws|
    ensures
      var sofar := DeliverAll(t, Pick(ws[..k], outs[..k]));
      DeliverAll(t, Pick(ws[..k + 1], outs[..k + 1])) ==
        if outs[k].Some? then DeliverOne(sofar, Completion(ws[k], outs[k].value)) else sofar
  {
    var sofar := Pick(ws[..k], outs[..k]);
    assert ws[..k + 1][..k] == ws[..k] && outs[..k + 1][..k] == outs[..k];
    if outs[k].Some? {
      assert (sofar + [Completion(ws[k], outs[k].value)])[..|sofar|] == sofar;
    } else {
      assert sofar + [] == sofar;
    }
  }

  // The tables such a loop goes through.
  lemma PartialTables(t: Table, ws: seq<nat>, outs: seq<Option<WaitResult>>) returns (tables: seq<Table>)
    requires |ws| == |outs|
    ensures |tables| == |ws| + 1 && tables[0] == t && tables[|ws|] == DeliverAll(t, Pick(ws, outs))
    ensures forall k :: 0 <= k < |ws| ==>
              tables[k + 1] ==
              if outs[k].Some? then DeliverOne(tables[k], Completion(ws[k], outs[k].value)) else tables[k]
  {
    tables := seq(|ws| + 1, k requires 0 <= k <= |ws| => DeliverAll(t, Pick(ws[..k], outs[..k])));
    assert ws[..|ws|] == ws && outs[..|ws|] == outs;
    forall k | 0 <= k < |ws|
      ensures tables[k + 1] ==
              if outs[k].Some? then DeliverOne(tables[k], Completion(ws[k], outs[k].value)) else tables[k]
    {
      PickStep(t, ws, outs, k);
    }
  }

  // The values of the pending map, each once, in any order.
  method Enumerate(pending: map<string, PendingCmd>) returns (snap: seq<PendingCmd>)
    requires forall id :: id in pending ==> pending[id].cmd.commandID == id
    ensures forall p :: p in snap <==> p in pending.Values
    ensures forall i, j :: 0 <= i < j < |snap| ==> snap[i] != snap[j]
  {
    snap := [];
    var rest := pending.Keys;
    while rest != {}
      invariant rest <= pending.Keys
      invariant forall p :: p in snap ==> p.cmd.commandID in pending.Keys - rest && pending[p.cmd.commandID] == p
      invariant forall id :: id in pending.Keys - rest ==> pending[id] in snap
      invariant forall i, j :: 0 <= i < j < |snap| ==> snap[i] != snap[j]
      decreases |rest|
    {
      var id :| id in rest;
      snap := snap + [pending[id]];
      rest := rest - {id};
    }
  }

  class CmdWatcher {
    var pending: map<string, PendingCmd>
    var running: bool
    ghost var accepted: seq<PendingCmd>
    ghost var table: Table  // the abstract value of this object, tied to the fields by Linked

    ghost predicate Linked()
      reads this, accepted
    {
      && |accepted| == |table.cells|
      && (forall i :: 0 <= i < |accepted| ==>
            accepted[i].wid == i && accepted[i].AsCell() == table.cells[i])
      && pending.Keys == table.pending.Keys
      && (forall id :: id in pending ==>
            table.pending[id] < |accepted| && accepted[table.pending[id]] == pending[id])
      && running == table.running
    }

    ghost predicate Valid()
      reads this, accepted
    {
      Linked() && TableOk(table)
    }

    constructor ()
      ensures Valid() && table == Table([], map[], false) && accepted == []
    {
      pending, running := map[], false;
      accepted, table := [], Table([], map[], false);
    }

    // The locked part of register. `spawn` tells the caller to start the run goroutine.
    method Register(p: PendingCmd) returns (ok: bool, spawn: bool)
      requires Valid() && p !in accepted && Untouched(p.AsCell())
      modifies this, p`wid
      ensures Valid()
      ensures ok == !Rejected(old(table), p.cmd) && spawn == (ok && !old(running))
      ensures ok <==> p.cmd.commandID != "" && p.cmd.commandID !in old(pending)
      ensures pending == (if ok then old(pending)[p.cmd.commandID := p] else old(pending))
      ensures running == (ok || old(running))
      ensures table == if ok then Accept(old(table), p.cmd) else old(table)
      ensures accepted == if ok then old(accepted) + [p] else old(accepted)
      ensures ok ==> p.wid == |old(accepted)|
    {
      if p.cmd.commandID == "" || p.cmd.commandID in pending {
        return false, false;
      }
      AcceptKeeps(table, p.cmd);
      spawn := AddEntry(p);
      ok := true;
    }

    method AddEntry(p: PendingCmd) returns (spawn: bool)
      requires Linked() && p !in accepted && Untouched(p.AsCell())
      modifies this, p`wid
      ensures Linked() && table == Accept(old(table), p.cmd)
      ensures pending == old(pending)[p.cmd.commandID := p] && running
      ensures spawn == !old(running) && accepted == old(accepted) + [p] && p.wid == |old(accepted)|
    {
      pending := pending[p.cmd.commandID := p];
      p.wid := |accepted|;
      accepted := accepted + [p];
      table := Accept(table, p.cmd);
      spawn := !running;
      running := true;
    }

    // cancel deletes by id alone; it does not look at whose entry that is.
    method Cancel(commandID: string, ghost canceller: nat)
      requires Valid()
      modifies this`pending, this`table, accepted`removedBy
      ensures Valid() && table == CancelId(old(table), commandID, canceller)
      ensures pending == old(pending) - {commandID}
    {
      CancelKeeps(table, commandID, canceller);
      DropEntry(commandID, canceller);
    }

    method DropEntry(commandID: string, ghost canceller: nat)
      requires Linked()
      modifies this`pending, this`table, accepted`removedBy
      ensures Linked() && table == CancelId(old(table), commandID, canceller)
      ensures pending == old(pending) - {commandID}
    {
      if commandID in pending {
        ghost var w := table.pending[commandID];
        assert accepted[w] == pending[commandID];
        ghost var p := accepted[w];
        table := CancelId(table, commandID, canceller);
        pending[commandID].removedBy := Some(canceller);
        assert forall i :: 0 <= i < |accepted| && i != w ==> accepted[i] != p;
        pending := pending - {commandID};
      }
    }

    // The locked snapshot: every pending waiter once, in any order.
    method Snapshot() returns (snap: seq<PendingCmd>)
      requires Valid()
      ensures forall p :: p in snap <==> p in pending.Values
      ensures forall p :: p in snap ==> p in accepted
      ensures forall i, j :: 0 <= i < j < |snap| ==> snap[i] != snap[j]
    {
      forall id | id in pending
        ensures pending[id].cmd.commandID == id
      {
        assert pending[id].AsCell() == table.cells[table.pending[id]];
      }
      snap := Enumerate(pending);
    }

    // The guarded send: only to the waiter that still owns the entry.
    method SendIfCurrent(p: PendingCmd, r: WaitResult)
      requires Linked() && p in accepted
      requires Holds(table, p.wid) ==> Untouched(table.cells[p.wid])
      modifies this`pending, this`table, p`slot, p`closed, p`sends
      ensures Linked() && table == DeliverOne(old(table), Completion(p.wid, r))
    {
      assert p.AsCell() == table.cells[p.wid];
      table := DeliverOne(table, Completion(p.wid, r));
      if p.cmd.commandID in pending && pending[p.cmd.commandID] == p {
        p.SendAndClose(r);
        pending := map id | id in pending && id != p.cmd.commandID :: pending[id];
      }
    }

    method DeliverIfCurrent(p: PendingCmd, r: WaitResult)
      requires Valid() && p in accepted
      modifies this`pending, this`table, p`slot, p`closed, p`sends
      ensures Valid() && table == DeliverOne(old(table), Completion(p.wid, r))
    {
      DeliverOneKeeps(table, Completion(p.wid, r));
      SendIfCurrent(p, r);
    }

    // The locked delivery at the end of a tick.
    method Deliver(done: seq<Completion<PendingCmd>>)
      requires Valid() && forall c :: c in done ==> c.who in accepted
      modifies this`pending, this`table, accepted`slot, accepted`closed, accepted`sends
      ensures Valid() && table == DeliverAll(old(table), Numbered(done))
    {
      hide TableOk, Linked, DeliverOne;
      ghost var ds := Numbered(done);
      for k := 0 to |done|
        invariant Valid() && table == DeliverAll(old(table), ds[..k])
      {
        assert ds[..k + 1][..k] == ds[..k] && done[k] in done;
        DeliverIfCurrent(done[k].who, done[k].result);
      }
      assert ds[..|done|] == ds;
    }

    method ExpireIfOverdue(p: PendingCmd, now: int)
      requires Valid() && p in accepted
      modifies this`pending, this`table, p`slot, p`closed, p`sends
      ensures Valid()
      ensures
        var out := Decide(p.cmd, now, None, None);
        table == if out.Some? then DeliverOne(old(table), Completion(p.wid, out.value)) else old(table)
    {
      hide TableOk, Linked, Valid, DeliverOne;
      if now > p.cmd.deadline {
        DeliverIfCurrent(p, TimedOut(p.cmd));
      }
    }

    // The queue list failed: time out what is overdue, leave the rest.
    method ExpireDeadlines(snap: seq<PendingCmd>, now: int)
      requires Valid() && forall p :: p in snap ==> p in accepted
      modifies this`pending, this`table, accepted`slot, accepted`closed, accepted`sends
      ensures Valid()
      ensures table == DeliverAll(old(table), Resolve(WidsOf(snap), CmdsOf(snap), now, None, None))
    {
      hide TableOk, Linked, DeliverOne, DeliverAll, Decide, Pick, WidsOf, CmdsOf;
      ghost var tables := PartialTables(table, WidsOf(snap), Decisions(CmdsOf(snap), now, None, None));
      for k := 0 to |snap|
        invariant Valid() && table == tables[k]
      {
        assert snap[k] in snap;
        ExpireIfOverdue(snap[k], now);
      }
    }

    // The exit check of run: true means the goroutine returns.
    method ExitCheck() returns (stop: bool)
      requires Valid()
      modifies this`running, this`table
      ensures Valid() && stop == (table.pending == map[])
      ensures (stop <==> old(pending) == map[]) && running == (old(running) && !stop)
      ensures table == old(table).(running := old(running) && !stop)
    {
      stop := |pending| == 0;
      if stop {
        running := false;
      }
      table := table.(running := running);
    }
  }
}
