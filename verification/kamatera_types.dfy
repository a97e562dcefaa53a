/** The Kamatera values the watcher and the client work on. */
module KamateraTypes {
  import opened Common

  datatype Server = Server(id: string, name: string, power: string, datacenter: string)

  const ZERO_SERVER := Server("", "", "", "")

  // A command status is a string; a value outside these constants is "still going".
  const STATUS_COMPLETE := "complete"
  const STATUS_ERROR := "error"
  const STATUS_CANCELLED := "cancelled"

  predicate IsTerminal(status: string) {
    status == STATUS_COMPLETE || status == STATUS_ERROR || status == STATUS_CANCELLED
  }

  predicate IsFailure(status: string) {
    status == STATUS_ERROR || status == STATUS_CANCELLED
  }

  datatype QueueStatus = QueueStatus(id: string, status: string, server: string)

  // The first server of that name: what the client's lookup returns.
  function FirstNamed(servers: seq<Server>, name: string): Option<Server> {
    if servers == [] then None
    else if servers[0].name == name then Some(servers[0])
    else FirstNamed(servers[1..], name)
  }

  // The last server of that name: what the watcher's index returns.
  function LastNamed(servers: seq<Server>, name: string): Option<Server> {
    if servers == [] then None
    else
      var s := servers[|servers| - 1];
      if s.name == name then Some(s) else LastNamed(servers[..|servers| - 1], name)
  }

  // The last queue entry with that id: later entries overwrite earlier ones.
  function LastStatus(queue: seq<QueueStatus>, id: string): Option<QueueStatus> {
    if queue == [] then None
    else
      var q := queue[|queue| - 1];
      if q.id == id then Some(q) else LastStatus(queue[..|queue| - 1], id)
  }

  predicate FirstAt(servers: seq<Server>, name: string, i: nat) {
    i < |servers| && servers[i].name == name && forall j :: 0 <= j < i ==> servers[j].name != name
  }

  predicate LastAt(servers: seq<Server>, name: string, i: nat) {
    i < |servers| && servers[i].name == name && forall j :: i < j < |servers| ==> servers[j].name != name
  }

  lemma {:induction false} FirstNamedIsFirst(servers: seq<Server>, name: string)
    ensures FirstNamed(servers, name).None? <==> forall i :: 0 <= i < |servers| ==> servers[i].name != name
    ensures FirstNamed(servers, name).Some? ==>
              exists i: nat :: FirstAt(servers, name, i) && servers[i] == FirstNamed(servers, name).value
  {
    if servers != [] {
      var rest := servers[1..];
      FirstNamedIsFirst(rest, name);
      assert forall i :: 0 < i < |servers| ==> servers[i] == rest[i - 1];
      if servers[0].name == name {
        assert FirstAt(servers, name, 0);
      } else if FirstNamed(rest, name).Some? {
        var i: nat :| FirstAt(rest, name, i) && rest[i] == FirstNamed(rest, name).value;
        assert FirstAt(servers, name, i + 1);
      }
    }
  }

  lemma {:induction false} LastNamedIsLast(servers: seq<Server>, name: string)
    ensures LastNamed(servers, name).None? <==> forall i :: 0 <= i < |servers| ==> servers[i].name != name
    ensures LastNamed(servers, name).Some? ==>
              exists i: nat :: LastAt(servers, name, i) && servers[i] == LastNamed(servers, name).value
  {
    if servers != [] {
      var n := |servers| - 1;
      var init := servers[..n];
      LastNamedIsLast(init, name);
      assert forall i :: 0 <= i < n ==> servers[i] == init[i];
      if servers[n].name == name {
        assert LastAt(servers, name, n);
      } else if LastNamed(init, name).Some? {
        var i: nat :| LastAt(init, name, i) && init[i] == LastNamed(init, name).value;
        assert LastAt(servers, name, i);
      }
    }
  }

  // The watcher's index and the client's scan agree on which names exist, and on the server
  // itself exactly when the first and the last entry of that name are the same server.
  lemma IndexAgreesWithScan(servers: seq<Server>, name: string)
    ensures FirstNamed(servers, name).Some? <==> LastNamed(servers, name).Some?
    ensures forall i: nat, k: nat :: FirstAt(servers, name, i) && LastAt(servers, name, k) ==>
              (FirstNamed(servers, name) == LastNamed(servers, name) <==> servers[i] == servers[k])
    ensures (forall i, j :: 0 <= i < j < |servers| ==> servers[i].name != servers[j].name)
              ==> FirstNamed(servers, name) == LastNamed(servers, name)
  {
    FirstNamedIsFirst(servers, name);
    LastNamedIsLast(servers, name);
  }

  // Two servers of one name: the scan reports the first and the index the last.
  lemma IndexDiffersOnDuplicates(a: Server, b: Server)
    requires a.name == b.name && a != b
    ensures FirstNamed([a, b], a.name) == Some(a) && LastNamed([a, b], a.name) == Some(b)
  { }
}
