/** The timer service and the topic table, as the objects the handlers share and own: a list of
    running timers changed by indexed loops, and a table of topic ids searched in its own order.
    Each method is proved to do what the functions on the list and the table say. */
module GatewayTables {
  import opened Common
  import opened GatewayMessages

  lemma DropOne(tasks: seq<Task>, i: nat)
    requires i < |tasks|
    ensures multiset(tasks[..i] + tasks[i + 1..]) + multiset{tasks[i]} == multiset(tasks)
  {
    assert tasks == tasks[..i] + [tasks[i]] + tasks[i + 1..];
  }

  lemma {:induction false} RemoveFirstAt(tasks: seq<Task>, t: Task, i: nat)
    requires i <= |tasks| && t !in tasks[..i] && (i < |tasks| ==> tasks[i] == t)
    ensures RemoveFirst(tasks, t) == if i == |tasks| then tasks else tasks[..i] + tasks[i + 1..]
  {
    if i > 0 {
      assert t !in tasks[1..][..i - 1];
      RemoveFirstAt(tasks[1..], t, i - 1);
    }
  }

  lemma RemoveAllFrom(tasks: seq<Task>, a: ClientAddress, i: nat)
    requires i < |tasks|
    ensures RemoveAll(tasks[i..], a)
            == (if tasks[i].address == a then [] else [tasks[i]]) + RemoveAll(tasks[i + 1..], a)
  {
    assert tasks[i..][1..] == tasks[i + 1..];
  }

  /** One turn of the loop that removes an address's tasks from the back. */
  lemma RemoveAllStep(all: seq<Task>, tasks: seq<Task>, a: ClientAddress, i: nat)
    requires i < |all| && tasks == all[..i + 1] + RemoveAll(all[i + 1..], a)
    ensures tasks[i] == all[i]
    ensures (if all[i].address == a then tasks[..i] + tasks[i + 1..] else tasks) == all[..i] + RemoveAll(all[i..], a)
  {
    RemoveAllFrom(all, a, i);
    assert tasks[i + 1..] == RemoveAll(all[i + 1..], a) && tasks[..i] == all[..i];
  }

  class TimerService {
    var timeoutTasks: seq<Task>

    constructor ()
      ensures timeoutTasks == []
    {
      timeoutTasks := [];
    }

    method Register(address: ClientAddress, kind: TimeoutType)
      modifies this
      ensures timeoutTasks == old(timeoutTasks) + [Task(address, kind)]
    {
      timeoutTasks := timeoutTasks + [Task(address, kind)];
    }

    /** Takes out and cancels the first task of the address and type, if there is one. */
    method Unregister(address: ClientAddress, kind: TimeoutType) returns (cancelled: seq<Task>)
      modifies this
      ensures timeoutTasks == RemoveFirst(old(timeoutTasks), Task(address, kind))
      ensures cancelled == if Task(address, kind) in old(timeoutTasks) then [Task(address, kind)] else []
    {
      cancelled := [];
      var i := 0;
      while i < |timeoutTasks|
        invariant 0 <= i <= |timeoutTasks| && timeoutTasks == old(timeoutTasks) && cancelled == []
        invariant Task(address, kind) !in timeoutTasks[..i]
      {
        var timeout := timeoutTasks[i];
        if timeout.address == address {
          if timeout.kind == kind {
            RemoveFirstAt(timeoutTasks, timeout, i);
            timeoutTasks := timeoutTasks[..i] + timeoutTasks[i + 1..];
            cancelled := [timeout];
            return;
          }
        }
        i := i + 1;
      }
      RemoveFirstAt(timeoutTasks, Task(address, kind), i);
    }

    /** Takes out and cancels every task of the address, from the back. */
    method UnregisterAddress(address: ClientAddress) returns (cancelled: seq<Task>)
      modifies this
      ensures timeoutTasks == RemoveAll(old(timeoutTasks), address)
      ensures multiset(timeoutTasks) + multiset(cancelled) == multiset(old(timeoutTasks))
    {
      ghost var all := timeoutTasks;
      cancelled := [];
      var i := |timeoutTasks| - 1;
      assert all[|all|..] == [];
      while i >= 0
        invariant -1 <= i < |all|
        invariant timeoutTasks == all[..i + 1] + RemoveAll(all[i + 1..], address)
        invariant multiset(timeoutTasks) + multiset(cancelled) == multiset(all)
      {
        var timeout := timeoutTasks[i];
        DropOne(timeoutTasks, i);
        RemoveAllStep(all, timeoutTasks, address, i);
        if timeout.address == address {
          timeoutTasks := timeoutTasks[..i] + timeoutTasks[i + 1..];
          cancelled := cancelled + [timeout];
        }
        i := i - 1;
      }
      assert all[..0] == [] && all[0..] == all;
    }
  }

  class TopicMappingTable {
    var topicIdTable: map<int, string>

    constructor ()
      ensures topicIdTable == map[]
    {
      topicIdTable := map[];
    }

    method Initialize(predefined: map<int, string>, order: seq<int>)
      requires Enumerates(order, predefined)
      modifies this
      ensures topicIdTable == old(topicIdTable) + predefined
    {
      var i := 0;
      ghost var before := topicIdTable;
      while i < |order|
        invariant 0 <= i <= |order|
        invariant forall id :: id in topicIdTable <==> id in before || id in order[..i]
        invariant forall id :: id in topicIdTable ==>
                    topicIdTable[id] == if id in order[..i] then predefined[id] else before[id]
      {
        assert order[..i + 1] == order[..i] + [order[i]];
        topicIdTable := topicIdTable[order[i] := predefined[order[i]]];
        i := i + 1;
      }
      assert order[..|order|] == order;
      forall id | id in order ensures id in predefined {
        var j :| 0 <= j < |order| && order[j] == id;
      }
      assert forall id :: id in predefined <==> id in order;
      assert forall id :: id in topicIdTable <==> id in before + predefined;
      assert forall id :: id in topicIdTable ==> topicIdTable[id] == (before + predefined)[id];
    }

    method AssignTopicId(topicId: int, topicName: string)
      modifies this
      ensures topicIdTable == old(topicIdTable)[topicId := topicName]
    {
      topicIdTable := topicIdTable[topicId := topicName];
    }

    method TopicName(topicId: int) returns (topicName: Option<string>)
      ensures topicName == if topicId in topicIdTable then Some(topicIdTable[topicId]) else None
    {
      topicName := if topicId in topicIdTable then Some(topicIdTable[topicId]) else None;
    }

    method TopicId(topicName: string, order: seq<int>) returns (topicId: int)
      requires Enumerates(order, topicIdTable)
      ensures topicId == GetTopicId(topicIdTable, order, topicName)
    {
      topicId := 0;
      var i := 0;
      while i < |order|
        invariant 0 <= i <= |order| && topicId == 0
        invariant GetTopicId(topicIdTable, order, topicName) == GetTopicId(topicIdTable, order[i..], topicName)
      {
        if topicIdTable[order[i]] == topicName {
          topicId := order[i];
          break;
        }
        i := i + 1;
      }
    }

    method RemoveTopicId(topicId: int)
      modifies this
      ensures topicIdTable == old(topicIdTable) - {topicId}
    {
      topicIdTable := topicIdTable - {topicId};
    }

    method RemoveTopicName(topicName: string, order: seq<int>, predefSize: nat)
      requires Enumerates(order, topicIdTable)
      modifies this
      ensures topicIdTable == RemoveByName(old(topicIdTable), order, topicName, predefSize)
    {
      ghost var table := topicIdTable;
      var i := 0;
      while i < |order|
        invariant 0 <= i <= |order| && topicIdTable == table
        invariant RemoveByName(table, order, topicName, predefSize)
                  == RemoveByName(table, order[i..], topicName, predefSize)
      {
        if topicIdTable[order[i]] == topicName && order[i] > predefSize {
          topicIdTable := topicIdTable - {order[i]};
          break;
        }
        i := i + 1;
      }
    }
  }
}
