/** The client's topic list: a linked list through a pointer to a pointer, and the map it stands for. */
module TopicList {
  import opened Common

  const MAX_TOPIC_LENGTH := 249

  datatype Entry = Entry(topicId: int, topicName: string)

  /** strncpy into the entry: at most the buffer's length. */
  function Cut(name: string): string {
    if |name| <= MAX_TOPIC_LENGTH then name else name[..MAX_TOPIC_LENGTH]
  }

  predicate Accepted(id: int, name: Option<string>) {
    id != 0x0000 && id != 0xFFFF && name.Some? && name.value != []
  }

  // ----- the list as a sequence of entries

  /** Where the first entry with the id is; the length if there is none. */
  function Find(es: seq<Entry>, id: int): (k: nat)
    ensures k <= |es|
    ensures forall j :: 0 <= j < k ==> es[j].topicId != id
    ensures k < |es| ==> es[k].topicId == id
  {
    if es == [] || es[0].topicId == id then 0 else Find(es[1..], id) + 1
  }

  /** Registering: the first entry with the id takes the name, or a new one goes to the end; the
      id is stored in 16 bits. */
  function Put(es: seq<Entry>, id: int, name: Option<string>): seq<Entry> {
    if !Accepted(id, name) then es
    else
      var k, e := Find(es, id), Entry(id % 0x10000, Cut(name.value));
      if k < |es| then es[k := e] else es + [e]
  }

  function Lookup(es: seq<Entry>, id: int): Option<string> {
    var k := Find(es, id);
    if k < |es| then Some(es[k].topicName) else None
  }

  // ----- the map it refines

  datatype Op = Op(id: int, name: Option<string>)

  function PutAll(es: seq<Entry>, ops: seq<Op>): seq<Entry>
    decreases |ops|
  {
    if ops == [] then es else PutAll(Put(es, ops[0].id, ops[0].name), ops[1..])
  }

  /** A registration that has an effect: an id other than the two reserved ones, and a name with text. */
  predicate Effective(op: Op) {
    op.id != 0 && op.id != 65535 && op.name.Some? && |op.name.value| > 0
  }

  /** The last name an effective registration gave the id. */
  function LastName(ops: seq<Op>, id: int): Option<string> {
    if ops == [] then None
    else
      var op := ops[|ops| - 1];
      if op.id == id && Effective(op) then op.name else LastName(ops[..|ops| - 1], id)
  }

  /** The ids effective registrations used, each where it first came. */
  function FirstUses(ops: seq<Op>): seq<int> {
    if ops == [] then []
    else
      var op, before := ops[|ops| - 1], FirstUses(ops[..|ops| - 1]);
      if Effective(op) && op.id !in before then before + [op.id] else before
  }

  /** Ids that fit the 16-bit field. */
  predicate Sized(ops: seq<Op>) {
    forall i :: 0 <= i < |ops| ==> 0 <= ops[i].id <= 0xFFFF
  }

  /** What the entry's buffer holds of a name: its first 249 characters. */
  function Kept(name: Option<string>): Option<string> {
    if name.Some? && |name.value| > 249 then Some(name.value[..249]) else name
  }

  function Ids(es: seq<Entry>): (r: seq<int>)
    ensures |r| == |es| && forall k :: 0 <= k < |es| ==> r[k] == es[k].topicId
  {
    seq(|es|, k requires 0 <= k < |es| => es[k].topicId)
  }

  ghost predicate Distinct(ids: seq<int>) {
    forall i, j :: 0 <= i < j < |ids| ==> ids[i] != ids[j]
  }

  lemma {:induction false} PutAllLast(es: seq<Entry>, ops: seq<Op>)
    requires ops != []
    ensures var op := ops[|ops| - 1];
            PutAll(es, ops) == Put(PutAll(es, ops[..|ops| - 1]), op.id, op.name)
    decreases |ops|
  {
    var before := ops[..|ops| - 1];
    if |ops| > 1 {
      PutAllLast(Put(es, ops[0].id, ops[0].name), ops[1..]);
      assert before[1..] == ops[1..][..|ops| - 2] && before[0] == ops[0];
    } else {
      assert ops[1..] == [] && before == [];
    }
  }

  lemma FindIn(es: seq<Entry>, id: int)
    ensures Find(es, id) < |es| <==> id in Ids(es)
  {
    if Find(es, id) < |es| {
      assert Ids(es)[Find(es, id)] == id;
    }
  }

  lemma PutIds(es: seq<Entry>, id: int, name: Option<string>)
    requires Accepted(id, name) && 0 <= id <= 0xFFFF
    ensures Ids(Put(es, id, name)) == if id in Ids(es) then Ids(es) else Ids(es) + [id]
  {
    FindIn(es, id);
  }

  lemma PutLookup(es: seq<Entry>, id: int, name: Option<string>, other: int)
    requires Accepted(id, name) && 0 <= id <= 0xFFFF
    ensures Lookup(Put(es, id, name), other) == if other == id then Kept(name) else Lookup(es, other)
  {
    var k, es' := Find(es, id), Put(es, id, name);
    var m := Find(es', other);
    if other == id {
      assert es'[k].topicId == id;
      assert m == k;
    } else {
      var n := Find(es, other);
      assert n < |es| ==> es'[n].topicId == other;
      assert m == n || (n == |es| && m == |es'|);
    }
  }

  /** Main result: after any registrations, the list holds each id once, in the order of first
      registration, and looking an id up finds what the entry holds of the last name registered for it. */
  lemma {:induction false} ListRefinesMap(ops: seq<Op>, id: int)
    requires Sized(ops)
    ensures var es := PutAll([], ops);
            Ids(es) == FirstUses(ops) && Distinct(Ids(es)) && Lookup(es, id) == Kept(LastName(ops, id))
  {
    if ops != [] {
      var op, before := ops[|ops| - 1], ops[..|ops| - 1];
      ListRefinesMap(before, id);
      PutAllLast([], ops);
      if Accepted(op.id, op.name) {
        PutIds(PutAll([], before), op.id, op.name);
        PutLookup(PutAll([], before), op.id, op.name, id);
      }
    }
  }

  // ----- the list in memory

  class Node {
    var topicId: int
    var topicName: string
    var next: Node?

    constructor ()
      ensures next == null
    {
      topicId, topicName, next := 0, [], null;
    }
  }

  /** The k-th node, or null beyond either end. */
  ghost function NodeAt(nodes: seq<Node>, k: int): Node? {
    if 0 <= k < |nodes| then nodes[k] else null
  }

  class TopicMap {
    var head: Node?
    ghost var nodes: seq<Node>

    /** The nodes are distinct and linked in order, so the list ends. */
    ghost predicate Valid()
      reads this, nodes
    {
      && head == NodeAt(nodes, 0)
      && (forall k :: 0 <= k < |nodes| ==> nodes[k].next == NodeAt(nodes, k + 1))
      && (forall i, j :: 0 <= i < j < |nodes| ==> nodes[i] != nodes[j])
    }

    ghost function Entries(): (es: seq<Entry>)
      reads this, nodes
      ensures |es| == |nodes|
      ensures forall k :: 0 <= k < |nodes| ==> es[k] == Entry(nodes[k].topicId, nodes[k].topicName)
    {
      seq(|nodes|, k requires 0 <= k < |nodes| reads this, nodes => Entry(nodes[k].topicId, nodes[k].topicName))
    }

    constructor ()
      ensures Valid() && nodes == [] && Entries() == []
    {
      head, nodes := null, [];
    }

    /** The first node with the id and the one before it. */
    method Locate(id: int) returns (prev: Node?, ptr: Node?, ghost k: nat)
      requires Valid()
      ensures k == Find(Entries(), id) <= |nodes|
      ensures ptr == NodeAt(nodes, k)
      ensures prev == NodeAt(nodes, k - 1)
    {
      prev, ptr, k := null, head, 0;
      while ptr != null
        invariant 0 <= k <= |nodes|
        invariant ptr == NodeAt(nodes, k)
        invariant prev == NodeAt(nodes, k - 1)
        invariant forall j :: 0 <= j < k ==> nodes[j].topicId != id
        decreases |nodes| - k
      {
        if ptr.topicId == id {
          break;
        }
        prev, ptr := ptr, ptr.next;
        k := k + 1;
      }
      FoundAt(Entries(), id, k);
    }

    /** A new node at the end, through the pointer in the last one or the head. */
    method Append(prev: Node?) returns (ptr: Node)
      requires Valid() && prev == NodeAt(nodes, |nodes| - 1)
      modifies this, if prev == null then {} else {prev}
      ensures Valid() && fresh(ptr) && nodes == old(nodes) + [ptr]
      ensures Entries()[..|old(nodes)|] == old(Entries())
    {
      ptr := new Node();
      if prev == null {
        head := ptr;
      } else {
        prev.next := ptr;
      }
      nodes := nodes + [ptr];
    }

    method Fill(ghost k: nat, topicId: int, topicName: string, ptr: Node)
      requires Valid() && k < |nodes| && nodes[k] == ptr
      modifies ptr
      ensures Valid() && Entries() == old(Entries())[k := Entry(topicId, topicName)]
    {
      ptr.topicName := topicName;
      ptr.topicId := topicId;
      ghost var es, es' := old(Entries())[k := Entry(topicId, topicName)], Entries();
      forall j | 0 <= j < |nodes| ensures es'[j] == es[j] {
        if j == k {
          assert nodes[j] == ptr;
        } else {
          assert nodes[j] != ptr;
        }
      }
      assert es' == es;
    }

    /** The first entry with the id, or a new one at the end. */
    method EntryFor(id: int) returns (ptr: Node, ghost k: nat)
      requires Valid()
      modifies this, nodes
      ensures Valid() && k == Find(old(Entries()), id) && k < |nodes| && nodes[k] == ptr
      ensures ptr in old(nodes) || fresh(ptr)
      ensures old(nodes) <= nodes && fresh(nodes[|old(nodes)|..])
      ensures |nodes| == if k < |old(nodes)| then |old(nodes)| else k + 1
      ensures Entries()[..|old(nodes)|] == old(Entries())
    {
      var prev, found;
      prev, found, k := Locate(id);
      if found == null {
        ptr := Append(prev);
      } else {
        ptr := found;
      }
    }

    method RegisterTopic(id: int, name: Option<string>)
      requires Valid()
      modifies this, nodes
      ensures Valid() && Entries() == Put(old(Entries()), id, name)
      ensures old(nodes) <= nodes && fresh(nodes[|old(nodes)|..])
    {
      if id == 0x0000 || id == 0xFFFF {
        return;
      }
      if name.None? || |name.value| <= 0 {
        return;
      }
      var ptr, k := EntryFor(id);
      ghost var es := Entries();
      Fill(k, id % 0x10000, Cut(name.value), ptr);
      PutIs(old(Entries()), es, k, id, name);
    }

    method LookupTopic(id: int) returns (name: Option<string>)
      requires Valid()
      ensures name == Lookup(Entries(), id)
    {
      var ptr := head;
      ghost var k := 0;
      while ptr != null
        invariant 0 <= k <= |nodes|
        invariant ptr == NodeAt(nodes, k)
        invariant forall j :: 0 <= j < k ==> nodes[j].topicId != id
        decreases |nodes| - k
      {
        if ptr.topicId == id {
          FoundAt(Entries(), id, k);
          return Some(ptr.topicName);
        }
        ptr := ptr.next;
        k := k + 1;
      }
      FoundAt(Entries(), id, k);
      name := None;
    }

    /** Walks the list to its end; freed is what it frees, in order. */
    method Cleanup() returns (freed: seq<Node>)
      requires Valid()
      modifies this
      ensures Valid() && Entries() == [] && head == null
      ensures freed == old(nodes)
    {
      freed := [];
      var ptr := head;
      ghost var k := 0;
      while ptr != null
        invariant 0 <= k <= |nodes| && freed == nodes[..k]
        invariant ptr == NodeAt(nodes, k)
        decreases |nodes| - k
      {
        var ptr2 := ptr;
        ptr := ptr.next;
        freed := freed + [ptr2];
        k := k + 1;
      }
      head, nodes := null, [];
    }
  }

  /** Filling in the entry found, or the one just added at the end, is what registering does. */
  lemma PutIs(es: seq<Entry>, es': seq<Entry>, k: nat, id: int, name: Option<string>)
    requires Accepted(id, name) && k == Find(es, id)
    requires es' == es || (k == |es| && |es'| == |es| + 1 && es'[..|es|] == es)
    requires k < |es'|
    ensures es'[k := Entry(id % 0x10000, Cut(name.value))] == Put(es, id, name)
  {
  }

  lemma {:induction false} FoundAt(es: seq<Entry>, id: int, k: nat)
    requires k <= |es| && (k < |es| ==> es[k].topicId == id)
    requires forall j :: 0 <= j < k ==> es[j].topicId != id
    ensures Find(es, id) == k
  {
  }
}
