/**
 The doubly linked phonebook.  The heap structure - `head`, `tail`, `prev`, `next`,
 `abonentCount` - represents one sequence of records, and every operation of the menu does
 to that sequence what it should.
 */
module Phonebook {

  datatype Abonent = Abonent(name: string, secondName: string, tel: string)

  class Node {
    const data: Abonent
    var prev: Node?
    var next: Node?

    constructor (data: Abonent)
      ensures this.data == data && prev == null && next == null
    {
      this.data := data;
      prev, next := null, null;
    }
  }

  /** What the code does to a node's memory while it frees the list. */
  datatype Access = ReadNext(node: Node) | Freed(node: Node)

  ghost predicate Distinct(nodes: seq<Node>) {
    forall i, j :: 0 <= i < j < |nodes| ==> nodes[i] != nodes[j]
  }

  /** `next` reads the sequence forwards, `prev` backwards. */
  ghost predicate Linked(nodes: seq<Node>)
    reads nodes
  {
    && (forall i {:trigger nodes[i].prev} :: 0 <= i < |nodes| ==>
         nodes[i].prev == if i == 0 then null else nodes[i - 1])
    && (forall i {:trigger nodes[i].next} :: 0 <= i < |nodes| ==>
         nodes[i].next == if i == |nodes| - 1 then null else nodes[i + 1])
  }

  ghost function Records(nodes: seq<Node>): (r: seq<Abonent>)
    ensures |r| == |nodes|
  {
    seq(|nodes|, i requires 0 <= i < |nodes| => nodes[i].data)
  }

  function RemoveAt<T>(s: seq<T>, i: nat): (r: seq<T>)
    requires i < |s|
    ensures |r| == |s| - 1
  {
    s[..i] + s[i + 1..]
  }

  /** The numbers search_by_name prints: the positions of the records of that name. */
  function Matches(records: seq<Abonent>, name: string): (r: seq<nat>)
  {
    if records == [] then []
    else
      var last := |records| - 1;
      Matches(records[..last], name) + (if records[last].name == name then [last] else [])
  }

  lemma {:induction false} MatchesMeans(records: seq<Abonent>, name: string)
    ensures forall i :: i in Matches(records, name) <==> 0 <= i < |records| && records[i].name == name
    ensures forall a, b :: 0 <= a < b < |Matches(records, name)| ==>
              Matches(records, name)[a] < Matches(records, name)[b]
  {
    if records != [] {
      var front := records[..|records| - 1];
      MatchesMeans(front, name);
      assert forall i :: 0 <= i < |front| ==> records[i] == front[i];
      forall a, b | 0 <= a < b < |Matches(records, name)|
        ensures Matches(records, name)[a] < Matches(records, name)[b]
      {
        assert Matches(front, name)[a] in Matches(front, name);
      }
    }
  }

  /** One choice of the menu with its input. */
  datatype Choice = Add(data: Abonent) | Delete(index: int) | Search(name: string) | PrintAll | Quit | Other

  /** What a choice does to the records. */
  function Effect(records: seq<Abonent>, c: Choice): seq<Abonent> {
    match c
    case Add(data) => records + [data]
    case Delete(i) => if 0 <= i < |records| then RemoveAt(records, i) else records
    case Quit => []
    case _ => records
  }

  /** The menu runs until the first Quit; the records then are those of the choices before it. */
  function Session(records: seq<Abonent>, choices: seq<Choice>): seq<Abonent>
    decreases |choices|
  {
    if choices == [] then records
    else if choices[0].Quit? then []
    else Session(Effect(records, choices[0]), choices[1..])
  }

  /** What the choices mean, record by record: an added record comes last, a deleted one goes and
      those behind it move up, and the others stay; a wrong number, a search and a listing
      change nothing. */
  lemma ChoiceMeans(records: seq<Abonent>, c: Choice)
    ensures var after, n := Effect(records, c), |records|;
      match c
      case Add(data) => |after| == n + 1 && after[n] == data && forall j :: 0 <= j < n ==> after[j] == records[j]
      case Delete(i) =>
        if 0 <= i < n
        then |after| == n - 1 && forall j :: 0 <= j < n - 1 ==> after[j] == records[if j < i then j else j + 1]
        else after == records
      case Quit => after == []
      case _ => after == records
  {
  }

  /** Deleting the last record undoes adding one. */
  lemma DeleteUndoesAdd(records: seq<Abonent>, data: Abonent)
    ensures Effect(Effect(records, Add(data)), Delete(|records|)) == records
  {
  }

  /** A session is its choices one after the other, */
  lemma {:induction false} SessionInParts(records: seq<Abonent>, first: seq<Choice>, second: seq<Choice>)
    requires forall i :: 0 <= i < |first| ==> !first[i].Quit?
    ensures Session(records, first + second) == Session(Session(records, first), second)
    decreases |first|
  {
    hide Effect;
    if first == [] {
      assert first + second == second;
    } else {
      assert (first + second)[0] == first[0] && (first + second)[1..] == first[1..] + second;
      SessionInParts(Effect(records, first[0]), first[1..], second);
    }
  }

  /** and ends for good with the first Quit. */
  lemma QuitEnds(records: seq<Abonent>, first: seq<Choice>, second: seq<Choice>)
    requires forall i :: 0 <= i < |first| ==> !first[i].Quit?
    ensures Session(records, first + ([Quit] + second)) == []
  {
    SessionInParts(records, first, [Quit] + second);
  }

  class Book {
    var head: Node?
    var tail: Node?
    var abonentCount: int
    ghost var nodes: seq<Node>
    ghost var Repr: set<Node>

    ghost predicate Valid()
      reads this, Repr
    {
      && (forall n :: n in nodes ==> n in Repr)
      && head == (if nodes == [] then null else nodes[0])
      && tail == (if nodes == [] then null else nodes[|nodes| - 1])
      && abonentCount == |nodes|
      && Distinct(nodes) && Linked(nodes)
    }

    constructor ()
      ensures Valid() && nodes == [] && Repr == {}
    {
      head, tail, abonentCount, nodes, Repr := null, null, 0, [], {};
    }

    /** `add_abonent`. */
    method AddAbonent(data: Abonent)
      requires Valid()
      modifies this, Repr
      ensures Valid() && |nodes| == |old(nodes)| + 1 && nodes[..|old(nodes)|] == old(nodes)
      ensures fresh(Repr - old(Repr))
      ensures Records(nodes) == Records(old(nodes)) + [data]
    {
      var newNode := new Node(data);
      if head == null {
        head := newNode;
        tail := newNode;
      } else {
        tail.next := newNode;
        newNode.prev := tail;
        tail := newNode;
      }
      nodes, Repr := nodes + [newNode], Repr + {newNode};
      abonentCount := abonentCount + 1;
    }

    /** The walk from `head` to the node with a given number. */
    method NodeAt(index: int) returns (current: Node)
      requires Valid() && 0 <= index < abonentCount
      ensures current == nodes[index]
    {
      current := head;
      for i := 0 to index
        invariant current == nodes[i]
      {
        current := current.next;
      }
    }

    /** The relinking in `delete_abonent`. */
    method Unlink(current: Node, ghost k: nat)
      requires Valid() && k < |nodes| && nodes[k] == current
      modifies this, Repr
      ensures Valid() && nodes == RemoveAt(old(nodes), k) && Repr == old(Repr)
    {
      if current.prev != null {
        current.prev.next := current.next;
      } else {
        head := current.next;
      }
      if current.next != null {
        current.next.prev := current.prev;
      } else {
        tail := current.prev;
      }
      nodes := RemoveAt(nodes, k);
      abonentCount := abonentCount - 1;
    }

    /** `delete_abonent`: the record with that number goes, a wrong number changes nothing. */
    method DeleteAbonent(index: int) returns (freed: Node?)
      requires Valid()
      modifies this, Repr
      ensures Valid() && Repr == old(Repr)
      ensures if 0 <= index < |old(nodes)|
        then freed == old(nodes)[index] && nodes == RemoveAt(old(nodes), index)
        else freed == null && nodes == old(nodes)
      ensures Records(nodes) == Effect(Records(old(nodes)), Delete(index))
    {
      freed := null;
      if head == null {
        return;
      }
      if index < 0 || index >= abonentCount {
        return;
      }
      freed := NodeAt(index);
      Unlink(freed, index);
    }

    /** `search_by_name`: the numbers of all records of that name, in order. */
    method SearchByName(name: string) returns (found: seq<nat>)
      requires Valid()
      ensures found == Matches(Records(nodes), name)
    {
      found := [];
      var current := head;
      var index := 0;
      while current != null
        invariant 0 <= index <= |nodes|
        invariant current == if index == |nodes| then null else nodes[index]
        invariant found == Matches(Records(nodes[..index]), name)
        decreases |nodes| - index
      {
        assert Records(nodes[..index + 1])[..index] == Records(nodes[..index]);
        if current.data.name == name {
          found := found + [index];
        }
        current := current.next;
        index := index + 1;
      }
      assert nodes[..index] == nodes;
    }

    /** `print_all`. */
    method Listing() returns (lines: seq<Abonent>)
      requires Valid()
      ensures lines == Records(nodes)
    {
      lines := [];
      var current := head;
      while current != null
        invariant |lines| <= |nodes|
        invariant current == if |lines| == |nodes| then null else nodes[|lines|]
        invariant lines == Records(nodes)[..|lines|]
        decreases |nodes| - |lines|
      {
        lines := lines + [current.data];
        current := current.next;
      }
    }

    /** A walk from `tail` by `prev` reads the records backwards. */
    lemma ReadsBackwards() returns (lines: seq<Abonent>)
      requires Valid()
      ensures |lines| == |nodes| && forall i :: 0 <= i < |nodes| ==> lines[i] == Records(nodes)[|nodes| - 1 - i]
    {
      lines := [];
      var current := tail;
      while current != null
        invariant |lines| <= |nodes|
        invariant current == if |lines| == |nodes| then null else nodes[|nodes| - 1 - |lines|]
        invariant forall i :: 0 <= i < |lines| ==> lines[i] == Records(nodes)[|nodes| - 1 - i]
        decreases |nodes| - |lines|
      {
        lines := lines + [current.data];
        current := current.prev;
      }
    }

    /** `free_all`: every node is freed, once and in order, and nothing is done to a node
        after that.  `trace` is what the loop does to the nodes. */
    method FreeAll() returns (freed: seq<Node>, trace: seq<Access>)
      requires Valid()
      modifies this
      ensures Valid() && nodes == [] && Repr == {} && freed == old(nodes)
      ensures forall node :: node in freed <==> Freed(node) in trace
      ensures forall i, j :: 0 <= i < j < |trace| && trace[i].Freed? ==> trace[j].node != trace[i].node
    {
      freed, trace := [], [];
      var current := head;
      while current != null
        invariant nodes == old(nodes) && Repr == old(Repr) && Valid()
        invariant freed <= nodes
        invariant current == if |freed| == |nodes| then null else nodes[|freed|]
        invariant current !in freed
        invariant forall node :: node in freed <==> Freed(node) in trace
        invariant forall a :: a in trace ==> a.node in freed
        invariant forall i, j :: 0 <= i < j < |trace| && trace[i].Freed? ==> trace[j].node != trace[i].node
        decreases |nodes| - |freed|
      {
        var temp := current;
        current := current.next;
        freed := freed + [temp];
        trace := trace + [ReadNext(temp), Freed(temp)];
      }
      head, tail, abonentCount := null, null, 0;
      nodes, Repr := [], {};
    }

    /** The menu loop over a sequence of choices. */
    method Menu(choices: seq<Choice>)
      requires Valid()
      modifies this, Repr
      ensures Valid() && fresh(Repr - old(Repr))
      ensures Records(nodes) == Session(Records(old(nodes)), choices)
    {
      var i := 0;
      while i < |choices|
        invariant 0 <= i <= |choices| && Valid()
        invariant fresh(Repr - old(Repr))
        invariant Session(Records(nodes), choices[i..]) == Session(Records(old(nodes)), choices)
      {
        ghost var records := Records(nodes);
        match choices[i] {
          case Add(data) => AddAbonent(data);
          case Delete(index) => var _ := DeleteAbonent(index);
          case Search(name) => var _ := SearchByName(name);
          case PrintAll => var _ := Listing();
          case Quit =>
            var _, _ := FreeAll();
            assert Records(nodes) == [];
            return;
          case Other =>
        }
        assert Records(nodes) == Effect(records, choices[i]);
        assert choices[i..][1..] == choices[i + 1..];
        i := i + 1;
      }
    }
  }
}
