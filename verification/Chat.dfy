/**
 The shared-memory chat: any number of client processes register in twenty slots, append to
 one log of at most 99 messages, and read it, each with its own cursor.

 A semaphore makes each critical section atomic, so one step of the state machine is one
 critical section.  `SharedMemory` updates the shared segment in place as those sections do.
 */
module Chat {
  import opened Sums

  const MAX_CLIENTS := 20
  const MAX_MESSAGES := 100

  datatype Slot = Slot(id: int, name: string, active: bool)

  datatype Message = Message(id: int, sender: string, content: string)

  /** The shared segment and the posts made so far to the msg_count semaphore. */
  datatype Shared = Shared(
    clientCount: int, nextId: int, msgCount: int, msgHead: int, msgTail: int,
    clients: seq<Slot>, messages: seq<Message>, posts: nat)

  // ----- the critical sections -----

  predicate Taken(clients: seq<Slot>, name: string) {
    exists i :: 0 <= i < |clients| && clients[i].active && clients[i].name == name
  }

  /** The first inactive slot, or the number of slots. */
  function FreeSlot(clients: seq<Slot>): (k: nat)
    ensures k <= |clients| && (forall i :: 0 <= i < k ==> clients[i].active)
    ensures k < |clients| ==> !clients[k].active
  {
    if clients == [] || !clients[0].active then 0 else 1 + FreeSlot(clients[1..])
  }

  /** The first active slot with that id, or the number of slots. */
  function SlotOf(clients: seq<Slot>, id: int): (k: nat)
    ensures k <= |clients| && (forall i :: 0 <= i < k ==> !(clients[i].active && clients[i].id == id))
    ensures k < |clients| ==> clients[k].active && clients[k].id == id
  {
    if clients == [] || (clients[0].active && clients[0].id == id) then 0 else 1 + SlotOf(clients[1..], id)
  }

  predicate Sized(s: Shared) {
    |s.clients| == MAX_CLIENTS && |s.messages| == MAX_MESSAGES && 0 <= s.msgTail < MAX_MESSAGES
  }

  /** Appending to the log; a full log drops the message. */
  function Append(s: Shared, m: Message): Shared
    requires Sized(s)
  {
    var next := (s.msgTail + 1) % MAX_MESSAGES;
    if next == s.msgHead then s
    else s.(messages := s.messages[s.msgTail := m], msgTail := next, msgCount := s.msgCount + 1, posts := s.posts + 1)
  }

  /** Registration succeeds if the name is free and a slot is. */
  predicate CanRegister(s: Shared, name: string) {
    !Taken(s.clients, name) && FreeSlot(s.clients) < |s.clients|
  }

  function Register(s: Shared, name: string): Shared
    requires Sized(s)
  {
    if !CanRegister(s, name) then s
    else
      var slot := FreeSlot(s.clients);
      Append(s.(clients := s.clients[slot := Slot(s.nextId, name, true)],
                nextId := s.nextId + 1, clientCount := s.clientCount + 1),
             Message(-1, "SYSTEM", name + " joined the chat"))
  }

  function Send(s: Shared, id: int, name: string, text: string): Shared
    requires Sized(s)
  {
    Append(s, Message(id, name, text))
  }

  /** Leaving writes no id into its message. */
  function Leave(s: Shared, id: int, name: string): Shared
    requires Sized(s)
  {
    var slot := SlotOf(s.clients, id);
    if slot == |s.clients| then s
    else
      Append(s.(clients := s.clients[slot := s.clients[slot].(active := false)], clientCount := s.clientCount - 1),
             Message(s.messages[s.msgTail].id, "SYSTEM", name + " left the chat"))
  }

  // ----- the processes -----

  datatype Phase =
    | Starting
    | Refused                                  // name taken or chat full
    | Polling                                  // the receiver is about to take a snapshot
    | Reading(currentCount: int, currentTail: int)
    | Gone

  datatype Client = Client(name: string, phase: Phase, id: int, processed: int, shown: seq<Message>)

  datatype State = State(shared: Shared, clients: seq<Client>, consumed: nat)

  datatype Step =
    | DoRegister(c: nat) | DoSend(c: nat, text: string) | DoLeave(c: nat)
    | DoSnapshot(c: nat) | DoRead(c: nat) | DoDispatch

  predicate InChat(c: Client) {
    c.phase.Polling? || c.phase.Reading?
  }

  ghost predicate Init(s: State) {
    && s.shared == Shared(0, 1, 0, 0, 0, seq(MAX_CLIENTS, _ => Slot(0, "", false)),
                          seq(MAX_MESSAGES, _ => Message(0, "", "")), 0)
    && (forall c :: c in s.clients ==> c.phase == Starting && c.processed == 0 && c.shown == [])
    && s.consumed == 0
  }

  ghost predicate Enabled(s: State, step: Step) {
    Sized(s.shared) &&
    match step
    case DoRegister(c) => c < |s.clients| && s.clients[c].phase.Starting?
    case DoSend(c, _) => c < |s.clients| && InChat(s.clients[c])
    case DoLeave(c) => c < |s.clients| && InChat(s.clients[c])
    case DoSnapshot(c) => c < |s.clients| && s.clients[c].phase.Polling?
    case DoRead(c) => c < |s.clients| && s.clients[c].phase.Reading?
    case DoDispatch => s.consumed < s.shared.posts
  }

  function ReadPos(s: Shared, processed: int): int {
    (s.msgHead + processed) % MAX_MESSAGES
  }

  /** One pass of the inner loop of the receiver. */
  function ReadOne(s: Shared, c: Client): Client
    requires Sized(s) && c.phase.Reading?
  {
    if c.processed >= c.phase.currentCount then c.(phase := Polling)
    else if ReadPos(s, c.processed) == c.phase.currentTail then c
    else c.(processed := c.processed + 1, shown := c.shown + [s.messages[ReadPos(s, c.processed)]])
  }

  ghost function Apply(s: State, step: Step): State
    requires Enabled(s, step)
  {
    match step
    case DoRegister(c) =>
      var me := s.clients[c];
      if CanRegister(s.shared, me.name)
      then s.(shared := Register(s.shared, me.name),
              clients := s.clients[c := me.(phase := Polling, id := s.shared.nextId)])
      else s.(clients := s.clients[c := me.(phase := Refused)])
    case DoSend(c, text) => s.(shared := Send(s.shared, s.clients[c].id, s.clients[c].name, text))
    case DoLeave(c) =>
      s.(shared := Leave(s.shared, s.clients[c].id, s.clients[c].name),
         clients := s.clients[c := s.clients[c].(phase := Gone)])
    case DoSnapshot(c) =>
      s.(clients := s.clients[c := s.clients[c].(phase := Reading(s.shared.msgCount, s.shared.msgTail))])
    case DoRead(c) => s.(clients := s.clients[c := ReadOne(s.shared, s.clients[c])])
    case DoDispatch => s.(consumed := s.consumed + 1)
  }

  ghost predicate Schedule(s: State, steps: seq<Step>)
    decreases |steps|
  {
    steps == [] || (Enabled(s, steps[0]) && Schedule(Apply(s, steps[0]), steps[1..]))
  }

  ghost function Outcome(s: State, steps: seq<Step>): State
    requires Schedule(s, steps)
    decreases |steps|
  {
    if steps == [] then s else Outcome(Apply(s, steps[0]), steps[1..])
  }

  // ----- what every step keeps -----

  /** The messages in the order in which they were appended. */
  ghost function Log(s: Shared): seq<Message>
    requires Sized(s)
  {
    s.messages[..s.msgTail]
  }

  function IsActive(slot: Slot): int {
    if slot.active then 1 else 0
  }

  function IsInChat(c: Client): int {
    if InChat(c) then 1 else 0
  }

  ghost predicate LogOk(s: Shared) {
    Sized(s) && s.msgHead == 0 && s.msgTail == s.msgCount == s.posts
  }

  /** Active slots are counted, and their names, ids and owners are unique. */
  ghost predicate SlotsOk(s: Shared) {
    && |s.clients| == MAX_CLIENTS && s.nextId >= 1
    && s.clientCount == Total(s.clients, IsActive)
    && (forall i :: 0 <= i < |s.clients| && s.clients[i].active ==> 1 <= s.clients[i].id < s.nextId)
    && (forall i, j :: 0 <= i < j < |s.clients| && s.clients[i].active && s.clients[j].active ==>
         s.clients[i].id != s.clients[j].id && s.clients[i].name != s.clients[j].name)
  }

  ghost predicate OwnsSlot(s: Shared, c: Client) {
    var k := SlotOf(s.clients, c.id);
    k < |s.clients| && s.clients[k].name == c.name && 1 <= c.id < s.nextId
  }

  /** A reader has shown exactly the first `processed` messages of the log. */
  ghost predicate ReaderOk(s: Shared, c: Client)
    requires Sized(s)
  {
    && 0 <= c.processed <= s.msgTail
    && c.shown == s.messages[..c.processed]
    && (c.phase.Reading? ==>
          c.phase.currentCount == c.phase.currentTail <= s.msgTail && c.processed <= c.phase.currentCount)
  }

  /** Every client in the chat has its own active slot. */
  ghost predicate OwnersOk(s: State) {
    && (forall c :: 0 <= c < |s.clients| && InChat(s.clients[c]) ==> OwnsSlot(s.shared, s.clients[c]))
    && (forall c, d :: 0 <= c < d < |s.clients| && InChat(s.clients[c]) && InChat(s.clients[d]) ==>
         s.clients[c].id != s.clients[d].id)
  }

  ghost predicate Inv(s: State) {
    && LogOk(s.shared) && SlotsOk(s.shared) && s.consumed <= s.shared.posts
    && (forall c :: 0 <= c < |s.clients| ==> ReaderOk(s.shared, s.clients[c]))
    && OwnersOk(s)
    && s.shared.clientCount == Total(s.clients, IsInChat)
  }

  /** How the shared segment can change: the log grows at its end or stays. */
  ghost predicate Grows(s: Shared, s': Shared) {
    LogOk(s) && LogOk(s') && Log(s) <= Log(s')
  }

  lemma AppendGrows(s: Shared, m: Message)
    requires LogOk(s)
    ensures Grows(s, Append(s, m))
    ensures Log(Append(s, m)) == if s.msgTail < MAX_MESSAGES - 1 then Log(s) + [m] else Log(s)
    ensures Append(s, m).clients == s.clients
    ensures Append(s, m).clientCount == s.clientCount && Append(s, m).nextId == s.nextId
  {
  }

  lemma ReaderKeeps(s: Shared, s': Shared, c: Client)
    requires Grows(s, s') && ReaderOk(s, c)
    ensures ReaderOk(s', c)
  {
    assert s'.messages[..c.processed] == Log(s')[..c.processed] == Log(s)[..c.processed];
  }

  lemma SlotOfIs(clients: seq<Slot>, id: int, k: nat)
    requires k < |clients| && clients[k].active && clients[k].id == id
    requires forall i :: 0 <= i < |clients| && i != k && clients[i].active ==> clients[i].id != id
    ensures SlotOf(clients, id) == k
  {
  }

  /** The segment between the two parts of a registration. */
  function Seated(s: Shared, name: string): Shared
    requires Sized(s) && FreeSlot(s.clients) < |s.clients|
  {
    s.(clients := s.clients[FreeSlot(s.clients) := Slot(s.nextId, name, true)],
       nextId := s.nextId + 1, clientCount := s.clientCount + 1)
  }

  lemma SeatedKeepsSlots(s: Shared, name: string)
    requires LogOk(s) && SlotsOk(s) && CanRegister(s, name)
    ensures SlotsOk(Seated(s, name))
  {
    TotalUpdate(s.clients, FreeSlot(s.clients), Slot(s.nextId, name, true), IsActive);
  }

  lemma SeatedKeepsOwners(s: Shared, name: string)
    requires LogOk(s) && SlotsOk(s) && CanRegister(s, name)
    ensures OwnsSlot(Seated(s, name), Client(name, Polling, s.nextId, 0, []))
    ensures forall c :: OwnsSlot(s, c) ==> OwnsSlot(Seated(s, name), c) && c.id != s.nextId
  {
    var s' := Seated(s, name);
    SlotOfIs(s'.clients, s.nextId, FreeSlot(s.clients));
    forall c | OwnsSlot(s, c)
      ensures OwnsSlot(s', c) && c.id != s.nextId
    {
      SlotOfIs(s'.clients, c.id, SlotOf(s.clients, c.id));
    }
  }

  lemma RegisterKeepsSlots(s: Shared, name: string)
    requires LogOk(s) && SlotsOk(s) && CanRegister(s, name)
    ensures Grows(s, Register(s, name)) && SlotsOk(Register(s, name))
    ensures OwnsSlot(Register(s, name), Client(name, Polling, s.nextId, 0, []))
    ensures forall c :: OwnsSlot(s, c) ==> OwnsSlot(Register(s, name), c) && c.id != s.nextId
  {
    SeatedKeepsSlots(s, name);
    SeatedKeepsOwners(s, name);
    AppendGrows(Seated(s, name), Message(-1, "SYSTEM", name + " joined the chat"));
    hide Append, SlotOf;
  }

  /** Leaving turns the leaver's own slot inactive and touches no other. */
  lemma LeaveIs(s: Shared, me: Client)
    requires LogOk(s) && SlotsOk(s) && OwnsSlot(s, me)
    ensures var k, s' := SlotOf(s.clients, me.id), Leave(s, me.id, me.name);
      && k < |s.clients| && s.clients[k] == Slot(me.id, me.name, true)
      && s'.clients == s.clients[k := s.clients[k].(active := false)]
      && s'.clientCount == s.clientCount - 1 && s'.nextId == s.nextId && Grows(s, s')
  {
    var k := SlotOf(s.clients, me.id);
    AppendGrows(s.(clients := s.clients[k := s.clients[k].(active := false)], clientCount := s.clientCount - 1),
                Message(s.messages[s.msgTail].id, "SYSTEM", me.name + " left the chat"));
  }

  /** Leaving frees the leaver's own slot and no other; everybody else keeps theirs. */
  lemma LeaveKeepsSlots(s: Shared, me: Client)
    requires LogOk(s) && SlotsOk(s) && OwnsSlot(s, me)
    ensures var k, s' := SlotOf(s.clients, me.id), Leave(s, me.id, me.name);
      && k < |s.clients| && s.clients[k] == Slot(me.id, me.name, true)
      && s'.clients == s.clients[k := s.clients[k].(active := false)]
      && Grows(s, s') && SlotsOk(s') && !OwnsSlot(s', me)
      && forall c :: OwnsSlot(s, c) && c.id != me.id ==> OwnsSlot(s', c)
  {
    LeaveIs(s, me);
    hide Leave, Grows;
    var k, s' := SlotOf(s.clients, me.id), Leave(s, me.id, me.name);
    TotalUpdate(s.clients, k, s'.clients[k], IsActive);
    forall c | OwnsSlot(s, c) && c.id != me.id
      ensures OwnsSlot(s', c)
    {
      SlotOfIs(s'.clients, c.id, SlotOf(s.clients, c.id));
    }
  }

  /** The inner loop always advances: the position to read is never the snapshot's tail. */
  lemma ReadAdvances(s: Shared, c: Client)
    requires LogOk(s) && ReaderOk(s, c) && c.phase.Reading?
    ensures ReaderOk(s, ReadOne(s, c))
    ensures if c.processed < c.phase.currentCount
      then ReadPos(s, c.processed) != c.phase.currentTail && ReadOne(s, c).processed == c.processed + 1
      else ReadOne(s, c).phase.Polling?
  {
    if c.processed < c.phase.currentCount {
      assert ReadPos(s, c.processed) == c.processed;
      assert s.messages[..c.processed + 1] == s.messages[..c.processed] + [s.messages[c.processed]];
    }
  }

  lemma SharedStep(s: State, step: Step)
    requires Inv(s) && Enabled(s, step)
    ensures Grows(s.shared, Apply(s, step).shared) && SlotsOk(Apply(s, step).shared)
    ensures Apply(s, step).consumed <= Apply(s, step).shared.posts
  {
    match step
    case DoRegister(c) =>
      if CanRegister(s.shared, s.clients[c].name) {
        RegisterKeepsSlots(s.shared, s.clients[c].name);
      }
    case DoSend(c, text) => AppendGrows(s.shared, Message(s.clients[c].id, s.clients[c].name, text));
    case DoLeave(c) => LeaveKeepsSlots(s.shared, s.clients[c]);
    case _ =>
  }

  lemma ReadersStep(s: State, step: Step)
    requires Inv(s) && Enabled(s, step)
    ensures LogOk(Apply(s, step).shared)
    ensures forall c :: 0 <= c < |s.clients| ==> ReaderOk(Apply(s, step).shared, Apply(s, step).clients[c])
  {
    var s' := Apply(s, step);
    SharedStep(s, step);
    forall c | 0 <= c < |s.clients|
      ensures ReaderOk(s'.shared, s'.clients[c])
    {
      ReaderKeeps(s.shared, s'.shared, s.clients[c]);
      if step == DoRead(c) {
        ReadAdvances(s.shared, s.clients[c]);
      }
    }
  }

  lemma OwnersRegister(s: State, c: nat)
    requires Inv(s) && Enabled(s, DoRegister(c))
    ensures OwnersOk(Apply(s, DoRegister(c)))
  {
    hide OwnsSlot, ReaderOk, Register;
    if CanRegister(s.shared, s.clients[c].name) {
      RegisterKeepsSlots(s.shared, s.clients[c].name);
      OwnershipIgnoresCursor(Register(s.shared, s.clients[c].name),
                             Client(s.clients[c].name, Polling, s.shared.nextId, 0, []),
                             Apply(s, DoRegister(c)).clients[c]);
    }
  }

  lemma OwnershipIgnoresCursor(s: Shared, c: Client, d: Client)
    requires OwnsSlot(s, c) && c.id == d.id && c.name == d.name
    ensures OwnsSlot(s, d)
  {
  }

  lemma OwnersLeave(s: State, c: nat)
    requires Inv(s) && Enabled(s, DoLeave(c))
    ensures OwnersOk(Apply(s, DoLeave(c)))
  {
    hide OwnsSlot, ReaderOk, Leave;
    LeaveKeepsSlots(s.shared, s.clients[c]);
  }

  lemma OwnersOther(s: State, step: Step)
    requires Inv(s) && Enabled(s, step) && !step.DoRegister? && !step.DoLeave?
    ensures OwnersOk(Apply(s, step))
  {
    hide ReaderOk;
    if step.DoSend? {
      AppendGrows(s.shared, Message(s.clients[step.c].id, s.clients[step.c].name, step.text));
    }
  }

  lemma HeadCountStep(s: State, step: Step)
    requires Inv(s) && Enabled(s, step)
    ensures Apply(s, step).shared.clientCount == Total(Apply(s, step).clients, IsInChat)
  {
    hide ReaderOk, OwnersOk, SlotsOk, LogOk;
    if !step.DoDispatch? && !step.DoSend? {
      var me := Apply(s, step).clients[step.c];
      TotalUpdate(s.clients, step.c, me, IsInChat);
      if step.DoLeave? {
        OwnerIsSeated(s, step.c);
      }
    }
  }

  lemma OwnerIsSeated(s: State, c: nat)
    requires OwnersOk(s) && c < |s.clients| && InChat(s.clients[c])
    ensures SlotOf(s.shared.clients, s.clients[c].id) < |s.shared.clients|
  {
  }

  lemma InvStep(s: State, step: Step)
    requires Inv(s) && Enabled(s, step)
    ensures Inv(Apply(s, step))
  {
    SharedStep(s, step);
    ReadersStep(s, step);
    HeadCountStep(s, step);
    match step
    case DoRegister(c) => OwnersRegister(s, c);
    case DoLeave(c) => OwnersLeave(s, c);
    case _ => OwnersOther(s, step);
  }

  lemma InvInit(s: State)
    requires Init(s)
    ensures Inv(s)
  {
    TotalZero(s.shared.clients, IsActive);
    TotalZero(s.clients, IsInChat);
  }

  /** Safety of every interleaving; and over every run the log is only ever extended. */
  lemma {:induction false} EveryRunKeepsInv(s: State, steps: seq<Step>)
    requires Inv(s) && Schedule(s, steps)
    ensures Inv(Outcome(s, steps))
    ensures Log(s.shared) <= Log(Outcome(s, steps).shared)
    decreases |steps|
  {
    if steps != [] {
      InvStep(s, steps[0]);
      SharedStep(s, steps[0]);
      EveryRunKeepsInv(Apply(s, steps[0]), steps[1..]);
    }
  }

  // ----- consequences for every run -----

  /** In every run what a client has shown is a prefix of the log, so any two clients agree
      on the order; and the log never moves. */
  lemma EveryoneReadsTheSameLog(init: State, steps: seq<Step>, c: nat, d: nat)
    requires Init(init) && Schedule(init, steps)
    requires c < |Outcome(init, steps).clients| && d < |Outcome(init, steps).clients|
    ensures var s := Outcome(init, steps);
      && Sized(s.shared) && s.shared.msgHead == 0 && s.shared.msgTail == s.shared.msgCount <= 99
      && s.clients[c].shown <= Log(s.shared)
      && (s.clients[c].shown <= s.clients[d].shown || s.clients[d].shown <= s.clients[c].shown)
  {
    InvInit(init);
    EveryRunKeepsInv(init, steps);
    var s := Outcome(init, steps);
    var a, b := s.clients[c], s.clients[d];
    assert ReaderOk(s.shared, a) && ReaderOk(s.shared, b);
    if a.processed <= b.processed {
      assert a.shown == b.shown[..a.processed];
    } else {
      assert b.shown == a.shown[..b.processed];
    }
  }

  /** In every run a reader that is behind its snapshot advances with its next pass. */
  lemma ReaderNeverSpins(init: State, steps: seq<Step>, c: nat)
    requires Init(init) && Schedule(init, steps) && c < |Outcome(init, steps).clients|
    requires Outcome(init, steps).clients[c].phase.Reading?
    ensures Sized(Outcome(init, steps).shared)
    ensures var s := Outcome(init, steps);
      var me, next := s.clients[c], Apply(s, DoRead(c)).clients[c];
      if me.processed < me.phase.currentCount
      then next.processed == me.processed + 1 && |next.shown| == |me.shown| + 1
      else next.phase.Polling? && me.processed == me.phase.currentCount && |me.shown| == me.phase.currentCount
  {
    InvInit(init);
    EveryRunKeepsInv(init, steps);
    var s := Outcome(init, steps);
    assert ReaderOk(s.shared, s.clients[c]);
    ReadAdvances(s.shared, s.clients[c]);
  }

  /** In every run the posts to msg_count are the messages, consumed or not; client_count is
      the number of active slots and the number of processes in the chat; names and ids of active slots
      are unique and the ids below next_id. */
  lemma BookkeepingIsRight(init: State, steps: seq<Step>)
    requires Init(init) && Schedule(init, steps)
    ensures var s := Outcome(init, steps).shared;
      && s.posts == s.msgCount && Outcome(init, steps).consumed <= s.posts
      && s.clientCount == Total(s.clients, IsActive) == Total(Outcome(init, steps).clients, IsInChat)
      && (forall i :: 0 <= i < |s.clients| && s.clients[i].active ==> s.clients[i].id < s.nextId)
      && (forall i, j :: 0 <= i < j < |s.clients| && s.clients[i].active && s.clients[j].active ==>
           s.clients[i].id != s.clients[j].id && s.clients[i].name != s.clients[j].name)
  {
    InvInit(init);
    EveryRunKeepsInv(init, steps);
  }

  // ----- what the log says -----

  /** The log's capacity: one of the hundred places always stays empty. */
  const MAX_LOG := MAX_MESSAGES - 1

  /** The places not yet written hold what the server put there, id 0. */
  ghost predicate Blank(s: Shared) {
    Sized(s) && forall k :: s.msgTail <= k < MAX_MESSAGES ==> s.messages[k].id == 0
  }

  /** Who may join: the name belongs to nobody in the chat, and fewer than twenty are in it. */
  ghost predicate MayJoin(s: Shared, name: string) {
    s.clientCount < MAX_CLIENTS && forall i :: 0 <= i < |s.clients| && s.clients[i].active ==> s.clients[i].name != name
  }

  /** What a step has to tell everybody. */
  ghost function Said(s: State, step: Step): seq<Message>
    requires Enabled(s, step)
  {
    match step
    case DoRegister(c) =>
      if MayJoin(s.shared, s.clients[c].name)
      then [Message(-1, "SYSTEM", s.clients[c].name + " joined the chat")] else []
    case DoSend(c, text) => [Message(s.clients[c].id, s.clients[c].name, text)]
    case DoLeave(c) => [Message(0, "SYSTEM", s.clients[c].name + " left the chat")]
    case _ => []
  }

  ghost function AllSaid(s: State, steps: seq<Step>): seq<Message>
    requires Schedule(s, steps)
    decreases |steps|
  {
    if steps == [] then [] else Said(s, steps[0]) + AllSaid(Apply(s, steps[0]), steps[1..])
  }

  function Cut(said: seq<Message>): seq<Message> {
    if |said| <= MAX_LOG then said else said[..MAX_LOG]
  }

  lemma {:induction false} AllSlotsActive(clients: seq<Slot>)
    ensures Total(clients, IsActive) <= |clients|
    ensures FreeSlot(clients) == |clients| <==> Total(clients, IsActive) == |clients|
  {
    if clients != [] {
      AllSlotsActive(clients[1..]);
    }
  }

  /** A client is let in exactly if it may join, and then under the next id; else nothing changes. */
  lemma JoinIff(s: State, c: nat)
    requires Inv(s) && Enabled(s, DoRegister(c))
    ensures CanRegister(s.shared, s.clients[c].name) <==> MayJoin(s.shared, s.clients[c].name)
    ensures var s' := Apply(s, DoRegister(c));
      if MayJoin(s.shared, s.clients[c].name)
      then s'.clients[c].phase.Polling? && s'.clients[c].id == s.shared.nextId
      else s'.clients[c].phase.Refused? && s'.shared == s.shared
  {
    AllSlotsActive(s.shared.clients);
  }

  lemma AppendSays(s: Shared, m: Message)
    requires LogOk(s) && Blank(s)
    ensures LogOk(Append(s, m)) && Blank(Append(s, m)) && Log(Append(s, m)) == Cut(Log(s) + [m])
  {
    AppendGrows(s, m);
    if s.msgTail == MAX_LOG {
      assert (Log(s) + [m])[..MAX_LOG] == Log(s);
    }
  }

  /** A step puts what it has to say at the end of the log, if there is room, and changes the
      log in no other way. */
  lemma StepSays(s: State, step: Step)
    requires Inv(s) && Blank(s.shared) && Enabled(s, step)
    ensures Blank(Apply(s, step).shared)
    ensures Log(Apply(s, step).shared) == Cut(Log(s.shared) + Said(s, step))
  {
    assert Log(s.shared) + [] == Log(s.shared);
    match step
    case DoRegister(c) =>
      JoinIff(s, c);
      if CanRegister(s.shared, s.clients[c].name) {
        AppendSays(Seated(s.shared, s.clients[c].name), Message(-1, "SYSTEM", s.clients[c].name + " joined the chat"));
      }
    case DoSend(c, text) => AppendSays(s.shared, Message(s.clients[c].id, s.clients[c].name, text));
    case DoLeave(c) => LeaveSays(s.shared, s.clients[c]);
    case _ =>
  }

  lemma LeaveSays(s: Shared, me: Client)
    requires LogOk(s) && Blank(s) && OwnsSlot(s, me)
    ensures var s' := Leave(s, me.id, me.name);
      && LogOk(s') && Blank(s')
      && Log(s') == Cut(Log(s) + [Message(0, "SYSTEM", me.name + " left the chat")])
  {
    var k := SlotOf(s.clients, me.id);
    AppendSays(s.(clients := s.clients[k := s.clients[k].(active := false)], clientCount := s.clientCount - 1),
               Message(s.messages[s.msgTail].id, "SYSTEM", me.name + " left the chat"));
  }

  lemma CutAgain(a: seq<Message>, b: seq<Message>, c: seq<Message>)
    ensures Cut(Cut(a + b) + c) == Cut(a + (b + c))
  {
    assert a + b + c == a + (b + c);
    if |a + b| > MAX_LOG {
      assert (Cut(a + b) + c)[..MAX_LOG] == (a + b)[..MAX_LOG] == (a + (b + c))[..MAX_LOG];
    }
  }

  lemma {:induction false} LogExtends(s: State, steps: seq<Step>)
    requires Inv(s) && Blank(s.shared) && Schedule(s, steps)
    ensures Inv(Outcome(s, steps)) && Log(Outcome(s, steps).shared) == Cut(Log(s.shared) + AllSaid(s, steps))
    decreases |steps|
  {
    hide Cut, Log, Said, Blank, Inv;
    if steps == [] {
      LogIsCut(s);
      assert Log(s.shared) + [] == Log(s.shared);
    } else {
      var s' := Apply(s, steps[0]);
      StepSays(s, steps[0]);
      InvStep(s, steps[0]);
      LogExtends(s', steps[1..]);
      CutAgain(Log(s.shared), Said(s, steps[0]), AllSaid(s', steps[1..]));
    }
  }

  lemma LogIsCut(s: State)
    requires Inv(s)
    ensures Sized(s.shared) && Cut(Log(s.shared)) == Log(s.shared)
  {
  }

  /** In every run the log is, in order, the first 99 of all joinings, messages and leavings. */
  lemma LogIsWhatWasSaid(init: State, steps: seq<Step>)
    requires Init(init) && Schedule(init, steps)
    ensures Sized(Outcome(init, steps).shared)
    ensures Log(Outcome(init, steps).shared) == Cut(AllSaid(init, steps))
  {
    InvInit(init);
    LogExtends(init, steps);
    assert Log(init.shared) == [];
    assert [] + AllSaid(init, steps) == AllSaid(init, steps);
  }

  /** One client alone joins and says something: all of it is in the log, up to its end. */
  lemma {:induction false} OneSpeaks(s: State, c: nat, texts: seq<string>)
    requires Inv(s) && Blank(s.shared) && c < |s.clients| && InChat(s.clients[c])
    ensures var steps := seq(|texts|, i requires 0 <= i < |texts| => DoSend(c, texts[i]));
      && Schedule(s, steps)
      && Sized(Outcome(s, steps).shared)
      && Log(Outcome(s, steps).shared) ==
         Cut(Log(s.shared)
             + seq(|texts|, i requires 0 <= i < |texts| => Message(s.clients[c].id, s.clients[c].name, texts[i])))
    decreases |texts|
  {
    hide Cut, Blank, Inv, SlotsOk, OwnersOk, ReaderOk;
    var me := s.clients[c];
    var said := seq(|texts|, i requires 0 <= i < |texts| => Message(me.id, me.name, texts[i]));
    var steps := seq(|texts|, i requires 0 <= i < |texts| => DoSend(c, texts[i]));
    LogIsCut(s);
    if texts == [] {
      assert Log(s.shared) + said == Log(s.shared) && steps == [];
    } else {
      var s' := Apply(s, DoSend(c, texts[0]));
      InvStep(s, DoSend(c, texts[0]));
      StepSays(s, DoSend(c, texts[0]));
      OneSpeaks(s', c, texts[1..]);
      assert steps[1..] == seq(|texts[1..]|, i requires 0 <= i < |texts[1..]| => DoSend(c, texts[1..][i]));
      var rest := seq(|texts[1..]|, i requires 0 <= i < |texts[1..]| => Message(me.id, me.name, texts[1..][i]));
      assert said == [said[0]] + rest;
      CutAgain(Log(s.shared), [said[0]], rest);
    }
  }

  /** How often the dispatcher has come through its wait. */
  function Dispatches(steps: seq<Step>): nat {
    if steps == [] then 0 else (if steps[0].DoDispatch? then 1 else 0) + Dispatches(steps[1..])
  }

  /** The dispatcher comes through its wait once for a post, never more often than messages
      were logged. */
  lemma {:induction false} DispatchesAreCounted(s: State, steps: seq<Step>)
    requires Inv(s) && Schedule(s, steps)
    ensures Outcome(s, steps).consumed == s.consumed + Dispatches(steps)
    ensures Sized(Outcome(s, steps).shared)
    ensures s.consumed + Dispatches(steps) <= |Log(Outcome(s, steps).shared)|
    decreases |steps|
  {
    if steps != [] {
      InvStep(s, steps[0]);
      DispatchesAreCounted(Apply(s, steps[0]), steps[1..]);
    }
  }

  // ----- what a reader shows -----

  /** Client c is still to show the first n messages of the log, or has. */
  ghost predicate WillShow(s: State, c: nat, n: int) {
    && c < |s.clients|
    && (s.clients[c].phase.Reading? ==> n <= s.clients[c].phase.currentCount)
    && (s.clients[c].phase.Polling? ==> n <= s.clients[c].processed)
  }

  lemma {:induction false} WillShowOn(s: State, c: nat, n: int, steps: seq<Step>)
    requires Inv(s) && Schedule(s, steps) && WillShow(s, c, n)
    requires InChat(s.clients[c]) || s.clients[c].phase.Gone?
    ensures WillShow(Outcome(s, steps), c, n)
    decreases |steps|
  {
    if steps != [] {
      InvStep(s, steps[0]);
      WillShowStep(s, c, n, steps[0]);
      WillShowOn(Apply(s, steps[0]), c, n, steps[1..]);
    }
  }

  lemma WillShowStep(s: State, c: nat, n: int, step: Step)
    requires Inv(s) && Enabled(s, step) && WillShow(s, c, n)
    requires InChat(s.clients[c]) || s.clients[c].phase.Gone?
    ensures WillShow(Apply(s, step), c, n)
    ensures InChat(Apply(s, step).clients[c]) || Apply(s, step).clients[c].phase.Gone?
  {
    hide OwnersOk, SlotsOk, Register, Leave, Send;
    assert ReaderOk(s.shared, s.clients[c]);
  }

  /** Polling is of use: a reader that looks at the log shows, by the time it looks again,
      all that was in it, whatever the others do meanwhile. */
  lemma PollShowsTheLog(init: State, before: seq<Step>, c: nat, steps: seq<Step>)
    requires Init(init) && Schedule(init, before) && Enabled(Outcome(init, before), DoSnapshot(c))
    requires Schedule(Apply(Outcome(init, before), DoSnapshot(c)), steps)
    requires var end := Outcome(Apply(Outcome(init, before), DoSnapshot(c)), steps);
      c < |end.clients| && end.clients[c].phase.Polling?
    ensures Log(Outcome(init, before).shared)
            <= Outcome(Apply(Outcome(init, before), DoSnapshot(c)), steps).clients[c].shown
  {
    InvInit(init);
    EveryRunKeepsInv(init, before);
    hide OwnersOk, SlotsOk, Schedule, Outcome;
    var s := Outcome(init, before);
    InvStep(s, DoSnapshot(c));
    var looked := Apply(s, DoSnapshot(c));
    EveryRunKeepsInv(looked, steps);
    WillShowOn(looked, c, s.shared.msgTail, steps);
    var end := Outcome(looked, steps);
    assert ReaderOk(end.shared, end.clients[c]);
    assert end.clients[c].shown == Log(end.shared)[..end.clients[c].processed];
    assert Log(s.shared) == Log(end.shared)[..s.shared.msgTail];
  }

  // ----- the shared segment in memory -----

  class SharedMemory {
    const clients: array<Slot>
    const messages: array<Message>
    var clientCount: int
    var nextId: int
    var msgCount: int
    var msgHead: int
    var msgTail: int
    var posts: nat

    ghost function Value(): Shared
      reads this, clients, messages
    {
      Shared(clientCount, nextId, msgCount, msgHead, msgTail, clients[..], messages[..], posts)
    }

    /** The server's initialisation. */
    constructor ()
      ensures fresh(clients) && fresh(messages)
      ensures Value() == Shared(0, 1, 0, 0, 0, seq(MAX_CLIENTS, _ => Slot(0, "", false)),
                          seq(MAX_MESSAGES, _ => Message(0, "", "")), 0)
    {
      clients := new Slot[MAX_CLIENTS](_ => Slot(0, "", false));
      messages := new Message[MAX_MESSAGES](_ => Message(0, "", ""));
      clientCount, nextId, msgCount, msgHead, msgTail, posts := 0, 1, 0, 0, 0, 0;
    }

    method AppendMessage(m: Message)
      requires Sized(Value())
      modifies this`msgTail, this`msgCount, this`posts, messages
      ensures Value() == Append(old(Value()), m)
    {
      var next := (msgTail + 1) % MAX_MESSAGES;
      if next != msgHead {
        messages[msgTail] := m;
        msgTail := next;
        msgCount := msgCount + 1;
        posts := posts + 1;
      }
    }

    method RegisterClient(name: string) returns (clientId: int)
      requires Sized(Value())
      modifies this, clients, messages
      ensures Value() == Register(old(Value()), name)
      ensures clientId == if CanRegister(old(Value()), name) then old(nextId) else -1
    {
      for i := 0 to MAX_CLIENTS
        invariant forall j :: 0 <= j < i ==> !(clients[j].active && clients[j].name == name)
      {
        if clients[i].active && clients[i].name == name {
          return -1;
        }
      }
      var slot := 0;
      while slot < MAX_CLIENTS && clients[slot].active
        invariant 0 <= slot <= MAX_CLIENTS && forall j :: 0 <= j < slot ==> clients[j].active
      {
        slot := slot + 1;
      }
      FreeSlotIs(clients[..], slot);
      if slot == MAX_CLIENTS {
        return -1;
      }
      clientId := nextId;
      nextId := nextId + 1;
      clients[slot] := Slot(clientId, name, true);
      clientCount := clientCount + 1;
      AppendMessage(Message(-1, "SYSTEM", name + " joined the chat"));
    }

    method LeaveChat(clientId: int, name: string)
      requires Sized(Value())
      modifies this, clients, messages
      ensures Value() == Leave(old(Value()), clientId, name)
    {
      var slot := 0;
      while slot < MAX_CLIENTS && !(clients[slot].active && clients[slot].id == clientId)
        invariant 0 <= slot <= MAX_CLIENTS
        invariant forall j :: 0 <= j < slot ==> !(clients[j].active && clients[j].id == clientId)
      {
        slot := slot + 1;
      }
      FirstSlotOf(clients[..], clientId, slot);
      if slot < MAX_CLIENTS {
        clients[slot] := clients[slot].(active := false);
        clientCount := clientCount - 1;
        AppendMessage(Message(messages[msgTail].id, "SYSTEM", name + " left the chat"));
      }
    }

    /** The receiver's inner loop, run to its end without interruption: it shows every message
        between its cursor and its snapshot. */
    method CatchUp(processed: int) returns (processed': int, shown: seq<Message>)
      requires LogOk(Value()) && 0 <= processed <= msgCount
      ensures processed' == msgCount && shown == messages[processed..msgTail]
    {
      var currentCount, currentTail := msgCount, msgTail;
      processed', shown := processed, [];
      while processed' < currentCount
        invariant processed <= processed' <= currentCount
        invariant shown == messages[processed..processed']
      {
        var readPos := (msgHead + processed') % MAX_MESSAGES;
        if readPos != currentTail {
          shown := shown + [messages[readPos]];
          processed' := processed' + 1;
        }
      }
    }
  }

  lemma FreeSlotIs(clients: seq<Slot>, k: nat)
    requires k <= |clients| && (forall i :: 0 <= i < k ==> clients[i].active) && (k < |clients| ==> !clients[k].active)
    ensures FreeSlot(clients) == k
  {
  }

  lemma FirstSlotOf(clients: seq<Slot>, id: int, k: nat)
    requires k <= |clients| && (forall i :: 0 <= i < k ==> !(clients[i].active && clients[i].id == id))
    requires k < |clients| ==> clients[k].active && clients[k].id == id
    ensures SlotOf(clients, id) == k
  {
  }
}
