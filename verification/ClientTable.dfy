/**
 The echo server's client table: an array of at most 100 entries that `remove_client`
 compacts.  It is proved to be a bounded map from (address, port) to a counter, and each
 counter to be a function of the history of datagrams alone.
 */
module ClientTable {
  import opened Checksum

  const MAX_CLIENTS := 100

  datatype Key = Key(ip: uint32, port: uint16)

  datatype Entry = Entry(key: Key, counter: nat)

  /** One datagram for the server, as far as the client table is concerned. */
  datatype Event = Event(key: Key, isShutdown: bool)

  /** What the server does with it: too many clients, client removed, or echo with counter. */
  datatype Verdict = Dropped | Removed | Counted(n: nat)

  // ----- the table as a sequence -----

  ghost predicate Has(t: seq<Entry>, k: Key) {
    t != [] && (t[0].key == k || Has(t[1..], k))
  }

  ghost predicate Unique(t: seq<Entry>) {
    t == [] || (!Has(t[1..], t[0].key) && Unique(t[1..]))
  }

  lemma {:induction false} HasMeans(t: seq<Entry>, k: Key)
    ensures Has(t, k) <==> exists i :: 0 <= i < |t| && t[i].key == k
  {
    if t != [] {
      HasMeans(t[1..], k);
      if i :| 0 <= i < |t[1..]| && t[1..][i].key == k {
        assert t[i + 1].key == k;
      }
      if i :| 0 <= i < |t| && t[i].key == k {
        assert i == 0 || t[1..][i - 1].key == k;
      }
    }
  }

  lemma {:induction false} UniqueMeans(t: seq<Entry>)
    ensures Unique(t) <==> forall i, j :: 0 <= i < j < |t| ==> t[i].key != t[j].key
  {
    if t != [] {
      HasMeans(t[1..], t[0].key);
      UniqueMeans(t[1..]);
      assert forall i, j :: 0 <= i < j < |t[1..]| ==> t[1..][i] == t[i + 1] && t[1..][j] == t[j + 1];
      assert forall j :: 0 < j < |t| ==> t[j] == t[1..][j - 1];
    }
  }

  /** The table without the first entry of k; the others keep their order. */
  ghost function Without(t: seq<Entry>, k: Key): seq<Entry> {
    if t == [] then []
    else if t[0].key == k then t[1..]
    else [t[0]] + Without(t[1..], k)
  }

  /** The table with the counter of the first entry of k raised by one. */
  ghost function Bumped(t: seq<Entry>, k: Key): seq<Entry> {
    if t == [] then []
    else if t[0].key == k then [Entry(k, t[0].counter + 1)] + t[1..]
    else [t[0]] + Bumped(t[1..], k)
  }

  ghost function CounterOf(t: seq<Entry>, k: Key): nat {
    if t == [] then 0 else if t[0].key == k then t[0].counter else CounterOf(t[1..], k)
  }

  ghost predicate FirstAt(t: seq<Entry>, k: Key, i: int) {
    0 <= i < |t| && t[i].key == k && forall j :: 0 <= j < i ==> t[j].key != k
  }

  lemma {:induction false} FirstMatch(t: seq<Entry>, k: Key, i: nat)
    requires FirstAt(t, k, i)
    ensures Has(t, k)
    ensures Without(t, k) == t[..i] + t[i + 1..]
    ensures Bumped(t, k) == t[i := Entry(k, t[i].counter + 1)]
    ensures CounterOf(t, k) == t[i].counter
  {
    if i == 0 {
      assert t[..0] + t[1..] == t[1..];
      assert t[0 := Entry(k, t[0].counter + 1)] == [Entry(k, t[0].counter + 1)] + t[1..];
    } else {
      var rest := t[1..];
      assert rest[i - 1] == t[i];
      FirstMatch(rest, k, i - 1);
      assert Has(t, k) && CounterOf(t, k) == CounterOf(rest, k);
      assert Without(t, k) == [t[0]] + Without(rest, k) && Bumped(t, k) == [t[0]] + Bumped(rest, k);
      hide Has, Without, Bumped, CounterOf;
      assert t[..i] + t[i + 1..] == [t[0]] + (rest[..i - 1] + rest[i..]);
      assert t[i := Entry(k, t[i].counter + 1)] == [t[0]] + rest[i - 1 := Entry(k, t[i].counter + 1)];
    }
  }

  lemma {:induction false} NoMatch(t: seq<Entry>, k: Key)
    requires !Has(t, k)
    ensures Without(t, k) == Bumped(t, k) == t && CounterOf(t, k) == 0
  {
    if t != [] {
      NoMatch(t[1..], k);
    }
  }

  lemma {:induction false} AppendNew(t: seq<Entry>, e: Entry)
    requires !Has(t, e.key)
    ensures Without(t + [e], e.key) == t
    ensures Bumped(t + [e], e.key) == t + [Entry(e.key, e.counter + 1)]
    ensures FirstAt(t + [e], e.key, |t|)
    ensures Unique(t) ==> Unique(t + [e])
    ensures forall k :: Has(t + [e], k) <==> Has(t, k) || k == e.key
  {
    if t != [] {
      AppendNew(t[1..], e);
      assert (t + [e])[1..] == t[1..] + [e];
    }
  }

  /** The effect of one datagram on the table, in the table's order. */
  ghost function TableStep(t: seq<Entry>, e: Event): seq<Entry> {
    if Has(t, e.key) then (if e.isShutdown then Without(t, e.key) else Bumped(t, e.key))
    else if |t| >= MAX_CLIENTS || e.isShutdown then t
    else t + [Entry(e.key, 1)]
  }

  ghost function TableVerdict(t: seq<Entry>, e: Event): Verdict {
    if !Has(t, e.key) && |t| >= MAX_CLIENTS then Dropped
    else if e.isShutdown then Removed
    else Counted(CounterOf(t, e.key) + 1)
  }

  // ----- the table refines a bounded map -----

  ghost function AsMap(t: seq<Entry>): map<Key, nat> {
    if t == [] then map[] else AsMap(t[1..])[t[0].key := t[0].counter]
  }

  ghost function MapStep(m: map<Key, nat>, e: Event): map<Key, nat> {
    if e.key !in m && |m| >= MAX_CLIENTS then m
    else if e.isShutdown then m - {e.key}
    else m[e.key := (if e.key in m then m[e.key] else 0) + 1]
  }

  ghost function MapVerdict(m: map<Key, nat>, e: Event): Verdict {
    if e.key !in m && |m| >= MAX_CLIENTS then Dropped
    else if e.isShutdown then Removed
    else Counted((if e.key in m then m[e.key] else 0) + 1)
  }

  lemma {:induction false} AsMapLookup(t: seq<Entry>, k: Key)
    ensures k in AsMap(t) <==> Has(t, k)
    ensures k in AsMap(t) ==> AsMap(t)[k] == CounterOf(t, k)
    ensures Unique(t) ==> |AsMap(t)| == |t|
  {
    if t != [] {
      AsMapLookup(t[1..], k);
      AsMapLookup(t[1..], t[0].key);
    }
  }

  lemma AsMapCons(e: Entry, t: seq<Entry>)
    ensures AsMap([e] + t) == AsMap(t)[e.key := e.counter]
  {
    assert ([e] + t)[1..] == t;
  }

  lemma RemoveAdded<K, V>(m: map<K, V>, k: K, x: K, v: V)
    ensures k !in m ==> m[k := v] - {k} == m
    ensures x != k ==> m[x := v] - {k} == (m - {k})[x := v]
  {
  }

  lemma {:induction false} WithoutIsMapRemove(t: seq<Entry>, k: Key)
    requires Unique(t)
    ensures AsMap(Without(t, k)) == AsMap(t) - {k}
  {
    if t != [] {
      var e, rest := t[0], t[1..];
      AsMapLookup(rest, k);
      RemoveAdded(AsMap(rest), k, e.key, e.counter);
      if e.key != k {
        WithoutIsMapRemove(rest, k);
        WithoutCons(e, rest, k);
        hide AsMap, Has, Unique, Without;
        AsMapCons(e, Without(rest, k));
        AsMapCons(e, rest);
        assert t == [e] + rest;
      }
    }
  }

  lemma WithoutCons(e: Entry, t: seq<Entry>, k: Key)
    requires e.key != k
    ensures Without([e] + t, k) == [e] + Without(t, k)
  {
    assert ([e] + t)[1..] == t;
  }

  lemma {:induction false} WithoutStaysUnique(t: seq<Entry>, k: Key)
    requires Unique(t)
    ensures Unique(Without(t, k)) && |Without(t, k)| <= |t|
  {
    if t != [] && t[0].key != k {
      WithoutStaysUnique(t[1..], k);
      WithoutIsMapRemove(t[1..], k);
      AsMapLookup(t[1..], t[0].key);
      AsMapLookup(Without(t[1..], k), t[0].key);
    }
  }

  lemma {:induction false} BumpedIsMapUpdate(t: seq<Entry>, k: Key)
    requires Unique(t) && Has(t, k)
    ensures k in AsMap(t) && AsMap(Bumped(t, k)) == AsMap(t)[k := AsMap(t)[k] + 1]
    ensures Unique(Bumped(t, k)) && |Bumped(t, k)| == |t|
  {
    if t[0].key != k {
      BumpedIsMapUpdate(t[1..], k);
      AsMapLookup(t[1..], t[0].key);
      AsMapLookup(Bumped(t[1..], k), t[0].key);
    }
  }

  lemma {:induction false} AppendIsMapUpdate(t: seq<Entry>, e: Entry)
    requires !Has(t, e.key)
    ensures AsMap(t + [e]) == AsMap(t)[e.key := e.counter]
  {
    if t == [] {
      assert (t + [e])[1..] == [];
    } else {
      AppendIsMapUpdate(t[1..], e);
      assert (t + [e])[1..] == t[1..] + [e];
    }
  }

  /** One datagram does to the table, seen as a map, what it does to the bounded map; keys
      stay unique, and an unknown client's SHUTDOWN leaves the table as it is. */
  lemma TableRefinesMap(t: seq<Entry>, e: Event)
    requires Unique(t) && |t| <= MAX_CLIENTS
    ensures Unique(TableStep(t, e)) && |TableStep(t, e)| <= MAX_CLIENTS
    ensures AsMap(TableStep(t, e)) == MapStep(AsMap(t), e)
    ensures TableVerdict(t, e) == MapVerdict(AsMap(t), e)
    ensures !Has(t, e.key) && e.isShutdown ==> TableStep(t, e) == t
  {
    hide AsMap, Unique, Has, Without, Bumped, CounterOf;
    AsMapLookup(t, e.key);
    if Has(t, e.key) {
      WithoutIsMapRemove(t, e.key);
      WithoutStaysUnique(t, e.key);
      BumpedIsMapUpdate(t, e.key);
    } else {
      NoMatch(t, e.key);
      AppendNew(t, Entry(e.key, 1));
      AppendIsMapUpdate(t, Entry(e.key, 1));
    }
  }

  // ----- counters as a function of the history -----

  /** The packets counted for k: accepted ones other than SHUTDOWN since k's last accepted
      SHUTDOWN.  A packet is accepted if its key is active or fewer than 100 keys are. */
  ghost function Count(events: seq<Event>, k: Key): nat
    decreases |events|, 0
  {
    if events == [] then 0
    else
      var past, e := events[..|events| - 1], events[|events| - 1];
      if e.key != k || !Accepted(past, e) then Count(past, k)
      else if e.isShutdown then 0
      else Count(past, k) + 1
  }

  ghost predicate Accepted(past: seq<Event>, e: Event)
    decreases |past|, 2
  {
    e.key in Active(past) || |Active(past)| < MAX_CLIENTS
  }

  ghost function Active(events: seq<Event>): set<Key>
    decreases |events|, 1
  {
    set i | 0 <= i < |events| && Count(events, events[i].key) > 0 :: events[i].key
  }

  ghost function HistoryMap(events: seq<Event>): map<Key, nat> {
    map k | k in Active(events) :: Count(events, k)
  }

  ghost function HistoryVerdict(past: seq<Event>, e: Event): Verdict {
    if !Accepted(past, e) then Dropped
    else if e.isShutdown then Removed
    else Counted(Count(past + [e], e.key))
  }

  lemma {:induction false} OnlySeenKeysCount(events: seq<Event>, k: Key)
    ensures k in Active(events) <==> Count(events, k) > 0
    decreases |events|
  {
    if events != [] && Count(events, k) > 0 {
      var past, e := events[..|events| - 1], events[|events| - 1];
      if e.key != k {
        OnlySeenKeysCount(past, k);
        var i :| 0 <= i < |past| && past[i].key == k;
        assert events[i].key == k;
      }
    }
  }

  lemma MapFollowsHistory(past: seq<Event>, e: Event)
    ensures HistoryMap(past + [e]) == MapStep(HistoryMap(past), e)
    ensures HistoryVerdict(past, e) == MapVerdict(HistoryMap(past), e)
  {
    var events := past + [e];
    assert events[..|events| - 1] == past;
    assert HistoryMap(past).Keys == Active(past);
    OnlySeenKeysCount(past, e.key);
    forall k
      ensures k in HistoryMap(events) <==> k in MapStep(HistoryMap(past), e)
      ensures k in HistoryMap(events) ==> HistoryMap(events)[k] == MapStep(HistoryMap(past), e)[k]
    {
      OnlySeenKeysCount(events, k);
      OnlySeenKeysCount(past, k);
    }
  }

  /** A table that agrees with the history keeps agreeing with it. */
  lemma TableFollowsHistory(t: seq<Entry>, past: seq<Event>, e: Event)
    requires Unique(t) && |t| <= MAX_CLIENTS && AsMap(t) == HistoryMap(past)
    ensures AsMap(TableStep(t, e)) == HistoryMap(past + [e])
    ensures TableVerdict(t, e) == HistoryVerdict(past, e)
  {
    TableRefinesMap(t, e);
    MapFollowsHistory(past, e);
  }

  lemma ShutdownForgets(t: seq<Entry>, k: Key)
    requires Unique(t) && |t| <= MAX_CLIENTS
    ensures AsMap(TableStep(t, Event(k, true))) == AsMap(t) - {k}
  {
    TableRefinesMap(t, Event(k, true));
  }

  /** The verdicts on a whole history. */
  ghost predicate FollowsHistory(events: seq<Event>, verdicts: seq<Verdict>) {
    |verdicts| == |events| &&
    forall i :: 0 <= i < |events| ==> verdicts[i] == HistoryVerdict(events[..i], events[i])
  }

  lemma FollowsHistoryExtend(events: seq<Event>, verdicts: seq<Verdict>, e: Event, v: Verdict)
    requires FollowsHistory(events, verdicts) && v == HistoryVerdict(events, e)
    ensures FollowsHistory(events + [e], verdicts + [v])
  {
    var more := events + [e];
    forall i | 0 <= i < |more|
      ensures (verdicts + [v])[i] == HistoryVerdict(more[..i], more[i])
    {
      if i < |events| {
        assert more[..i] == events[..i] && more[i] == events[i];
      } else {
        assert more[..i] == events;
      }
    }
  }

  // ----- the table in memory -----

  class Clients {
    const clients: array<Entry>
    var numClients: nat

    ghost predicate Valid()
      reads this, clients
    {
      clients.Length == MAX_CLIENTS && numClients <= MAX_CLIENTS && Unique(clients[..numClients])
    }

    ghost function Contents(): seq<Entry>
      reads this, clients
      requires numClients <= clients.Length
    {
      clients[..numClients]
    }

    constructor (blank: Entry)
      ensures Valid() && Contents() == [] && fresh(clients)
    {
      clients := new Entry[MAX_CLIENTS](_ => blank);
      numClients := 0;
    }

    method FindClient(k: Key) returns (found: int)
      requires numClients <= clients.Length
      ensures if found >= 0 then FirstAt(Contents(), k, found) else found == -1 && !Has(Contents(), k)
    {
      for i := 0 to numClients
        invariant forall j :: 0 <= j < i ==> clients[j].key != k
      {
        if clients[i].key == k {
          return i;
        }
      }
      HasMeans(Contents(), k);
      return -1;
    }

    method AddClient(k: Key) returns (added: int)
      requires numClients <= clients.Length == MAX_CLIENTS
      modifies this`numClients, clients
      ensures numClients <= clients.Length
      ensures added == if old(numClients) >= MAX_CLIENTS then -1 else old(numClients)
      ensures Contents() == if added < 0 then old(Contents()) else old(Contents()) + [Entry(k, 0)]
    {
      if numClients >= MAX_CLIENTS {
        return -1;
      }
      clients[numClients] := Entry(k, 0);
      numClients := numClients + 1;
      return numClients - 1;
    }

    method RemoveClient(k: Key)
      requires numClients <= clients.Length
      modifies this`numClients, clients
      ensures numClients <= clients.Length
      ensures Contents() == Without(old(Contents()), k)
    {
      hide Without, Has, Bumped, CounterOf;
      ghost var was := Contents();
      for i := 0 to numClients
        invariant numClients == old(numClients) && Contents() == was
        invariant forall j :: 0 <= j < i ==> was[j].key != k
      {
        if clients[i].key == k {
          FirstMatch(was, k, i);
          for j := i to numClients - 1
            invariant numClients == |was|
            invariant forall m :: 0 <= m < j ==> clients[m] == (was[..i] + was[i + 1..])[m]
            invariant forall m :: j <= m < numClients ==> clients[m] == was[m]
          {
            clients[j] := clients[j + 1];
          }
          numClients := numClients - 1;
          return;
        }
      }
      HasMeans(was, k);
      NoMatch(was, k);
    }

    /** What the main loop does between parsing and answering. */
    method Handle(e: Event) returns (verdict: Verdict)
      requires Valid()
      modifies this`numClients, clients
      ensures Valid()
      ensures Contents() == TableStep(old(Contents()), e)
      ensures verdict == TableVerdict(old(Contents()), e)
    {
      hide AsMap, MapStep, MapVerdict, Unique, Has, Without, Bumped, CounterOf;
      ghost var was := Contents();
      TableRefinesMap(was, e);
      var entry := FindClient(e.key);
      if entry < 0 {
        entry := AddClient(e.key);
        if entry < 0 {
          return Dropped;
        }
        AppendNew(was, Entry(e.key, 0));
        NoMatch(was, e.key);
      } else {
        FirstMatch(was, e.key, entry);
      }
      FirstMatch(Contents(), e.key, entry);
      if e.isShutdown {
        RemoveClient(e.key);
        return Removed;
      }
      clients[entry] := Entry(e.key, clients[entry].counter + 1);
      verdict := Counted(clients[entry].counter);
    }

    /** The main loop over a whole sequence of datagrams, on a fresh table: every verdict is
        the one the history determines. */
    method Serve(events: seq<Event>) returns (verdicts: seq<Verdict>)
      requires Valid() && Contents() == []
      modifies this`numClients, clients
      ensures Valid() && AsMap(Contents()) == HistoryMap(events)
      ensures FollowsHistory(events, verdicts)
    {
      verdicts := [];
      for i := 0 to |events|
        invariant Valid() && AsMap(Contents()) == HistoryMap(events[..i])
        invariant FollowsHistory(events[..i], verdicts)
      {
        TableFollowsHistory(Contents(), events[..i], events[i]);
        var verdict := Handle(events[i]);
        assert events[..i + 1] == events[..i] + [events[i]];
        FollowsHistoryExtend(events[..i], verdicts, events[i], verdict);
        verdicts := verdicts + [verdict];
      }
      assert events[..|events|] == events;
    }
  }
}
