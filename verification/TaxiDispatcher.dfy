/**
 The taxi dispatcher's driver table: an array that grows by doubling, is compacted when a
 driver goes, and is swept - and compacted - while its drivers' lines are read.
 */
module TaxiDispatcher {
  import opened Decimal
  import opened LineFraming
  import opened TaxiDriver

  datatype Entry = Entry(pid: int, readFd: int, writeFd: int, busy: bool, endTime: int)

  /** What is still to come on each open descriptor. */
  type Incoming = map<int, seq<ReadResult>>

  /** How one line changes what the dispatcher knows of a driver: strcmp "Available",
      strncmp "Busy", sscanf "Busy %d". */
  function Update(d: Entry, line: string, now: int): Entry {
    if line == "Available" then d.(busy := false)
    else if StartsWith(line, "Busy") then
      match Scan(line[4..])
      case Some(rem) => d.(busy := true, endTime := now + rem)
      case None => d
    else d
  }

  // ----- the sweep as a function of the table before it -----

  /** read_line on a driver's pipe returns 0 or -1. */
  predicate Hangs(r: LineResult) {
    r.Error? || r.s == ""
  }

  predicate Removed(d: Entry, ready: set<int>, incoming: Incoming)
    requires d.readFd in incoming
  {
    d.readFd in ready && Hangs(ReadLine(incoming[d.readFd]).0)
  }

  /** The line read from a driver that is ready and does not hang up. */
  function Heard(d: Entry, ready: set<int>, incoming: Incoming): Option<string>
    requires d.readFd in incoming
  {
    if d.readFd in ready && !Removed(d, ready, incoming) then Some(ReadLine(incoming[d.readFd]).0.s) else None
  }

  function Seen(d: Entry, ready: set<int>, incoming: Incoming, clock: Entry -> int): Entry
    requires d.readFd in incoming && !Removed(d, ready, incoming)
  {
    if d.readFd in ready then Update(d, ReadLine(incoming[d.readFd]).0.s, clock(d)) else d
  }

  ghost predicate Open(ds: seq<Entry>, incoming: Incoming) {
    forall i :: 0 <= i < |ds| ==> ds[i].readFd in incoming
  }

  ghost predicate DistinctFds(ds: seq<Entry>) {
    forall i, j :: 0 <= i < j < |ds| ==> ds[i].readFd != ds[j].readFd
  }

  /** The survivors, in their old order, each with its line taken into account. */
  function Survivors(ds: seq<Entry>, ready: set<int>, incoming: Incoming, clock: Entry -> int): seq<Entry>
    requires Open(ds, incoming)
  {
    if ds == [] then []
    else
      var front, d := ds[..|ds| - 1], ds[|ds| - 1];
      Survivors(front, ready, incoming, clock)
      + if Removed(d, ready, incoming) then [] else [Seen(d, ready, incoming, clock)]
  }

  /** The descriptors of those removed, each driver's two. */
  function ClosedFds(ds: seq<Entry>, ready: set<int>, incoming: Incoming): seq<int>
    requires Open(ds, incoming)
  {
    if ds == [] then []
    else
      var front, d := ds[..|ds| - 1], ds[|ds| - 1];
      ClosedFds(front, ready, incoming) + if Removed(d, ready, incoming) then [d.readFd, d.writeFd] else []
  }

  /** What is still to come from a driver after the sweep: one line less if it was ready. */
  function Rest(d: Entry, ready: set<int>, incoming: Incoming): seq<ReadResult>
    requires d.readFd in incoming
  {
    if d.readFd in ready then ReadLine(incoming[d.readFd]).1 else incoming[d.readFd]
  }

  /** The pipes after the sweep. */
  function Drained(ds: seq<Entry>, ready: set<int>, incoming: Incoming): Incoming
    requires Open(ds, incoming)
  {
    if ds == [] then incoming
    else
      var front, d := ds[..|ds| - 1], ds[|ds| - 1];
      Drained(front, ready, incoming)[d.readFd := Rest(d, ready, incoming)]
  }

  /** From every ready driver's pipe one line was taken, and nothing from any other pipe. */
  lemma {:induction false} DrainedMeans(ds: seq<Entry>, ready: set<int>, incoming: Incoming)
    requires Open(ds, incoming) && DistinctFds(ds)
    ensures Drained(ds, ready, incoming).Keys == incoming.Keys
    ensures forall i :: 0 <= i < |ds| ==> Drained(ds, ready, incoming)[ds[i].readFd] == Rest(ds[i], ready, incoming)
    ensures forall fd :: fd in incoming && (forall i :: 0 <= i < |ds| ==> ds[i].readFd != fd) ==>
      Drained(ds, ready, incoming)[fd] == incoming[fd]
  {
    hide Rest;
    if ds != [] {
      var front := ds[..|ds| - 1];
      DrainedMeans(front, ready, incoming);
      assert forall i :: 0 <= i < |front| ==> front[i] == ds[i];
    }
  }

  lemma DrainedSoFar(ds: seq<Entry>, k: nat, ready: set<int>, incoming: Incoming)
    requires Open(ds, incoming) && DistinctFds(ds) && k <= |ds|
    ensures Drained(ds[..k], ready, incoming).Keys == incoming.Keys
    ensures forall j :: k <= j < |ds| ==> Drained(ds[..k], ready, incoming)[ds[j].readFd] == incoming[ds[j].readFd]
  {
    hide Rest, Drained;
    DrainedMeans(ds[..k], ready, incoming);
    assert forall i :: 0 <= i < k ==> ds[..k][i] == ds[i];
  }

  lemma SweepExtend(ds: seq<Entry>, k: nat, ready: set<int>, incoming: Incoming, clock: Entry -> int)
    requires Open(ds, incoming) && k < |ds|
    ensures Survivors(ds[..k + 1], ready, incoming, clock) == Survivors(ds[..k], ready, incoming, clock)
      + if Removed(ds[k], ready, incoming) then [] else [Seen(ds[k], ready, incoming, clock)]
    ensures ClosedFds(ds[..k + 1], ready, incoming) == ClosedFds(ds[..k], ready, incoming)
      + if Removed(ds[k], ready, incoming) then [ds[k].readFd, ds[k].writeFd] else []
    ensures Drained(ds[..k + 1], ready, incoming)
            == Drained(ds[..k], ready, incoming)[ds[k].readFd := Rest(ds[k], ready, incoming)]
  {
    assert ds[..k + 1][..k] == ds[..k];
  }

  /** Exactly the drivers that hung up are gone, and the others are still there. */
  lemma {:induction false} SurvivorsMeans(ds: seq<Entry>, ready: set<int>, incoming: Incoming, clock: Entry -> int)
    requires Open(ds, incoming)
    ensures forall d :: d in Survivors(ds, ready, incoming, clock) <==>
      exists i :: 0 <= i < |ds| && !Removed(ds[i], ready, incoming) && d == Seen(ds[i], ready, incoming, clock)
    ensures |Survivors(ds, ready, incoming, clock)| + |ClosedFds(ds, ready, incoming)| / 2 == |ds|
    ensures |ClosedFds(ds, ready, incoming)| % 2 == 0
  {
    if ds != [] {
      var front := ds[..|ds| - 1];
      SurvivorsMeans(front, ready, incoming, clock);
      assert forall i :: 0 <= i < |front| ==> front[i] == ds[i];
      assert ds == front + [ds[|ds| - 1]];
    }
  }

  /** A driver goes exactly if select found it ready and it has nothing more to say. */
  lemma RemovedIff(d: Entry, ready: set<int>, incoming: Incoming)
    requires d.readFd in incoming
    ensures Removed(d, ready, incoming) <==> d.readFd in ready && ReadAll(incoming[d.readFd]) == []
  {
    hide ReadFrom;
  }

  /** Where in the old table the survivors stood. */
  function Places(ds: seq<Entry>, ready: set<int>, incoming: Incoming): (ps: seq<nat>)
    requires Open(ds, incoming)
    ensures forall a :: 0 <= a < |ps| ==> ps[a] < |ds|
  {
    if ds == [] then []
    else
      var last := |ds| - 1;
      Places(ds[..last], ready, incoming) + if Removed(ds[last], ready, incoming) then [] else [last]
  }

  /** The survivors stand in their old order. */
  lemma {:induction false} SurvivorsInOrder(ds: seq<Entry>, ready: set<int>, incoming: Incoming, clock: Entry -> int)
    requires Open(ds, incoming)
    ensures var ps, kept := Places(ds, ready, incoming), Survivors(ds, ready, incoming, clock);
      && |kept| == |ps| && (forall a, b :: 0 <= a < b < |ps| ==> ps[a] < ps[b])
      && forall a :: 0 <= a < |ps| ==>
           !Removed(ds[ps[a]], ready, incoming) && kept[a] == Seen(ds[ps[a]], ready, incoming, clock)
  {
    hide Removed, Seen;
    if ds != [] {
      var front, d := ds[..|ds| - 1], ds[|ds| - 1];
      SurvivorsInOrder(front, ready, incoming, clock);
      var ps, kept := Places(front, ready, incoming), Survivors(front, ready, incoming, clock);
      forall a | 0 <= a < |ps|
        ensures front[ps[a]] == ds[ps[a]]
      {
      }
      assert Places(ds, ready, incoming) == ps + if Removed(d, ready, incoming) then [] else [|ds| - 1];
      assert Survivors(ds, ready, incoming, clock)
             == kept + if Removed(d, ready, incoming) then [] else [Seen(d, ready, incoming, clock)];
      hide Places, Survivors;
    }
  }

  lemma {:induction false} SurvivorsStayDistinct(ds: seq<Entry>, ready: set<int>, incoming: Incoming,
                                                 clock: Entry -> int)
    requires Open(ds, incoming) && DistinctFds(ds)
    ensures Open(Survivors(ds, ready, incoming, clock), incoming)
    ensures DistinctFds(Survivors(ds, ready, incoming, clock))
  {
    if ds != [] {
      var front, d := ds[..|ds| - 1], ds[|ds| - 1];
      SurvivorsStayDistinct(front, ready, incoming, clock);
      var kept := Survivors(front, ready, incoming, clock);
      forall m | 0 <= m < |kept|
        ensures kept[m].readFd != d.readFd
      {
        SurvivorsMeans(front, ready, incoming, clock);
        assert kept[m] in kept;
        var i :| 0 <= i < |front| && !Removed(front[i], ready, incoming)
          && kept[m] == Seen(front[i], ready, incoming, clock);
        assert front[i] == ds[i];
      }
    }
  }

  lemma HalfSweptStaysDistinct(ds: seq<Entry>, k: nat, ready: set<int>, incoming: Incoming, clock: Entry -> int)
    requires Open(ds, incoming) && DistinctFds(ds) && k <= |ds|
    ensures Open(Survivors(ds[..k], ready, incoming, clock) + ds[k..], incoming)
    ensures DistinctFds(Survivors(ds[..k], ready, incoming, clock) + ds[k..])
  {
    hide Survivors, ClosedFds;
    SurvivorsStayDistinct(ds[..k], ready, incoming, clock);
    SurvivorsMeans(ds[..k], ready, incoming, clock);
    var kept := Survivors(ds[..k], ready, incoming, clock);
    forall m, j | 0 <= m < |kept| && k <= j < |ds|
      ensures kept[m].readFd != ds[j].readFd
    {
      assert kept[m] in kept;
      var i :| 0 <= i < |ds[..k]| && !Removed(ds[..k][i], ready, incoming)
        && kept[m] == Seen(ds[..k][i], ready, incoming, clock);
      assert ds[..k][i] == ds[i];
    }
  }

  /** A driver whose line is taken for the answer that is waited for. */
  predicate IsAnswerOf(d: Entry, pid: int, ready: set<int>, incoming: Incoming)
    requires d.readFd in incoming
  {
    d.pid == pid && Heard(d, ready, incoming).Some?
  }

  /** None of the first k drivers gave that answer. */
  ghost predicate NoAnswer(ds: seq<Entry>, k: nat, pid: int, ready: set<int>, incoming: Incoming)
    requires Open(ds, incoming) && k <= |ds|
  {
    forall j :: 0 <= j < k ==> !IsAnswerOf(ds[j], pid, ready, incoming)
  }

  lemma NoAnswerNext(ds: seq<Entry>, k: nat, pid: int, ready: set<int>, incoming: Incoming)
    requires Open(ds, incoming) && k < |ds| && NoAnswer(ds, k, pid, ready, incoming)
    ensures NoAnswer(ds, k + 1, pid, ready, incoming)
      <==> !(ds[k].pid == pid && Heard(ds[k], ready, incoming).Some?)
    ensures IsAnswerOf(ds[k], pid, ready, incoming) <==> ds[k].pid == pid && Heard(ds[k], ready, incoming).Some?
  {
  }

  /** The drivers from k on keep the lines they have. */
  ghost predicate KeepLines(ds: seq<Entry>, k: nat, before: Incoming, after: Incoming)
    requires Open(ds, before)
  {
    forall j :: k <= j < |ds| ==> ds[j].readFd in after && after[ds[j].readFd] == before[ds[j].readFd]
  }

  lemma NewStaysDistinct(ds: seq<Entry>, d: Entry, incoming: Incoming)
    requires Open(ds, incoming) && DistinctFds(ds) && d.readFd in incoming
    requires forall e :: e in ds ==> e.readFd != d.readFd
    ensures Open(ds + [d], incoming) && DistinctFds(ds + [d])
  {
  }

  // ----- sweep after sweep -----

  /** One sweep: the descriptors select found ready, and the clock while it ran. */
  datatype Round = Round(ready: set<int>, clock: Entry -> int)

  /** In how many of the rounds a descriptor was ready. */
  function TimesReady(fd: int, rounds: seq<Round>): nat {
    if rounds == [] then 0 else (if fd in rounds[0].ready then 1 else 0) + TimesReady(fd, rounds[1..])
  }

  /** What the dispatcher knows of a driver that tells it those lines, one in each round in
      which it was ready. */
  function Told(d: Entry, lines: seq<string>, rounds: seq<Round>): (e: Entry)
    requires |lines| == TimesReady(d.readFd, rounds)
    ensures e.readFd == d.readFd
    decreases |rounds|
  {
    if rounds == [] then d
    else if d.readFd in rounds[0].ready then Told(Update(d, lines[0], rounds[0].clock(d)), lines[1..], rounds[1..])
    else Told(d, lines, rounds[1..])
  }

  /** The next line of a driver that still has lines to say. */
  lemma NextLine(d: Entry, ready: set<int>, incoming: Incoming, clock: Entry -> int)
    requires d.readFd in incoming && d.readFd in ready && ReadAll(incoming[d.readFd]) != []
    ensures var lines := ReadAll(incoming[d.readFd]);
      && !Removed(d, ready, incoming)
      && Seen(d, ready, incoming, clock) == Update(d, lines[0], clock(d))
      && ReadAll(Rest(d, ready, incoming)) == lines[1..]
  {
    hide Update, ReadFrom;
  }

  /** What one sweep does to a driver that has lines to say if it is ready. */
  lemma DriverSwept(ds: seq<Entry>, d: Entry, ready: set<int>, incoming: Incoming, clock: Entry -> int)
    requires Open(ds, incoming) && DistinctFds(ds) && d in ds
    requires d.readFd in ready ==> ReadAll(incoming[d.readFd]) != []
    ensures var lines := ReadAll(incoming[d.readFd]);
      && Drained(ds, ready, incoming).Keys == incoming.Keys
      && if d.readFd in ready
         then
           && Update(d, lines[0], clock(d)) in Survivors(ds, ready, incoming, clock)
           && ReadAll(Drained(ds, ready, incoming)[d.readFd]) == lines[1..]
         else
           && d in Survivors(ds, ready, incoming, clock)
           && Drained(ds, ready, incoming)[d.readFd] == incoming[d.readFd]
  {
    var i :| 0 <= i < |ds| && ds[i] == d;
    DrainedMeans(ds, ready, incoming);
    SurvivorsMeans(ds, ready, incoming, clock);
    if d.readFd in ready {
      NextLine(d, ready, incoming, clock);
    }
    hide Survivors, Drained, Update, ReadFrom, ReadAll;
    assert !Removed(ds[i], ready, incoming);
    assert Seen(ds[i], ready, incoming, clock) in Survivors(ds, ready, incoming, clock);
  }

  // ----- the table in memory -----

  class Dispatcher {
    var drivers: array<Entry>      // its length is max_drivers
    var numDrivers: nat
    var incoming: Incoming
    var closed: seq<int>

    ghost predicate Valid()
      reads this, drivers
    {
      numDrivers <= drivers.Length && Open(drivers[..numDrivers], incoming) && DistinctFds(drivers[..numDrivers])
    }

    ghost function Contents(): seq<Entry>
      reads this, drivers
      requires numDrivers <= drivers.Length
    {
      drivers[..numDrivers]
    }

    constructor ()
      ensures Valid() && Contents() == [] && closed == [] && fresh(drivers)
    {
      drivers := new Entry[0];
      numDrivers, incoming, closed := 0, map[], [];
    }

    /** `find_driver`: the first driver with that pid, or -1. */
    method FindDriver(pid: int) returns (idx: int)
      requires Valid()
      ensures -1 <= idx < numDrivers
      ensures idx >= 0 ==> Contents()[idx].pid == pid && forall j :: 0 <= j < idx ==> Contents()[j].pid != pid
      ensures idx < 0 ==> forall j :: 0 <= j < numDrivers ==> Contents()[j].pid != pid
    {
      for i := 0 to numDrivers
        invariant forall j :: 0 <= j < i ==> drivers[j].pid != pid
      {
        if drivers[i].pid == pid {
          return i;
        }
      }
      return -1;
    }

    /** The pipe from a new driver, whose descriptor the kernel has not given out to another
        one, and its entry. */
    method CreateDriver(pid: int, readFd: int, writeFd: int, lines: seq<ReadResult>)
      requires Valid() && forall d :: d in Contents() ==> d.readFd != readFd
      modifies this`drivers, this`numDrivers, this`incoming, drivers
      ensures Valid() && (drivers == old(drivers) || fresh(drivers))
      ensures Contents() == old(Contents()) + [Entry(pid, readFd, writeFd, false, 0)]
      ensures incoming == old(incoming)[readFd := lines]
    {
      incoming := incoming[readFd := lines];
      AddDriver(pid, readFd, writeFd);
    }

    /** `add_driver`: the table grows from 4 by doubling and keeps what it holds. */
    method AddDriver(pid: int, readFd: int, writeFd: int)
      requires Valid() && readFd in incoming && forall d :: d in Contents() ==> d.readFd != readFd
      modifies this`drivers, this`numDrivers, drivers
      ensures Valid() && (drivers == old(drivers) || fresh(drivers))
      ensures Contents() == old(Contents()) + [Entry(pid, readFd, writeFd, false, 0)]
      ensures drivers.Length == if old(numDrivers) < old(drivers.Length) then old(drivers.Length)
        else if old(drivers.Length) == 0 then 4 else 2 * old(drivers.Length)
    {
      var entry := Entry(pid, readFd, writeFd, false, 0);
      ghost var was := Contents();
      NewStaysDistinct(was, entry, incoming);
      hide DistinctFds, Open;
      if numDrivers >= drivers.Length {
        var maxDrivers := if drivers.Length != 0 then 2 * drivers.Length else 4;
        var grown := new Entry[maxDrivers](_ => entry);
        forall i | 0 <= i < numDrivers {
          grown[i] := drivers[i];
        }
        drivers := grown;
      }
      assert drivers[..numDrivers] == was;
      drivers[numDrivers] := entry;
      numDrivers := numDrivers + 1;
      assert Contents() == was + [entry];
    }

    /** `remove_driver`: closes both descriptors and moves the rest down. */
    method RemoveDriver(idx: int)
      requires numDrivers <= drivers.Length
      modifies this`numDrivers, this`closed, drivers
      ensures numDrivers <= drivers.Length
      ensures if 0 <= idx < old(numDrivers)
        then Contents() == old(Contents())[..idx] + old(Contents())[idx + 1..] &&
             closed == old(closed) + [old(Contents())[idx].readFd, old(Contents())[idx].writeFd]
        else Contents() == old(Contents()) && closed == old(closed)
    {
      if idx < 0 || idx >= numDrivers {
        return;
      }
      ghost var was := Contents();
      closed := closed + [drivers[idx].readFd, drivers[idx].writeFd];
      for i := idx to numDrivers - 1
        invariant numDrivers == |was| && closed == old(closed) + [was[idx].readFd, was[idx].writeFd]
        invariant forall m :: 0 <= m < i ==> drivers[m] == (was[..idx] + was[idx + 1..])[m]
        invariant forall m :: i <= m < numDrivers ==> drivers[m] == was[m]
      {
        drivers[i] := drivers[i + 1];
      }
      numDrivers := numDrivers - 1;
    }

    /** What one round of the sweep does with the driver at i, which is the k-th of the table
        `was` before the sweep; the loop's `i--` shows in the returned index. */
    method SweepOne(i: int, ready: set<int>, clock: Entry -> int,
                    ghost was: seq<Entry>, ghost k: nat, ghost before: Incoming)
      returns (next: int, got: Option<string>)
      requires Open(was, before) && DistinctFds(was)
      requires SweepState(was, k, before, ready, clock, i) && k < |was|
      modifies this`numDrivers, this`closed, this`incoming, drivers
      ensures drivers == old(drivers) && numDrivers <= drivers.Length
      ensures closed == old(closed) + if Removed(was[k], ready, before) then [was[k].readFd, was[k].writeFd] else []
      ensures SweepState(was, k + 1, before, ready, clock, next)
      ensures got == Heard(was[k], ready, before)
    {
      hide Survivors, ClosedFds, Drained, Update, ReadFrom;
      next, got := i, None;
      SweepExtend(was, k, ready, before, clock);
      DrainedSoFar(was, k, ready, before);
      assert incoming[was[k].readFd := before[was[k].readFd]] == incoming;
      ghost var done := Survivors(was[..k], ready, before, clock);
      assert drivers[i] == Contents()[i] == was[k];
      if drivers[i].readFd in ready {
        var fd := drivers[i].readFd;
        var (r, rest) := ReadLine(incoming[fd]);
        incoming := incoming[fd := rest];
        if Hangs(r) {
          RemoveDriver(i);
          next := next - 1;
        } else {
          drivers[i] := Update(drivers[i], r.s, clock(drivers[i]));
          got := Some(r.s);
        }
      }
      next := next + 1;
    }

    /** The first k drivers of the old table are dealt with; the others are as they were. */
    ghost predicate SweepState(was: seq<Entry>, k: nat, before: Incoming, ready: set<int>, clock: Entry -> int, i: int)
      reads this, drivers
      requires Open(was, before)
    {
      && k <= |was| && numDrivers <= drivers.Length
      && i == |Survivors(was[..k], ready, before, clock)|
      && Contents() == Survivors(was[..k], ready, before, clock) + was[k..]
      && incoming == Drained(was[..k], ready, before)
    }

    /** The sweep after a command: it ends, deals with each driver of the old table once, in
        order, takes one line from each that is ready and none from the others, removes exactly
        those that are ready and hang up, keeps the others in order, and closes the two
        descriptors of each removed driver once. */
    method Sweep(ready: set<int>, clock: Entry -> int) returns (ghost handled: seq<Entry>)
      requires Valid()
      modifies this`numDrivers, this`closed, this`incoming, drivers
      ensures Valid()
      ensures Contents() == Survivors(old(Contents()), ready, old(incoming), clock)
      ensures closed == old(closed) + ClosedFds(old(Contents()), ready, old(incoming))
      ensures incoming == Drained(old(Contents()), ready, old(incoming))
      ensures handled == old(Contents())
    {
      hide Survivors, ClosedFds, Drained, Removed, Seen, DistinctFds, SweepState;
      ghost var was, before, k := Contents(), incoming, 0;
      handled := [];
      var i := 0;
      SweepStarts(was, before, ready, clock);
      while i < numDrivers
        invariant drivers == old(drivers) && Open(was, before) && DistinctFds(was)
        invariant k <= |was| && SweepState(was, k, before, ready, clock, i)
        invariant numDrivers - i == |was| - k
        invariant closed == old(closed) + ClosedFds(was[..k], ready, before)
        invariant handled == was[..k]
        decreases |was| - k
      {
        SweepExtend(was, k, ready, before, clock);
        handled := handled + [was[k]];
        var got;
        i, got := SweepOne(i, ready, clock, was, k, before);
        k := k + 1;
        SweepMeasure(was, k, before, ready, clock, i);
      }
      assert was[..k] == was;
      SweepEnds(was, before, ready, clock, i);
    }

    /** The main loop's sweeps, one after the other.  A driver whose pipe holds enough lines tells
        them in their order, one in each sweep that finds it ready; it stays in the table, and
        the lines behind them stay in the pipe. */
    method SweepAgain(rounds: seq<Round>, ghost d: Entry)
      requires Valid() && d in Contents()
      requires TimesReady(d.readFd, rounds) <= |ReadAll(incoming[d.readFd])|
      modifies this`numDrivers, this`closed, this`incoming, drivers
      ensures Valid() && d.readFd in incoming
      ensures var n, lines := TimesReady(d.readFd, rounds), ReadAll(old(incoming)[d.readFd]);
        && Told(d, lines[..n], rounds) in Contents()
        && ReadAll(incoming[d.readFd]) == lines[n..]
    {
      hide Survivors, ClosedFds, Drained, Removed, Seen, DistinctFds, ReadAll, Update, Rest;
      ghost var e, fd, lines := d, d.readFd, ReadAll(incoming[d.readFd]);
      ghost var n, said := TimesReady(fd, rounds), 0;
      assert lines[..n] == lines[said..n] && lines == lines[said..];
      for i := 0 to |rounds|
        invariant Valid() && drivers == old(drivers) && e in Contents() && e.readFd == fd && fd in incoming
        invariant 0 <= said <= n <= |lines| && n - said == TimesReady(fd, rounds[i..])
        invariant ReadAll(incoming[fd]) == lines[said..]
        invariant Told(e, lines[said..n], rounds[i..]) == Told(d, lines[..n], rounds)
      {
        ghost var was, before, ready := Contents(), incoming, rounds[i].ready;
        assert rounds[i..][0] == rounds[i] && rounds[i..][1..] == rounds[i + 1..];
        DriverSwept(was, e, ready, before, rounds[i].clock);
        if fd in ready {
          assert lines[said..][0] == lines[said] == lines[said..n][0];
          assert lines[said..][1..] == lines[said + 1..] && lines[said..n][1..] == lines[said + 1..n];
          e := Update(e, lines[said], rounds[i].clock(e));
          said := said + 1;
        }
        var _ := Sweep(rounds[i].ready, rounds[i].clock);
      }
      assert lines[said..n] == [] && rounds[|rounds|..] == [];
    }

    /** One pass of `wait_for_response` after its select: the same sweep, but it stops with the
        first line of the driver waited for; the drivers behind it keep their lines. */
    method WaitPass(pid: int, ready: set<int>, clock: Entry -> int) returns (response: Option<string>, ghost k: nat)
      requires Valid()
      modifies this`numDrivers, this`closed, this`incoming, drivers
      ensures Valid() && k <= |old(Contents())|
      ensures Contents() == Survivors(old(Contents())[..k], ready, old(incoming), clock) + old(Contents())[k..]
      ensures closed == old(closed) + ClosedFds(old(Contents())[..k], ready, old(incoming))
      ensures incoming == Drained(old(Contents())[..k], ready, old(incoming))
      ensures KeepLines(old(Contents()), k, old(incoming), incoming)
      ensures response.None? ==> k == |old(Contents())|
      ensures response.Some? ==>
        && k > 0 && IsAnswerOf(old(Contents())[k - 1], pid, ready, old(incoming))
        && response == Heard(old(Contents())[k - 1], ready, old(incoming))
      ensures NoAnswer(old(Contents()), if response.Some? then k - 1 else k, pid, ready, old(incoming))
    {
      hide Survivors, ClosedFds, Drained, Removed, Seen, DistinctFds, SweepState, Heard, IsAnswerOf, KeepLines;
      ghost var was, before := Contents(), incoming;
      response, k := None, 0;
      var i := 0;
      SweepStarts(was, before, ready, clock);
      assert NoAnswer(was, 0, pid, ready, before);
      hide NoAnswer, Open;
      while i < numDrivers
        invariant drivers == old(drivers) && Open(was, before) && DistinctFds(was)
        invariant k <= |was| && SweepState(was, k, before, ready, clock, i)
        invariant numDrivers - i == |was| - k
        invariant closed == old(closed) + ClosedFds(was[..k], ready, before)
        invariant NoAnswer(was, k, pid, ready, before)
        decreases |was| - k
      {
        SweepExtend(was, k, ready, before, clock);
        SweepAt(was, k, before, ready, clock, i);
        NoAnswerNext(was, k, pid, ready, before);
        var candidate := drivers[i].pid == pid;
        var got;
        i, got := SweepOne(i, ready, clock, was, k, before);
        k := k + 1;
        SweepMeasure(was, k, before, ready, clock, i);
        if candidate && got.Some? {
          SweepSoFar(was, k, before, ready, clock, i);
          return got, k;
        }
      }
      SweepSoFar(was, k, before, ready, clock, i);
    }

    lemma SweepAt(was: seq<Entry>, k: nat, before: Incoming, ready: set<int>, clock: Entry -> int, i: int)
      requires Open(was, before) && SweepState(was, k, before, ready, clock, i) && k < |was|
      ensures 0 <= i < drivers.Length && drivers[i] == was[k] && was[k].readFd in before
    {
      hide Survivors;
      assert drivers[i] == Contents()[i];
    }

    lemma SweepSoFar(was: seq<Entry>, k: nat, before: Incoming, ready: set<int>, clock: Entry -> int, i: int)
      requires k <= |was| && Open(was, before) && DistinctFds(was) && SweepState(was, k, before, ready, clock, i)
      ensures Valid() && Contents() == Survivors(was[..k], ready, before, clock) + was[k..]
      ensures incoming == Drained(was[..k], ready, before) && KeepLines(was, k, before, incoming)
    {
      hide Survivors, Drained, DistinctFds;
      HalfSweptStaysDistinct(was, k, ready, before, clock);
      DrainedSoFar(was, k, ready, before);
      assert forall fd :: fd in before ==> fd in incoming.Keys;
    }

    lemma SweepStarts(was: seq<Entry>, before: Incoming, ready: set<int>, clock: Entry -> int)
      requires Valid() && was == Contents() && before == incoming
      ensures Open(was, before) && DistinctFds(was) && SweepState(was, 0, before, ready, clock, 0)
      ensures ClosedFds(was[..0], ready, before) == [] && was[..0] == []
    {
    }

    lemma SweepMeasure(was: seq<Entry>, k: nat, before: Incoming, ready: set<int>, clock: Entry -> int, i: int)
      requires Open(was, before) && SweepState(was, k, before, ready, clock, i)
      ensures numDrivers - i == |was| - k
    {
    }

    lemma SweepEnds(was: seq<Entry>, before: Incoming, ready: set<int>, clock: Entry -> int, i: int)
      requires Open(was, before) && DistinctFds(was) && SweepState(was, |was|, before, ready, clock, i)
      ensures Valid() && Contents() == Survivors(was, ready, before, clock)
      ensures incoming == Drained(was, ready, before)
    {
      hide Survivors, Drained, DistinctFds;
      assert was[..|was|] == was;
      DrainedSoFar(was, |was|, ready, before);
      SurvivorsStayDistinct(was, ready, before, clock);
      assert Contents() == Survivors(was, ready, before, clock);
      assert forall fd :: fd in before ==> fd in incoming.Keys;
    }
  }

  // ----- what the driver says and the dispatcher hears -----

  /** A line of the driver means to the dispatcher what the driver meant: a remainder makes the
      entry busy until the time it denotes, "Available" makes it idle, the rest changes nothing. */
  lemma LineIsUnderstood(d: Entry, o: Out, now: int)
    ensures Update(d, Text(o), now) == match o
      case Busy(_, rem) => d.(busy := true, endTime := now + rem)
      case Expired(_) => d.(busy := false)
      case Idle(_) => d.(busy := false)
      case _ => d
  {
    hide Show, Scan;
    assert "OK"[0] == 'O' && "ERROR"[0] == 'E' && "UNKNOWN"[0] == 'U';
    if o.Busy? {
      var line := "Busy " + Show(o.rem);
      assert line[..4] == "Busy" && line[4..] == " " + Show(o.rem);
      assert line[0] == 'B';
      ScanShow(o.rem, "");
      assert Show(o.rem) + "" == Show(o.rem);
      SpaceIsSkipped(Show(o.rem));
    }
  }

  function Texts(written: seq<Out>): (lines: seq<string>)
    ensures |lines| == |written|
  {
    seq(|written|, i requires 0 <= i < |written| => Text(written[i]))
  }

  lemma TextFits(o: Out)
    requires o.Busy? ==> IsInt(o.rem)
    ensures IsLine(Text(o)) && 1 <= |Text(o)| <= BUF_SIZE - 2
  {
    if o.Busy? {
      ShowIntLength(o.rem);
      hide Show;
      assert Text(o) == "Busy " + Show(o.rem);
    }
  }

  /** Whatever a driver writes over a run with int timers, read_line brings to the dispatcher
      line by line, unchanged; every remainder in it fits the dispatcher's int; and each line
      is understood. */
  lemma DriverIsUnderstood(start: State, events: seq<Event>, incoming: seq<ReadResult>)
    requires IsStart(start) && Clocked(start, events) && IntTimers(events)
    requires Brings(incoming, Framed(Texts(After(start, events).written)))
    ensures var written := After(start, events).written;
      && ReadAll(incoming) == Texts(written)
      && forall i, d, now :: 0 <= i < |written| ==>
           match written[i]
           case Busy(_, rem) =>
             0 <= rem < 0x8000_0000 && Update(d, Texts(written)[i], now) == d.(busy := true, endTime := now + rem)
           case Expired(_) => Update(d, Texts(written)[i], now) == d.(busy := false)
           case Idle(_) => Update(d, Texts(written)[i], now) == d.(busy := false)
           case _ => Update(d, Texts(written)[i], now) == d
  {
    var written := After(start, events).written;
    RemaindersAreInts(start, events);
    hide Update, Text, Brings, ReadFrom;
    forall i | 0 <= i < |written|
      ensures IsLine(Texts(written)[i]) && 1 <= |Texts(written)[i]| <= BUF_SIZE - 2
      ensures written[i].Busy? ==> 0 <= written[i].rem < 0x8000_0000
    {
      assert written[i] in written;
      TextFits(written[i]);
    }
    FramingRoundTrip(incoming, Texts(written));
    forall i, d, now | 0 <= i < |written| {
      LineIsUnderstood(d, written[i], now);
    }
  }
}
