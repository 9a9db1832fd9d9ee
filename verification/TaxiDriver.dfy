/**
 A taxi driver process: a timed state machine that takes tasks, reports its status and
 announces when a task has run out.

 One `Event` is one iteration of the driver's loop, with the clock readings it makes.  What
 the driver writes is recorded with those readings; `Text` is the line actually written.
 */
module TaxiDriver {
  import opened Decimal
  import opened LineFraming

  // ----- commands and lines -----

  datatype Command = Task(timer: int) | BadTask | Status | Other

  predicate StartsWith(s: string, prefix: string) {
    |prefix| <= |s| && s[..|prefix|] == prefix
  }

  /** How the driver reads a line: strncmp "task", sscanf "task %d", strcmp "status". */
  function ParseCommand(line: string): Command {
    if StartsWith(line, "task") then
      match Scan(line[4..])
      case Some(timer) => Task(timer)
      case None => BadTask
    else if line == "status" then Status
    else Other
  }

  datatype Out =
    | Expired(at: int)               // the unsolicited "Available"
    | Ok(at: int, end: int)
    | Busy(at: int, rem: int)
    | Idle(at: int)                  // "Available" in answer to a status command
    | BadTimer(at: int)
    | Unknown(at: int)

  function Text(o: Out): string {
    match o
    case Expired(_) => "Available"
    case Ok(_, _) => "OK"
    case Busy(_, rem) => "Busy " + Show(rem)
    case Idle(_) => "Available"
    case BadTimer(_) => "ERROR"
    case Unknown(_) => "UNKNOWN"
  }

  // ----- the state machine -----

  /** `check` is the clock at the test for expiry; `now` the clock when a command is handled. */
  datatype Event = Timeout(check: int) | Received(check: int, line: string, now: int)

  /** `clock` is the last reading made; `written` everything written so far. */
  datatype State = State(busy: bool, endTime: int, clock: int, written: seq<Out>)

  function Max0(x: int): int {
    if x < 0 then 0 else x
  }

  function Expire(s: State, check: int): State {
    if s.busy && check >= s.endTime
    then State(false, s.endTime, check, s.written + [Expired(check)])
    else s.(clock := check)
  }

  function Handle(s: State, c: Command, now: int): State {
    var s := s.(clock := now);
    match c
    case Task(timer) =>
      if s.busy then s.(written := s.written + [Busy(now, Max0(s.endTime - now))])
      else s.(busy := true, endTime := now + timer, written := s.written + [Ok(now, now + timer)])
    case BadTask => s.(written := s.written + [BadTimer(now)])
    case Status =>
      s.(written := s.written + [if s.busy then Busy(now, Max0(s.endTime - now)) else Idle(now)])
    case Other => s.(written := s.written + [Unknown(now)])
  }

  function Step(s: State, e: Event): State {
    var s := Expire(s, e.check);
    match e
    case Timeout(_) => s
    case Received(_, line, now) => Handle(s, ParseCommand(line), now)
  }

  /** The clock never goes back. */
  predicate Ticks(s: State, e: Event) {
    s.clock <= e.check && (e.Received? ==> e.check <= e.now)
  }

  ghost predicate Clocked(s: State, events: seq<Event>)
    decreases |events|
  {
    events == [] || (Ticks(s, events[0]) && Clocked(Step(s, events[0]), events[1..]))
  }

  function After(s: State, events: seq<Event>): State
    decreases |events|
  {
    if events == [] then s else After(Step(s, events[0]), events[1..])
  }

  predicate IsStart(s: State) {
    !s.busy && s.endTime == 0 && s.written == []
  }

  // ----- what every step keeps -----

  function Count(written: seq<Out>, p: Out -> bool): nat {
    if written == [] then 0 else Count(written[..|written| - 1], p) + if p(written[|written| - 1]) then 1 else 0
  }

  lemma CountExtend(written: seq<Out>, o: Out, p: Out -> bool)
    ensures Count(written + [o], p) == Count(written, p) + if p(o) then 1 else 0
  {
    assert (written + [o])[..|written|] == written;
  }

  predicate IsExpiry(o: Out) {
    o.Expired?
  }

  predicate IsOk(o: Out) {
    o.Ok?
  }

  predicate IsAnswer(o: Out) {
    !o.Expired?
  }

  /** No task was accepted from position i on. */
  ghost predicate NoOkFrom(written: seq<Out>, i: int) {
    forall k :: i <= k < |written| && 0 <= k ==> !written[k].Ok?
  }

  /** Lines i and j, i before j, belong to one busy period. */
  ghost predicate SamePeriod(written: seq<Out>, i: int, j: int) {
    0 <= i < j < |written| && forall k :: i < k < j ==> !written[k].Ok?
  }

  /** Everything written is in the past, and each accepted task was over before the next;
      only the last one may still be running. */
  ghost predicate TasksOk(s: State) {
    && (forall i :: 0 <= i < |s.written| ==> s.written[i].at <= s.clock)
    && (forall i, j :: 0 <= i < j < |s.written| && s.written[i].Ok? && s.written[j].Ok? ==>
          s.written[i].end <= s.written[j].at)
    && (forall i :: 0 <= i < |s.written| && s.written[i].Ok? ==>
         if s.busy && NoOkFrom(s.written, i + 1) then s.written[i].end == s.endTime else s.written[i].end <= s.clock)
  }

  /** Within a period remainders never grow; those of the running period are measured from
      the running task's end. */
  ghost predicate RemaindersOk(s: State) {
    && (forall i, j :: SamePeriod(s.written, i, j) && s.written[i].Busy? && s.written[j].Busy? ==>
         0 <= s.written[j].rem <= s.written[i].rem)
    && (forall i :: 0 <= i < |s.written| && s.written[i].Busy? && s.busy && NoOkFrom(s.written, i) ==>
         s.written[i].rem == Max0(s.endTime - s.written[i].at))
  }

  /** A remainder is what is left of the task accepted last; "Available" is not written before
      that task's end; and once it has expired nothing is called busy until the next task. */
  ghost predicate RemaindersTrue(s: State) {
    Measured(s) && NothingEarly(s) && IdleAfterExpiry(s)
  }

  ghost predicate Measured(s: State) {
    forall i, j :: SamePeriod(s.written, i, j) && s.written[i].Ok? && s.written[j].Busy? ==>
      s.written[j].rem == Max0(s.written[i].end - s.written[j].at)
  }

  ghost predicate NothingEarly(s: State) {
    forall i, j ::
      SamePeriod(s.written, i, j) && s.written[i].Ok? && (s.written[j].Idle? || s.written[j].Expired?) ==>
        s.written[i].end <= s.written[j].at
  }

  ghost predicate IdleAfterExpiry(s: State) {
    && (forall i, j :: SamePeriod(s.written, i, j) && s.written[i].Expired? ==> !s.written[j].Busy?)
    && (forall i :: 0 <= i < |s.written| && s.written[i].Expired? && s.busy ==> !NoOkFrom(s.written, i))
  }

  ghost predicate CountsOk(s: State) {
    Count(s.written, IsExpiry) + (if s.busy then 1 else 0) == Count(s.written, IsOk)
  }

  ghost predicate Inv(s: State) {
    TasksOk(s) && RemaindersOk(s) && RemaindersTrue(s) && CountsOk(s)
  }

  lemma NoOkExtend(written: seq<Out>, o: Out, i: int)
    requires i <= |written|
    ensures NoOkFrom(written + [o], i) <==> NoOkFrom(written, i) && (i < 0 || !o.Ok?) && !o.Ok?
  {
    assert (written + [o])[|written|] == o;
    assert forall k :: 0 <= k < |written| ==> (written + [o])[k] == written[k];
  }

  lemma SamePeriodExtend(written: seq<Out>, o: Out, i: int, j: int)
    ensures j < |written| ==> (SamePeriod(written + [o], i, j) <==> SamePeriod(written, i, j))
    ensures j == |written| && SamePeriod(written + [o], i, j) ==> NoOkFrom(written, i + 1)
  {
    assert forall k :: 0 <= k < |written| ==> (written + [o])[k] == written[k];
  }

  lemma Extends(written: seq<Out>, o: Out)
    ensures forall i :: 0 <= i <= |written| ==> (NoOkFrom(written + [o], i) <==> NoOkFrom(written, i) && !o.Ok?)
    ensures forall i, j :: j < |written| ==> (SamePeriod(written + [o], i, j) <==> SamePeriod(written, i, j))
    ensures forall i :: SamePeriod(written + [o], i, |written|) ==> 0 <= i < |written| && NoOkFrom(written, i + 1)
  {
    forall i | 0 <= i <= |written|
      ensures NoOkFrom(written + [o], i) <==> NoOkFrom(written, i) && !o.Ok?
    {
      NoOkExtend(written, o, i);
    }
    forall i, j
      ensures j < |written| ==> (SamePeriod(written + [o], i, j) <==> SamePeriod(written, i, j))
      ensures j == |written| && SamePeriod(written + [o], i, j) ==> NoOkFrom(written, i + 1)
    {
      SamePeriodExtend(written, o, i, j);
    }
  }

  lemma ExpireKeepsTasks(s: State, check: int)
    requires Inv(s) && s.clock <= check
    ensures TasksOk(Expire(s, check))
  {
    hide SamePeriod, NoOkFrom, RemaindersOk;
    Extends(s.written, Expired(check));
  }

  lemma ExpireKeepsRemainders(s: State, check: int)
    requires Inv(s) && s.clock <= check
    ensures RemaindersOk(Expire(s, check))
  {
    hide NoOkFrom, TasksOk, RemaindersTrue;
    Extends(s.written, Expired(check));
  }

  lemma ExpireKeepsTruth(s: State, check: int)
    requires Inv(s) && s.clock <= check
    ensures RemaindersTrue(Expire(s, check))
  {
    hide NoOkFrom, RemaindersOk;
    Extends(s.written, Expired(check));
  }

  lemma ExpireKeepsInv(s: State, check: int)
    requires Inv(s) && s.clock <= check
    ensures Inv(Expire(s, check))
  {
    hide SamePeriod, NoOkFrom, RemaindersOk, RemaindersTrue, TasksOk;
    ExpireKeepsTasks(s, check);
    ExpireKeepsRemainders(s, check);
    ExpireKeepsTruth(s, check);
    CountExtend(s.written, Expired(check), IsExpiry);
    CountExtend(s.written, Expired(check), IsOk);
  }

  lemma HandleKeepsTasks(s: State, c: Command, now: int)
    requires Inv(s) && s.clock <= now
    ensures TasksOk(Handle(s, c, now))
  {
    hide SamePeriod, RemaindersOk;
    var o := Handle(s, c, now).written[|s.written|];
    assert Handle(s, c, now).written == s.written + [o];
    Extends(s.written, o);
  }

  lemma HandleKeepsRemainders(s: State, c: Command, now: int)
    requires Inv(s) && s.clock <= now
    ensures RemaindersOk(Handle(s, c, now))
  {
    hide RemaindersTrue;
    var s' := Handle(s, c, now);
    var o := s'.written[|s.written|];
    assert s'.written == s.written + [o];
    Extends(s.written, o);
    forall i, j | SamePeriod(s'.written, i, j) && s'.written[i].Busy? && s'.written[j].Busy?
      ensures 0 <= s'.written[j].rem <= s'.written[i].rem
    {
      if j == |s.written| {
        assert NoOkFrom(s.written, i);
      }
    }
  }

  lemma HandleKeepsTruth(s: State, c: Command, now: int)
    requires Inv(s) && s.clock <= now
    ensures RemaindersTrue(Handle(s, c, now))
  {
    hide RemaindersOk, Measured, NothingEarly, IdleAfterExpiry, TasksOk;
    HandleMeasures(s, c, now);
    HandleIsNotEarly(s, c, now);
    HandleIsIdleAfterExpiry(s, c, now);
  }

  lemma HandleMeasures(s: State, c: Command, now: int)
    requires TasksOk(s) && Measured(s) && s.clock <= now
    ensures Measured(Handle(s, c, now))
  {
    var o := Handle(s, c, now).written[|s.written|];
    assert Handle(s, c, now).written == s.written + [o];
    Extends(s.written, o);
  }

  lemma HandleIsNotEarly(s: State, c: Command, now: int)
    requires TasksOk(s) && NothingEarly(s) && s.clock <= now
    ensures NothingEarly(Handle(s, c, now))
  {
    var o := Handle(s, c, now).written[|s.written|];
    assert Handle(s, c, now).written == s.written + [o];
    Extends(s.written, o);
  }

  lemma HandleIsIdleAfterExpiry(s: State, c: Command, now: int)
    requires IdleAfterExpiry(s) && s.clock <= now
    ensures IdleAfterExpiry(Handle(s, c, now))
  {
    var o := Handle(s, c, now).written[|s.written|];
    assert Handle(s, c, now).written == s.written + [o];
    Extends(s.written, o);
  }

  lemma HandleKeepsInv(s: State, c: Command, now: int)
    requires Inv(s) && s.clock <= now
    ensures Inv(Handle(s, c, now))
  {
    HandleKeepsTasks(s, c, now);
    hide TasksOk, RemaindersOk, RemaindersTrue;
    HandleKeepsRemainders(s, c, now);
    HandleKeepsTruth(s, c, now);
    var o := Handle(s, c, now).written[|s.written|];
    CountExtend(s.written, o, IsExpiry);
    CountExtend(s.written, o, IsOk);
  }

  lemma {:induction false} EveryRunKeepsInv(s: State, events: seq<Event>)
    requires Inv(s) && Clocked(s, events)
    ensures Inv(After(s, events))
    decreases |events|
  {
    if events != [] {
      ExpireKeepsInv(s, events[0].check);
      if events[0].Received? {
        HandleKeepsInv(Expire(s, events[0].check), ParseCommand(events[0].line), events[0].now);
      }
      EveryRunKeepsInv(Step(s, events[0]), events[1..]);
    }
  }

  // ----- consequences for every run -----

  /** For any commands and any clock that never goes back: expiry lines are the OK lines minus
      one if a task is running; a task is accepted only when the one before is over; each
      remainder told is that of the task last accepted, and within one busy period they never
      grow; "Available" is never written before that task's end, and "Busy" never after its
      expiry. */
  lemma TasksAndRemainders(start: State, events: seq<Event>)
    requires IsStart(start) && Clocked(start, events)
    ensures var s := After(start, events);
      && Count(s.written, IsExpiry) + (if s.busy then 1 else 0) == Count(s.written, IsOk)
      && (forall i, j :: 0 <= i < j < |s.written| && s.written[i].Ok? && s.written[j].Ok? ==>
            s.written[i].end <= s.written[j].at)
      && (forall i, j :: SamePeriod(s.written, i, j) && s.written[i].Busy? && s.written[j].Busy? ==>
            0 <= s.written[j].rem <= s.written[i].rem)
      && (forall i, j :: SamePeriod(s.written, i, j) && s.written[i].Ok? && s.written[j].Busy? ==>
            s.written[j].rem == Max0(s.written[i].end - s.written[j].at))
      && (forall i, j ::
            SamePeriod(s.written, i, j) && s.written[i].Ok? && (s.written[j].Idle? || s.written[j].Expired?) ==>
            s.written[i].end <= s.written[j].at)
      && (forall i, j :: SamePeriod(s.written, i, j) && s.written[i].Expired? ==> !s.written[j].Busy?)
  {
    EveryRunKeepsInv(start, events);
  }

  predicate IsInt(x: int) {
    -0x8000_0000 <= x < 0x8000_0000
  }

  /** The timers read are those sscanf can store in an int. */
  ghost predicate IntTimers(events: seq<Event>) {
    forall i :: 0 <= i < |events| && events[i].Received? && ParseCommand(events[i].line).Task? ==>
      IsInt(ParseCommand(events[i].line).timer)
  }

  ghost predicate IntRemainders(s: State) {
    && (s.busy ==> s.endTime - s.clock < 0x8000_0000)
    && forall o :: o in s.written && o.Busy? ==> 0 <= o.rem < 0x8000_0000
  }

  /** With timers that are ints every remainder written is one too, so that the dispatcher's
      int can hold what the driver prints from a long. */
  lemma {:induction false} RemaindersAreInts(s: State, events: seq<Event>)
    requires IntRemainders(s) && Clocked(s, events) && IntTimers(events)
    ensures IntRemainders(After(s, events))
    decreases |events|
  {
    hide ParseCommand;
    if events != [] {
      var e := events[0];
      assert IntRemainders(Expire(s, e.check));
      if e.Received? {
        HandleIntRemainders(Expire(s, e.check), ParseCommand(e.line), e.now);
      }
      RemaindersAreInts(Step(s, e), events[1..]);
    }
  }

  lemma HandleIntRemainders(s: State, c: Command, now: int)
    requires IntRemainders(s) && s.clock <= now && (c.Task? ==> IsInt(c.timer))
    ensures IntRemainders(Handle(s, c, now))
  {
  }

  function Commands(events: seq<Event>): seq<Command> {
    if events == [] then []
    else (if events[0].Received? then [ParseCommand(events[0].line)] else []) + Commands(events[1..])
  }

  function Answers(written: seq<Out>): seq<Out> {
    if written == [] then []
    else Answers(written[..|written| - 1]) + if IsAnswer(written[|written| - 1]) then [written[|written| - 1]] else []
  }

  /** The kinds of answers a command may get. */
  predicate Fits(c: Command, o: Out) {
    match c
    case Task(timer) => o.Busy? || (o.Ok? && o.end == o.at + timer)
    case BadTask => o.BadTimer?
    case Status => o.Busy? || o.Idle?
    case Other => o.Unknown?
  }

  ghost predicate AllFit(cs: seq<Command>, os: seq<Out>) {
    |cs| == |os| && forall i :: 0 <= i < |cs| ==> Fits(cs[i], os[i])
  }

  lemma AnswersExtend(written: seq<Out>, o: Out)
    ensures Answers(written + [o]) == Answers(written) + if IsAnswer(o) then [o] else []
  {
    assert (written + [o])[..|written|] == written;
  }

  lemma TimeoutAnswers(s: State, check: int)
    ensures Answers(Expire(s, check).written) == Answers(s.written)
  {
    AnswersExtend(s.written, Expired(check));
  }

  lemma CommandAnswer(s: State, c: Command, now: int) returns (o: Out)
    ensures Fits(c, o) && Answers(Handle(s, c, now).written) == Answers(s.written) + [o]
  {
    o := Handle(s, c, now).written[|s.written|];
    assert Handle(s, c, now).written == s.written + [o];
    AnswersExtend(s.written, o);
  }

  lemma AllFitExtend(cs: seq<Command>, os: seq<Out>, c: Command, o: Out)
    requires AllFit(cs, os) && Fits(c, o)
    ensures AllFit(cs + [c], os + [o])
  {
  }

  /** Every command is answered by exactly one line, in order, and by one of its kind; all
      other lines are expiry lines. */
  lemma {:induction false} OneAnswerPerCommand(s: State, events: seq<Event>, cs: seq<Command>)
    requires AllFit(cs, Answers(s.written))
    ensures AllFit(cs + Commands(events), Answers(After(s, events).written))
    decreases |events|
  {
    hide AllFit, Fits, Answers, Expire, Handle, ParseCommand;
    if events == [] {
      assert cs + Commands(events) == cs;
    } else {
      var e, mine, rest := events[0], [], Commands(events[1..]);
      TimeoutAnswers(s, e.check);
      if e.Received? {
        var o := CommandAnswer(Expire(s, e.check), ParseCommand(e.line), e.now);
        mine := [ParseCommand(e.line)];
        AllFitExtend(cs, Answers(s.written), ParseCommand(e.line), o);
      } else {
        assert cs + mine == cs;
      }
      assert Commands(events) == mine + rest;
      OneAnswerPerCommand(Step(s, e), events[1..], cs + mine);
      assert cs + mine + rest == cs + (mine + rest);
    }
  }

  // ----- what an event makes the driver write, from what it has written -----

  /** Where the task accepted last was answered, or -1. */
  function LastOk(written: seq<Out>): (i: int)
    ensures -1 <= i < |written| && (i >= 0 ==> written[i].Ok?) && NoOkFrom(written, i + 1)
  {
    if written == [] then -1
    else if written[|written| - 1].Ok? then |written| - 1
    else LastOk(written[..|written| - 1])
  }

  /** A task was accepted and its time is not over. */
  predicate Running(written: seq<Out>, time: int) {
    var i := LastOk(written);
    i >= 0 && time < written[i].end
  }

  /** "Available" was announced since the last task was accepted. */
  ghost predicate Announced(written: seq<Out>) {
    exists k :: LastOk(written) < k < |written| && written[k].Expired?
  }

  /** The state is what the lines written say it is. */
  ghost predicate Remembers(s: State) {
    var i := LastOk(s.written);
    && (s.busy <==> i >= 0 && !Announced(s.written))
    && (i >= 0 ==> s.written[i].end == s.endTime)
    && (i >= 0 && Announced(s.written) ==> s.endTime <= s.clock)
  }

  lemma LastOkExtend(written: seq<Out>, o: Out)
    ensures LastOk(written + [o]) == if o.Ok? then |written| else LastOk(written)
    ensures Announced(written + [o]) <==> o.Expired? || (Announced(written) && !o.Ok?)
  {
    var more := written + [o];
    assert more[..|written|] == written;
    if o.Expired? {
      assert more[|written|].Expired?;
    }
    if k :| LastOk(written) < k < |written| && written[k].Expired? {
      assert more[k].Expired?;
    }
  }

  lemma ExpireRemembers(s: State, check: int)
    requires Remembers(s) && s.clock <= check
    ensures Remembers(Expire(s, check))
  {
    hide LastOk, Announced;
    LastOkExtend(s.written, Expired(check));
  }

  lemma HandleRemembers(s: State, c: Command, now: int)
    requires Remembers(s) && s.clock <= now
    ensures Remembers(Handle(s, c, now))
  {
    hide LastOk, Announced;
    var o := Handle(s, c, now).written[|s.written|];
    assert Handle(s, c, now).written == s.written + [o];
    LastOkExtend(s.written, o);
  }

  lemma {:induction false} EveryRunRemembers(s: State, events: seq<Event>)
    requires Remembers(s) && Clocked(s, events)
    ensures Remembers(After(s, events))
    decreases |events|
  {
    hide Remembers;
    if events != [] {
      ExpireRemembers(s, events[0].check);
      if events[0].Received? {
        HandleRemembers(Expire(s, events[0].check), ParseCommand(events[0].line), events[0].now);
      }
      EveryRunRemembers(Step(s, events[0]), events[1..]);
    }
  }

  /** The answer a command must get, by the lines written before it. */
  function Due(written: seq<Out>, c: Command, check: int, now: int): Out {
    match c
    case Task(timer) =>
      if Running(written, check) then Busy(now, Max0(written[LastOk(written)].end - now)) else Ok(now, now + timer)
    case BadTask => BadTimer(now)
    case Status =>
      if Running(written, check) then Busy(now, Max0(written[LastOk(written)].end - now)) else Idle(now)
    case Other => Unknown(now)
  }

  /** The announcement that is due at the check. */
  ghost function DueFirst(written: seq<Out>, check: int): seq<Out> {
    if LastOk(written) >= 0 && !Running(written, check) && !Announced(written) then [Expired(check)] else []
  }

  lemma ExpireIsDue(s: State, check: int)
    requires Remembers(s) && s.clock <= check
    ensures var s' := Expire(s, check);
      && s'.written == s.written + DueFirst(s.written, check)
      && (s'.busy <==> Running(s.written, check))
      && (s'.busy ==> s'.endTime == s.written[LastOk(s.written)].end)
  {
    hide LastOk, Announced;
  }

  lemma AnswerIsDue(s: State, written: seq<Out>, c: Command, check: int, now: int)
    requires s.busy <==> Running(written, check)
    requires s.busy ==> s.endTime == written[LastOk(written)].end
    ensures Handle(s, c, now).written == s.written + [Due(written, c, check, now)]
  {
    hide LastOk;
  }

  /** In every run, what an event makes the driver write is determined by the lines written
      before it: the end of the last task is announced with the first event whose check has
      reached it, and only then; a task or status is answered Busy exactly while the last
      task's time is not over, else OK or "Available". */
  lemma EventIsAnswered(start: State, events: seq<Event>, e: Event)
    requires IsStart(start) && Clocked(start, events) && Ticks(After(start, events), e)
    ensures var written := After(start, events).written;
      Step(After(start, events), e).written
      == written + DueFirst(written, e.check)
         + if e.Received? then [Due(written, ParseCommand(e.line), e.check, e.now)] else []
  {
    EveryRunRemembers(start, events);
    hide ParseCommand, DueFirst, Due, Expire, Handle, Remembers, Running, Clocked, After, LastOk;
    var s := After(start, events);
    ExpireIsDue(s, e.check);
    if e.Received? {
      AnswerIsDue(Expire(s, e.check), s.written, ParseCommand(e.line), e.check, e.now);
    }
  }

  /** The answer in words, to any line. */
  lemma AnswersInWords(s: State, line: string, now: int)
    ensures var written := Handle(s, ParseCommand(line), now).written;
      var rem := "Busy " + Show(if s.endTime < now then 0 else s.endTime - now);
      && |written| == |s.written| + 1
      && Text(written[|s.written|]) ==
         if |line| >= 4 && line[..4] == "task" then
           (if Scan(line[4..]).None? then "ERROR" else if s.busy then rem else "OK")
         else if line == "status" then (if s.busy then rem else "Available")
         else "UNKNOWN"
  {
    hide Scan, Show;
  }

  /** So every accepted task expires: an event whose check has reached its end finds or puts an
      "Available" behind the OK, and what it answers comes after that: OK to a task, "Available"
      to a status. */
  lemma TaskExpires(start: State, events: seq<Event>, e: Event)
    requires IsStart(start) && Clocked(start, events) && Ticks(After(start, events), e)
    requires var written := After(start, events).written;
      LastOk(written) >= 0 && written[LastOk(written)].end <= e.check
    ensures var i, written' := LastOk(After(start, events).written), Step(After(start, events), e).written;
      && (exists k :: i < k < |written'| && written'[k].Expired? && (e.Received? ==> k < |written'| - 1))
      && (e.Received? && ParseCommand(e.line).Task? ==>
            written'[|written'| - 1] == Ok(e.now, e.now + ParseCommand(e.line).timer))
      && (e.Received? && ParseCommand(e.line).Status? ==> written'[|written'| - 1] == Idle(e.now))
  {
    hide ParseCommand, Step;
    EventIsAnswered(start, events, e);
    var written, written' := After(start, events).written, Step(After(start, events), e).written;
    var i := LastOk(written);
    if Announced(written) {
      var k :| i < k < |written| && written[k].Expired?;
      assert written'[k].Expired?;
    } else {
      assert written'[|written|].Expired?;
    }
  }

  // ----- messages -----

  lemma {:induction false} ShowNatLength(n: nat, digits: nat, bound: nat)
    requires digits > 0 && n < bound && bound == Power10(digits)
    ensures |ShowNat(n)| <= digits
    decreases digits
  {
    if n >= 10 {
      ShowNatLength(n / 10, digits - 1, Power10(digits - 1));
    }
  }

  function Power10(k: nat): nat {
    if k == 0 then 1 else 10 * Power10(k - 1)
  }

  lemma TaskLineParses(timer: int)
    ensures ParseCommand("task " + Show(timer)) == Task(timer)
  {
    hide Show;
    var line := "task " + Show(timer);
    assert line[..4] == "task" && line[4..] == " " + Show(timer);
    ScanShow(timer, "");
    assert Show(timer) + "" == Show(timer);
    SpaceIsSkipped(Show(timer));
  }

  lemma ShowIntLength(timer: int)
    requires IsInt(timer)
    ensures |Show(timer)| <= 11 && IsLine(Show(timer))
  {
    assert Power10(10) == 10 * (10 * (10 * (10 * (10 * (10 * (10 * (10 * (10 * (10 * 1)))))))));
    ShowNatLength(if timer < 0 then -timer else timer, 10, Power10(10));
  }

  /** A task command with any int reaches the driver as that task: what the dispatcher prints
      is one line that fits the buffer, and the driver reads the printed number. */
  lemma TaskArrives(timer: int, incoming: seq<ReadResult>, rest: string)
    requires IsInt(timer)
    requires Brings(incoming, "task " + Show(timer) + [NEWLINE] + rest)
    ensures ReadLine(incoming).0 == Line("task " + Show(timer)) && Brings(ReadLine(incoming).1, rest)
    ensures ParseCommand("task " + Show(timer)) == Task(timer)
  {
    hide Show, Brings, ReadFrom, ParseCommand;
    ShowIntLength(timer);
    ReadFromBrings(incoming, "", "task " + Show(timer), rest);
    assert "" + ("task " + Show(timer)) == "task " + Show(timer);
    TaskLineParses(timer);
  }

  /** So does a status request. */
  lemma StatusArrives(incoming: seq<ReadResult>, rest: string)
    requires Brings(incoming, "status" + [NEWLINE] + rest)
    ensures ReadLine(incoming).0 == Line("status") && Brings(ReadLine(incoming).1, rest)
    ensures ParseCommand("status") == Status
  {
    hide Brings, ReadFrom;
    assert "status"[0] == 's';
    ReadFromBrings(incoming, "", "status", rest);
    assert "" + "status" == "status";
  }

  lemma SpaceIsSkipped(s: string)
    ensures Scan(" " + s) == Scan(s)
  {
    assert (" " + s)[1..] == s;
  }

  // ----- the driver process -----

  /** The local state of `driver_loop`, updated in place. */
  class Driver {
    var busy: bool
    var endTime: int
    ghost var clock: int
    ghost var written: seq<Out>
    var lines: seq<string>

    ghost function Value(): State
      reads this
    {
      State(busy, endTime, clock, written)
    }

    /** What went down the pipe is the text of what was recorded. */
    ghost predicate Valid()
      reads this
    {
      |lines| == |written| && forall i :: 0 <= i < |lines| ==> lines[i] == Text(written[i])
    }

    constructor (now: int)
      ensures Valid() && IsStart(Value()) && clock == now
    {
      busy, endTime, lines := false, 0, [];
      clock, written := now, [];
    }

    method Print(line: string, ghost o: Out)
      requires Valid() && line == Text(o)
      modifies this`lines, this`written
      ensures Valid() && written == old(written) + [o]
    {
      lines := lines + [line];
      written := written + [o];
    }

    /** The test for expiry at the top of the loop. */
    method CheckExpiry(now: int)
      requires Valid()
      modifies this
      ensures Valid() && Value() == Expire(old(Value()), now)
    {
      clock := now;
      if busy && now >= endTime {
        busy := false;
        Print("Available", Expired(now));
      }
    }

    /** What the loop does with a line it has read. */
    method Respond(line: string, now: int)
      requires Valid()
      modifies this
      ensures Valid() && Value() == Handle(old(Value()), ParseCommand(line), now)
    {
      hide Show, ShowNat, Scan;
      clock := now;
      if StartsWith(line, "task") {
        var timer := Scan(line[4..]);
        if timer.Some? {
          if busy {
            Print("Busy " + Show(Max0(endTime - now)), Busy(now, Max0(endTime - now)));
          } else {
            busy := true;
            endTime := now + timer.value;
            Print("OK", Ok(now, endTime));
          }
        } else {
          Print("ERROR", BadTimer(now));
        }
      } else if line == "status" {
        if busy {
          Print("Busy " + Show(Max0(endTime - now)), Busy(now, Max0(endTime - now)));
        } else {
          Print("Available", Idle(now));
        }
      } else {
        Print("UNKNOWN", Unknown(now));
      }
    }

    /** One iteration of the loop; `e` supplies the clock readings and the line, if any. */
    method Iterate(e: Event)
      requires Valid()
      modifies this
      ensures Valid() && Value() == Step(old(Value()), e)
    {
      hide Expire, Handle, ParseCommand;
      CheckExpiry(e.check);
      if e.Received? {
        Respond(e.line, e.now);
      }
    }

    /** `driver_loop`: it runs through the events until its input ends. */
    method Loop(events: seq<Event>)
      requires Valid()
      modifies this
      ensures Valid() && Value() == After(old(Value()), events)
    {
      for i := 0 to |events|
        invariant Valid() && After(Value(), events[i..]) == After(old(Value()), events)
      {
        assert events[i..][1..] == events[i + 1..];
        Iterate(events[i]);
      }
      assert events[|events|..] == [];
    }
  }
}
