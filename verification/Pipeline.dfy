/**
 The shell's pipeline: one process per command, connected by pipes.

 A descriptor table maps descriptors to open files.  `fork` copies the table, `pipe` adds
 two entries at the lowest free descriptors, `dup2` and `close` change one entry.
 `ExecutePipeline` is the program's loop on these tables.
 */
module Pipeline {

  /** An open file: one the shell was started with, or an end of pipe k, the pipe made for
      the connection between commands k and k+1. */
  datatype File = Inherited(id: int) | ReadEnd(k: nat) | WriteEnd(k: nat)

  type Table = map<nat, File>

  const STDIN: nat := 0
  const STDOUT: nat := 1

  // ----- descriptor allocation -----

  /** The descriptors below n. */
  function UpTo(n: nat): (s: set<nat>)
    ensures |s| == n && forall i: nat :: i in s <==> i < n
  {
    if n == 0 then {} else UpTo(n - 1) + {n - 1}
  }

  lemma {:induction false} SubsetIsNotLarger(a: set<nat>, b: set<nat>)
    requires a <= b
    ensures |a| <= |b|
    decreases a
  {
    if a != {} {
      var x :| x in a;
      SubsetIsNotLarger(a - {x}, b - {x});
    }
  }

  /** The lowest descriptor not in use, found by counting up from `fd`. */
  function LowestFree(t: Table, fd: nat): (free: nat)
    requires UpTo(fd) <= t.Keys
    ensures fd <= free && free !in t && UpTo(free) <= t.Keys
    decreases |t.Keys| - fd
  {
    SubsetIsNotLarger(UpTo(fd), t.Keys);
    if fd !in t then fd
    else
      assert UpTo(fd + 1) <= t.Keys;
      SubsetIsNotLarger(UpTo(fd + 1), t.Keys);
      LowestFree(t, fd + 1)
  }

  function Close(t: Table, fd: nat): Table {
    t - {fd}
  }

  function Dup2(t: Table, oldFd: nat, newFd: nat): Table
    requires oldFd in t
  {
    t[newFd := t[oldFd]]
  }

  // ----- what the wiring should be -----

  /** The table with which command i of n should start: the shell's own, except for standard
      input and output where it is connected to a neighbour. */
  function Wired(t: Table, n: nat, i: nat): Table {
    var withIn := if i > 0 then t[STDIN := ReadEnd(i - 1)] else t;
    if i + 1 < n then withIn[STDOUT := WriteEnd(i)] else withIn
  }

  /** The table a child ends up with, spelled out. */
  function ChildTable(parent: Table, prevPipe: int, connected: bool, readFd: nat, writeFd: nat): Table
    requires prevPipe != -1 ==> prevPipe >= 0 && prevPipe in parent
    requires connected ==> writeFd in parent && writeFd != prevPipe
  {
    var withIn := if prevPipe != -1 then Close(Dup2(parent, prevPipe, STDIN), prevPipe) else parent;
    if connected then Close(Close(Dup2(withIn, writeFd, STDOUT), readFd), writeFd) else withIn
  }

  /** Whether command i ends up connected as it should: always if the shell was started with
      a standard output; otherwise only the last command and every second one. */
  predicate KeepsStdout(t: Table, n: nat, i: nat) {
    STDOUT in t || i + 1 == n || i % 2 == 1
  }

  /** The table with which command i of n does start. */
  function AtExec(t: Table, n: nat, i: nat): Table {
    if KeepsStdout(t, n, i) then Wired(t, n, i) else Close(Wired(t, n, i), STDOUT)
  }

  /** The shell's table at the fork of command i, and the child's table at its execvp. */
  lemma ChildAtExec(initial: Table, n: nat, i: nat, parent: Table, prevPipe: int, readFd: nat, writeFd: nat)
    requires STDIN in initial && i < n
    requires if i == 0 then prevPipe == -1 else prevPipe >= 0 && prevPipe !in initial
    requires i < n - 1 ==>
      && readFd !in initial && writeFd !in initial
      && readFd != writeFd && readFd != prevPipe && writeFd != prevPipe
    requires STDOUT !in initial ==>
      && (prevPipe == STDOUT <==> i % 2 == 1)
      && (i < n - 1 ==> (readFd == STDOUT <==> i % 2 == 0) && writeFd != STDOUT)
    requires var before := if i == 0 then initial else initial[prevPipe := ReadEnd(i - 1)];
      parent == if i < n - 1 then before[readFd := ReadEnd(i)][writeFd := WriteEnd(i)] else before
    ensures ChildTable(parent, prevPipe, i < n - 1, readFd, writeFd) == AtExec(initial, n, i)
  {
  }

  // ----- the program -----

  /** The child's branch between fork and execvp. */
  method StartChild(parent: Table, prevPipe: int, connected: bool, readFd: nat, writeFd: nat) returns (child: Table)
    requires prevPipe != -1 ==> prevPipe >= 0 && prevPipe in parent
    requires connected ==> writeFd in parent && writeFd != prevPipe
    ensures child == ChildTable(parent, prevPipe, connected, readFd, writeFd)
  {
    child := parent;
    if prevPipe != -1 {
      child := Dup2(child, prevPipe, STDIN);
      child := Close(child, prevPipe);
    }
    if connected {
      child := Dup2(child, writeFd, STDOUT);
      child := Close(child, readFd);
      child := Close(child, writeFd);
    }
  }

  /** pipe(): two entries at the lowest free descriptors. */
  method MakePipe(t: Table, k: nat) returns (readFd: nat, writeFd: nat, t': Table)
    requires STDIN in t
    ensures readFd !in t && writeFd !in t && readFd != writeFd
    ensures t' == t[readFd := ReadEnd(k)][writeFd := WriteEnd(k)]
    ensures STDOUT !in t <==> readFd == STDOUT
    ensures writeFd != STDOUT
  {
    readFd := LowestFree(t, 0);
    assert STDOUT !in t && readFd > STDOUT ==> STDOUT in UpTo(readFd);
    t' := t[readFd := ReadEnd(k)];
    writeFd := LowestFree(t', 0);
    assert STDOUT in t';
    t' := t'[writeFd := WriteEnd(k)];
  }

  /** The shell's table before command i is started. */
  ghost predicate ParentAt(initial: Table, n: nat, i: nat, prevPipe: int, parent: Table) {
    if i == 0 || i == n then parent == initial && (i == 0 ==> prevPipe == -1)
    else
      && prevPipe >= 0 && prevPipe !in initial && parent == initial[prevPipe := ReadEnd(i - 1)]
      && (STDOUT !in initial ==> (prevPipe == STDOUT <==> i % 2 == 1))
  }

  lemma StdinStays(initial: Table, n: nat, i: nat, prevPipe: int, parent: Table)
    requires STDIN in initial && ParentAt(initial, n, i, prevPipe, parent)
    ensures STDIN in parent
  {
  }

  lemma Restored(initial: Table, n: nat, prevPipe: int, parent: Table)
    requires ParentAt(initial, n, n, prevPipe, parent)
    ensures parent == initial
  {
  }

  /** The shell's table when command i is started and after the closes that follow. */
  ghost predicate PipeMade(before: Table, connected: bool, i: nat, readFd: nat, writeFd: nat, parent: Table) {
    if connected then
      && readFd !in before && writeFd !in before && readFd != writeFd
      && parent == before[readFd := ReadEnd(i)][writeFd := WriteEnd(i)]
      && (STDOUT !in before <==> readFd == STDOUT) && writeFd != STDOUT
    else parent == before
  }

  function AfterStart(parent: Table, prevPipe: int, connected: bool, writeFd: nat): Table {
    var closed := if prevPipe >= 0 then Close(parent, prevPipe) else parent;
    if connected then Close(closed, writeFd) else closed
  }

  /** One round of the loop: the child's table at execvp and the shell's before the next. */
  lemma Round(initial: Table, n: nat, i: nat, prevPipe: int, before: Table,
              readFd: nat, writeFd: nat, parent: Table)
    requires STDIN in initial && i < n && ParentAt(initial, n, i, prevPipe, before)
    requires PipeMade(before, i < n - 1, i, readFd, writeFd, parent)
    ensures prevPipe != -1 ==> prevPipe >= 0 && prevPipe in parent
    ensures i < n - 1 ==> writeFd in parent && writeFd != prevPipe
    ensures ChildTable(parent, prevPipe, i < n - 1, readFd, writeFd) == AtExec(initial, n, i)
    ensures ParentAt(initial, n, i + 1, if i < n - 1 then readFd else prevPipe,
                     AfterStart(parent, prevPipe, i < n - 1, writeFd))
  {
    ChildAtExec(initial, n, i, parent, prevPipe, readFd, writeFd);
  }

  /** `execute_pipeline`.  `pipeFails` and `forkFails` say at which command the system call
      returns -1, upon which the shell exits.  `children` are the tables at execvp: they are
      what they should be if and only if the shell was started with a standard output, as
      soon as there is a pipe at all.  Without one the first child, and every second one
      after it, finds the pipe's read end at descriptor 1, writes over it and closes it. */
  method ExecutePipeline(initial: Table, n: nat, pipeFails: nat -> bool, forkFails: nat -> bool)
    returns (children: seq<Table>, parent: Table, exited: bool)
    requires STDIN in initial
    ensures |children| <= n && (exited <==> |children| < n)
    ensures exited ==> forkFails(|children|) || (|children| + 1 < n && pipeFails(|children|))
    ensures forall i :: 0 <= i < |children| ==> !forkFails(i) && (i + 1 < n ==> !pipeFails(i))
    ensures forall i :: 0 <= i < |children| ==> children[i] == AtExec(initial, n, i)
    ensures n >= 2 && |children| > 0 ==>
      ((forall i :: 0 <= i < |children| ==> children[i] == Wired(initial, n, i)) <==> STDOUT in initial)
    ensures !exited ==> parent == initial
  {
    hide AtExec, Wired, ChildTable, LowestFree, UpTo;
    assert ParentAt(initial, n, 0, -1, initial);
    hide ParentAt, Close;
    children, parent, exited := [], initial, false;
    var prevPipe: int := -1;
    var i := 0;
    while i < n
      invariant 0 <= i <= n && |children| == i && !exited
      invariant ParentAt(initial, n, i, prevPipe, parent)
      invariant forall j :: 0 <= j < i ==> !forkFails(j) && (j + 1 < n ==> !pipeFails(j))
      invariant forall j :: 0 <= j < i ==> children[j] == AtExec(initial, n, j)
      invariant STDOUT in initial ==> forall j :: 0 <= j < i ==> children[j] == Wired(initial, n, j)
      invariant n >= 2 && i > 0 && STDOUT !in initial ==> children[0] != Wired(initial, n, 0)
    {
      ghost var before := parent;
      var readFd, writeFd := 0, 0;
      if i < n - 1 {
        if pipeFails(i) {
          exited := true;
          return;
        }
        StdinStays(initial, n, i, prevPipe, parent);
        readFd, writeFd, parent := MakePipe(parent, i);
      }
      if forkFails(i) {
        exited := true;
        return;
      }
      Round(initial, n, i, prevPipe, before, readFd, writeFd, parent);
      var child := StartChild(parent, prevPipe, i < n - 1, readFd, writeFd);
      children := children + [child];
      WiredIffKeepsStdout(initial, n, i);
      if prevPipe != -1 {
        parent := Close(parent, prevPipe);
      }
      if i < n - 1 {
        parent := Close(parent, writeFd);
        prevPipe := readFd;
      }
      i := i + 1;
    }
    Restored(initial, n, prevPipe, parent);
  }

  /** Command i starts as it should exactly if it keeps its standard output; a command that
      does not keep it should have had one, the write end of its pipe, and has none. */
  lemma WiredIffKeepsStdout(initial: Table, n: nat, i: nat)
    requires i < n
    ensures AtExec(initial, n, i) == Wired(initial, n, i) <==> KeepsStdout(initial, n, i)
    ensures !KeepsStdout(initial, n, i) ==>
      && STDOUT !in AtExec(initial, n, i)
      && STDOUT in Wired(initial, n, i) && Wired(initial, n, i)[STDOUT] == WriteEnd(i)
      && forall fd :: fd != STDOUT ==>
           && (fd in AtExec(initial, n, i) <==> fd in Wired(initial, n, i))
           && (fd in AtExec(initial, n, i) ==> AtExec(initial, n, i)[fd] == Wired(initial, n, i)[fd])
  {
  }

  // ----- what the wiring means -----

  /** The shell was started without any end of these pipes. */
  ghost predicate NoPipes(t: Table) {
    forall fd :: fd in t ==> t[fd].Inherited?
  }

  /** Only the standard streams of a command differ from the shell's: every other descriptor is
      inherited, and so are the first command's input and the last one's output. */
  lemma OthersAreInherited(t: Table, n: nat, i: nat, fd: nat)
    requires i < n
    requires fd == 0 ==> i == 0
    requires fd == 1 ==> i + 1 == n
    ensures fd in AtExec(t, n, i) <==> fd in t
    ensures fd in t ==> AtExec(t, n, i)[fd] == t[fd]
  {
  }

  /** Each pipe has exactly one reader, its right command on standard input, and exactly one
      writer, its left command on standard output - or none, if that command lost it; nobody
      else holds either end. */
  lemma OneWriterOneReader(t: Table, n: nat, i: nat, k: nat, fd: nat)
    requires NoPipes(t) && i < n && k + 1 < n
    ensures fd in AtExec(t, n, i) && AtExec(t, n, i)[fd] == WriteEnd(k)
      <==> i == k && fd == STDOUT && KeepsStdout(t, n, k)
    ensures fd in AtExec(t, n, i) && AtExec(t, n, i)[fd] == ReadEnd(k) <==> i == k + 1 && fd == STDIN
    ensures fd in t ==> t[fd] != WriteEnd(k) && t[fd] != ReadEnd(k)
  {
  }

  /** What a command makes of its whole input. */
  type Filter = seq<char> -> seq<char>

  /** A finished run: `arrived` gives what can be read from a file, `written` what was
      written to it; a pipe delivers what is written to it, and each command turned what it
      could read on its standard input into what it wrote to its standard output. */
  ghost predicate Finished(children: seq<Table>, commands: seq<Filter>,
                           arrived: File -> seq<char>, written: File -> seq<char>)
  {
    && |children| == |commands|
    && (forall k: nat :: arrived(ReadEnd(k)) == written(WriteEnd(k)))
    && forall i :: 0 <= i < |children| ==>
         STDIN in children[i] && STDOUT in children[i] &&
         written(children[i][STDOUT]) == commands[i](arrived(children[i][STDIN]))
  }

  /** The first k commands applied one after the other. */
  ghost function Composed(commands: seq<Filter>, k: nat, input: seq<char>): seq<char>
    requires k <= |commands|
  {
    if k == 0 then input else commands[k - 1](Composed(commands, k - 1, input))
  }

  lemma {:induction false} StageOutput(t: Table, children: seq<Table>, commands: seq<Filter>,
                                       arrived: File -> seq<char>, written: File -> seq<char>, i: nat)
    requires STDIN in t && STDOUT in t && i < |commands|
    requires Finished(children, commands, arrived, written)
    requires forall j :: 0 <= j < |children| ==> children[j] == Wired(t, |children|, j)
    ensures written(children[i][STDOUT]) == Composed(commands, i + 1, arrived(t[STDIN]))
  {
    if i > 0 {
      StageOutput(t, children, commands, arrived, written, i - 1);
      assert children[i][STDIN] == ReadEnd(i - 1) && children[i - 1][STDOUT] == WriteEnd(i - 1);
    } else {
      assert children[0][STDIN] == t[STDIN];
    }
  }

  /** A pipeline means function composition: from the shell's input to the shell's output. */
  lemma PipelineComposes(t: Table, children: seq<Table>, commands: seq<Filter>,
                         arrived: File -> seq<char>, written: File -> seq<char>)
    requires STDIN in t && STDOUT in t && |commands| > 0
    requires Finished(children, commands, arrived, written)
    requires forall j :: 0 <= j < |children| ==> children[j] == Wired(t, |children|, j)
    ensures written(t[STDOUT]) == Composed(commands, |commands|, arrived(t[STDIN]))
  {
    StageOutput(t, children, commands, arrived, written, |commands| - 1);
  }
}
