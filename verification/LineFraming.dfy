/**
 Line framing over pipes, as the taxi dispatcher and its drivers use it: `read_line` takes
 characters one by one up to a newline, the end of the pipe, or a full buffer.
 */
module LineFraming {

  const BUF_SIZE := 256
  const NEWLINE: char := '\n'

  /** What one call of read(fd, &c, 1) can bring. */
  datatype ReadResult = Byte(c: char) | Eof | Interrupted | Failed

  /** What `read_line` returns: the line it stored, or -1. */
  datatype LineResult = Line(s: string) | Error

  /** `read_line` on the results still to come, with `got` stored so far; when no result is
      left the pipe is at its end. */
  function ReadFrom(incoming: seq<ReadResult>, got: string, size: nat): (LineResult, seq<ReadResult>)
    decreases |incoming|
  {
    if |got| + 1 >= size || incoming == [] then (Line(got), incoming)
    else
      match incoming[0]
      case Eof => (Line(got), incoming[1..])
      case Interrupted => ReadFrom(incoming[1..], got, size)
      case Failed => (Error, incoming[1..])
      case Byte(c) => if c == NEWLINE then (Line(got), incoming[1..]) else ReadFrom(incoming[1..], got + [c], size)
  }

  function ReadLine(incoming: seq<ReadResult>): (LineResult, seq<ReadResult>) {
    ReadFrom(incoming, "", BUF_SIZE)
  }

  /** Repeated reading until the first empty or failed result, which ends the reader. */
  function ReadAll(incoming: seq<ReadResult>): seq<string>
    decreases |incoming|
  {
    var (r, rest) := ReadLine(incoming);
    if r.Error? || r.s == "" then []
    else ReadFromShrinks(incoming, "", BUF_SIZE); [r.s] + ReadAll(rest)
  }

  lemma {:induction false} ReadFromShrinks(incoming: seq<ReadResult>, got: string, size: nat)
    ensures var (r, rest) := ReadFrom(incoming, got, size);
      |rest| <= |incoming| && (r.Line? ==> |got| <= |r.s|) && (r.Line? && |r.s| > |got| ==> |rest| < |incoming|)
    decreases |incoming|
  {
    if !(|got| + 1 >= size || incoming == []) {
      match incoming[0]
      case Interrupted => ReadFromShrinks(incoming[1..], got, size);
      case Byte(c) =>
        if c != NEWLINE {
          ReadFromShrinks(incoming[1..], got + [c], size);
        }
      case _ =>
    }
  }

  /** The read end of a pipe. */
  class Pipe {
    var incoming: seq<ReadResult>

    constructor (incoming: seq<ReadResult>)
      ensures this.incoming == incoming
    {
      this.incoming := incoming;
    }

    method Read() returns (r: ReadResult)
      modifies this
      ensures if old(incoming) == [] then r == Eof && incoming == []
        else r == old(incoming)[0] && incoming == old(incoming)[1..]
    {
      if incoming == [] {
        return Eof;
      }
      r, incoming := incoming[0], incoming[1..];
    }

    /** `read_line`: n is the number of characters stored in the buffer, or -1. */
    method ReadLine(buf: array<char>) returns (n: int)
      requires buf.Length > 0
      modifies this, buf
      ensures var (r, rest) := ReadFrom(old(incoming), "", buf.Length);
        && incoming == rest
        && (if r.Error? then n == -1 else 0 <= n < buf.Length && buf[..n] == r.s && buf[n] == '\0')
    {
      var i := 0;
      while i < buf.Length - 1
        invariant 0 <= i < buf.Length
        invariant ReadFrom(incoming, buf[..i], buf.Length) == ReadFrom(old(incoming), "", buf.Length)
        decreases |incoming|, buf.Length - i
      {
        var r := Read();
        if r.Eof? {
          break;
        }
        if r.Interrupted? {
          continue;
        }
        if r.Failed? {
          return -1;
        }
        if r.c == NEWLINE {
          break;
        }
        ghost var got := buf[..i];
        buf[i] := r.c;
        i := i + 1;
        assert buf[..i] == got + [r.c];
      }
      buf[i] := '\0';
      n := i;
    }
  }

  // ----- framing is undone by reading -----

  /** The results bring exactly `text`, possibly interrupted, and no end or failure. */
  ghost predicate Brings(incoming: seq<ReadResult>, text: string)
    decreases |incoming|
  {
    if incoming == [] then text == ""
    else if incoming[0].Interrupted? then Brings(incoming[1..], text)
    else incoming[0].Byte? && text != "" && incoming[0].c == text[0] && Brings(incoming[1..], text[1..])
  }

  /** Newline-terminated lines, one after the other. */
  function Framed(lines: seq<string>): string {
    if lines == [] then "" else lines[0] + [NEWLINE] + Framed(lines[1..])
  }

  predicate IsLine(s: string) {
    forall i :: 0 <= i < |s| ==> s[i] != NEWLINE
  }

  lemma {:induction false} ReadFromBrings(incoming: seq<ReadResult>, got: string, line: string, rest: string)
    requires IsLine(line) && Brings(incoming, line + [NEWLINE] + rest) && |got| + |line| < BUF_SIZE - 1
    ensures var (r, left) := ReadFrom(incoming, got, BUF_SIZE);
      r == Line(got + line) && Brings(left, rest) && |left| < |incoming|
    decreases |incoming|
  {
    var text := line + [NEWLINE] + rest;
    if incoming[0].Interrupted? {
      ReadFromBrings(incoming[1..], got, line, rest);
    } else if line == "" {
      assert text[1..] == rest;
      assert got + line == got;
    } else {
      assert text[0] == line[0] && text[1..] == line[1..] + [NEWLINE] + rest;
      ReadFromBrings(incoming[1..], got + [line[0]], line[1..], rest);
      assert got + [line[0]] + line[1..] == got + line;
    }
  }

  /** Any list of newline-free lines of length 1 to 254 comes back exactly, however often the
      reads are interrupted. */
  lemma {:induction false} FramingRoundTrip(incoming: seq<ReadResult>, lines: seq<string>)
    requires Brings(incoming, Framed(lines))
    requires forall i :: 0 <= i < |lines| ==> IsLine(lines[i]) && 1 <= |lines[i]| <= 254
    ensures ReadAll(incoming) == lines
    decreases |lines|, |incoming|
  {
    if lines == [] {
      ReadFromNothing(incoming);
    } else {
      ReadFromBrings(incoming, "", lines[0], Framed(lines[1..]));
      assert "" + lines[0] == lines[0];
      var (r, rest) := ReadLine(incoming);
      FramingRoundTrip(rest, lines[1..]);
    }
  }

  lemma {:induction false} ReadFromNothing(incoming: seq<ReadResult>)
    requires Brings(incoming, "")
    ensures ReadFrom(incoming, "", BUF_SIZE).0 == Line("")
    decreases |incoming|
  {
    if incoming != [] {
      ReadFromNothing(incoming[1..]);
    }
  }

  function Bytes(s: string): (r: seq<ReadResult>)
    ensures |r| == |s|
  {
    seq(|s|, i requires 0 <= i < |s| => Byte(s[i]))
  }

  lemma {:induction false} BytesBring(s: string)
    ensures Brings(Bytes(s), s)
  {
    if s != "" {
      assert Bytes(s)[1..] == Bytes(s[1..]);
      BytesBring(s[1..]);
    }
  }

  lemma {:induction false} ReadFromFull(line: string, got: string, rest: seq<ReadResult>)
    requires IsLine(line) && |got| + |line| >= BUF_SIZE - 1 && |got| <= BUF_SIZE - 1
    ensures ReadFrom(Bytes(line) + rest, got, BUF_SIZE).0 == Line((got + line)[..BUF_SIZE - 1])
    decreases |line|
  {
    if |got| < BUF_SIZE - 1 {
      assert (Bytes(line) + rest)[1..] == Bytes(line[1..]) + rest;
      ReadFromFull(line[1..], got + [line[0]], rest);
      assert got + [line[0]] + line[1..] == got + line;
    } else {
      assert (got + line)[..BUF_SIZE - 1] == got;
    }
  }

  /** The end of the pipe gives what came before it as a line, a failure gives -1. */
  lemma {:induction false} LineCutShort(line: string, got: string, r: ReadResult, rest: seq<ReadResult>)
    requires IsLine(line) && |got| + |line| < BUF_SIZE - 1 && (r.Eof? || r.Failed?)
    ensures ReadFrom(Bytes(line) + [r] + rest, got, BUF_SIZE) == (if r.Eof? then Line(got + line) else Error, rest)
    ensures ReadFrom(Bytes(line), got, BUF_SIZE) == (Line(got + line), [])
    decreases |line|
  {
    if line == "" {
      assert Bytes(line) + [r] + rest == [r] + rest && got + line == got;
    } else {
      assert (Bytes(line) + [r] + rest)[1..] == Bytes(line[1..]) + [r] + rest;
      assert Bytes(line)[1..] == Bytes(line[1..]);
      LineCutShort(line[1..], got + [line[0]], r, rest);
      assert got + [line[0]] + line[1..] == got + line;
    }
  }

  /** The bound is exact: a newline-terminated line is read back as it was exactly when it
      has at most 254 characters; a longer one is split. */
  lemma LineComesBackIff(line: string, rest: string)
    requires IsLine(line)
    ensures var (r, left) := ReadLine(Bytes(line + [NEWLINE] + rest));
      (r == Line(line) && Brings(left, rest)) <==> |line| <= 254
  {
    var text := line + [NEWLINE] + rest;
    BytesBring(text);
    if |line| <= BUF_SIZE - 2 {
      ReadFromBrings(Bytes(text), "", line, rest);
      assert "" + line == line;
    } else {
      assert Bytes(text) == Bytes(line) + Bytes([NEWLINE] + rest);
      ReadFromFull(line, "", Bytes([NEWLINE] + rest));
      assert "" + line == line;
      if |line| == BUF_SIZE - 1 {
        NewlineStays(line, "", Bytes([NEWLINE] + rest));
        assert Bytes([NEWLINE] + rest)[0] == Byte(NEWLINE);
        LongerThanBrought(Bytes([NEWLINE] + rest), rest);
      }
    }
  }

  lemma {:induction false} NewlineStays(line: string, got: string, rest: seq<ReadResult>)
    requires IsLine(line) && |got| + |line| == BUF_SIZE - 1
    ensures ReadFrom(Bytes(line) + rest, got, BUF_SIZE).1 == rest
    decreases |line|
  {
    if line == "" {
      assert Bytes(line) + rest == rest;
    } else {
      assert (Bytes(line) + rest)[1..] == Bytes(line[1..]) + rest;
      NewlineStays(line[1..], got + [line[0]], rest);
    }
  }

  lemma {:induction false} LongerThanBrought(incoming: seq<ReadResult>, text: string)
    requires forall i :: 0 <= i < |incoming| ==> incoming[i].Byte?
    requires |incoming| != |text|
    ensures !Brings(incoming, text)
    decreases |incoming|
  {
    if incoming != [] && text != "" {
      LongerThanBrought(incoming[1..], text[1..]);
    }
  }
}
