/** Framing on the daemon socket (LocalSocketController::readData in
    src/localsocketcontroller.cpp): the byte stream is cut at newlines however
    it was cut into reads. */
module DaemonStream {
  import opened Common
  import opened Bits

  type Bytes = seq<Byte>

  const NEWLINE: Byte := 10

  predicate IsSpace(b: Byte) {
    b == 32 || 9 <= b <= 13
  }

  /** QByteArray::trimmed() */
  function TrimLeft(s: Bytes): Bytes {
    if s == [] || !IsSpace(s[0]) then s else TrimLeft(s[1..])
  }

  function TrimRight(s: Bytes): Bytes {
    if s == [] || !IsSpace(s[|s| - 1]) then s else TrimRight(s[..|s| - 1])
  }

  function Trimmed(s: Bytes): Bytes {
    TrimRight(TrimLeft(s))
  }

  /** Position of the first newline, or the length. */
  function IndexOf(s: Bytes): (i: nat)
    ensures i <= |s| && (i < |s| ==> s[i] == NEWLINE)
    ensures forall j :: 0 <= j < i ==> s[j] != NEWLINE
  {
    if s == [] || s[0] == NEWLINE then 0 else 1 + IndexOf(s[1..])
  }

  /** The terminated lines of a stream, and what follows the last newline. */
  function Lines(s: Bytes): seq<Bytes>
    decreases |s|
  {
    var i := IndexOf(s);
    if i == |s| then [] else [s[..i]] + Lines(s[i + 1..])
  }

  function Tail(s: Bytes): Bytes
    decreases |s|
  {
    var i := IndexOf(s);
    if i == |s| then s else Tail(s[i + 1..])
  }

  /** Trimmed, without the empty ones. */
  function NonEmpty(lines: seq<Bytes>): seq<Bytes> {
    if lines == [] then []
    else (if Trimmed(lines[0]) == [] then [] else [Trimmed(lines[0])]) + NonEmpty(lines[1..])
  }

  function CommandsOf(s: Bytes): seq<Bytes> {
    NonEmpty(Lines(s))
  }

  // ------------------------------------------------------------------
  // Splitting is exact
  // ------------------------------------------------------------------

  function Terminated(lines: seq<Bytes>): Bytes {
    if lines == [] then [] else lines[0] + [NEWLINE] + Terminated(lines[1..])
  }

  /** Taking off the first line. */
  lemma FirstLine(s: Bytes)
    requires IndexOf(s) < |s|
    ensures var i := IndexOf(s);
      Lines(s) == [s[..i]] + Lines(s[i + 1..]) && Tail(s) == Tail(s[i + 1..])
  {
    hide IndexOf;
  }

  lemma CutAtNewline(s: Bytes, i: nat)
    requires i < |s| && s[i] == NEWLINE && forall j :: 0 <= j < i ==> s[j] != NEWLINE
    ensures s == s[..i] + [NEWLINE] + s[i + 1..] && NEWLINE !in s[..i]
  {
  }

  lemma NoLine(s: Bytes)
    requires IndexOf(s) == |s|
    ensures Lines(s) == [] && Tail(s) == s && NEWLINE !in s
    ensures Terminated(Lines(s)) == [] && NonEmpty(Lines(s)) == []
  {
  }

  lemma TerminatedCons(line: Bytes, lines: seq<Bytes>)
    ensures Terminated([line] + lines) == line + [NEWLINE] + Terminated(lines)
  {
    assert ([line] + lines)[1..] == lines;
  }

  /** The lines and the tail are the stream, cut at every newline. */
  lemma {:induction false} SplitExact(s: Bytes)
    ensures Terminated(Lines(s)) + Tail(s) == s
    ensures NEWLINE !in Tail(s)
    ensures forall k :: 0 <= k < |Lines(s)| ==> NEWLINE !in Lines(s)[k]
    decreases |s|
  {
    hide IndexOf, Lines, Tail, Terminated;
    var i := IndexOf(s);
    if i < |s| {
      FirstLine(s);
      CutAtNewline(s, i);
      var line, rest := s[..i], s[i + 1..];
      SplitExact(rest);
      TerminatedCons(line, Lines(rest));
      Join(line, Terminated(Lines(rest)), Tail(rest));
    } else {
      NoLine(s);
      assert [] + s == s;
    }
  }

  lemma Join(a: Bytes, b: Bytes, c: Bytes)
    ensures a + [NEWLINE] + b + c == a + [NEWLINE] + (b + c)
  {
  }

  /** Reading on: the tail of what came before takes part in the next line. */
  lemma {:induction false} SplitAppend(a: Bytes, b: Bytes)
    ensures Lines(a + b) == Lines(a) + Lines(Tail(a) + b)
    ensures Tail(a + b) == Tail(Tail(a) + b)
    decreases |a|
  {
    hide IndexOf, Lines, Tail;
    var i := IndexOf(a);
    if i < |a| {
      var line, rest := a[..i], a[i + 1..];
      IndexOfAppend(a, b);
      FirstLine(a);
      FirstLine(a + b);
      assert (a + b)[i + 1..] == rest + b && (a + b)[..i] == line;
      SplitAppend(rest, b);
      assert [line] + (Lines(rest) + Lines(Tail(rest) + b)) == ([line] + Lines(rest)) + Lines(Tail(rest) + b);
    } else {
      NoLine(a);
      assert [] + Lines(a + b) == Lines(a + b);
    }
  }

  lemma IndexOfAppend(a: Bytes, b: Bytes)
    requires IndexOf(a) < |a|
    ensures IndexOf(a + b) == IndexOf(a)
  {
    assert (a + b)[IndexOf(a)] == NEWLINE;
    assert forall j :: 0 <= j < IndexOf(a) ==> (a + b)[j] != NEWLINE;
  }

  lemma NonEmptyCons(line: Bytes, lines: seq<Bytes>)
    ensures NonEmpty([line] + lines) == (if Trimmed(line) == [] then [] else [Trimmed(line)]) + NonEmpty(lines)
  {
    hide Trimmed;
    assert ([line] + lines)[1..] == lines;
  }

  lemma {:induction false} NonEmptyAppend(a: seq<Bytes>, b: seq<Bytes>)
    ensures NonEmpty(a + b) == NonEmpty(a) + NonEmpty(b)
  {
    hide Trimmed;
    if a == [] {
      assert a + b == b;
    } else {
      assert (a + b)[0] == a[0] && (a + b)[1..] == a[1..] + b;
      NonEmptyAppend(a[1..], b);
    }
  }

  // ------------------------------------------------------------------
  // The reader object
  // ------------------------------------------------------------------

  class SocketReader {
    var buffer: Bytes

    constructor ()
      ensures buffer == []
    {
      buffer := [];
    }

    /** readData(): returns the commands handed to parseCommand, in order. */
    method ReadData(input: Bytes) returns (commands: seq<Bytes>)
      modifies this
      ensures commands == CommandsOf(old(buffer) + input)
      ensures buffer == Tail(old(buffer) + input)
    {
      hide Trimmed, Lines, Tail, NonEmpty;
      buffer := buffer + input;
      commands := [];
      ghost var all := buffer;
      while true
        invariant commands + NonEmpty(Lines(buffer)) == NonEmpty(Lines(all))
        invariant Tail(buffer) == Tail(all)
        decreases |buffer|
      {
        var pos := IndexOf(buffer);
        if pos == |buffer| {
          NoLine(buffer);
          assert commands + [] == commands;
          break;
        }
        FirstLine(buffer);
        var line := buffer[..pos];
        buffer := buffer[pos + 1..];
        NonEmptyCons(line, Lines(buffer));
        var command := Trimmed(line);
        if command == [] {
          continue;
        }
        assert commands + ([command] + NonEmpty(Lines(buffer))) == commands + [command] + NonEmpty(Lines(buffer));
        commands := commands + [command];
      }
    }
  }

  /** What readData does to the buffer and the commands, over many reads. */
  function Feed(buffer: Bytes, pieces: seq<Bytes>): (seq<Bytes>, Bytes)
    decreases |pieces|
  {
    if pieces == [] then ([], buffer)
    else
      var s := buffer + pieces[0];
      var (commands, last) := Feed(Tail(s), pieces[1..]);
      (CommandsOf(s) + commands, last)
  }

  function Flatten(pieces: seq<Bytes>): Bytes {
    if pieces == [] then [] else pieces[0] + Flatten(pieces[1..])
  }

  /** However the stream is cut into reads, the commands are those of the whole
      stream and the buffer is its unterminated tail. */
  lemma {:induction false} ReadsDoNotMatter(buffer: Bytes, pieces: seq<Bytes>)
    requires NEWLINE !in buffer
    ensures Feed(buffer, pieces) == (CommandsOf(buffer + Flatten(pieces)), Tail(buffer + Flatten(pieces)))
    decreases |pieces|
  {
    hide IndexOf, Lines, Tail, NonEmpty;
    if pieces == [] {
      assert buffer + Flatten(pieces) == buffer;
      assert IndexOf(buffer) == |buffer|;
      NoLine(buffer);
    } else {
      var s, rest := buffer + pieces[0], Flatten(pieces[1..]);
      SplitExact(s);
      ReadsDoNotMatter(Tail(s), pieces[1..]);
      assert buffer + Flatten(pieces) == s + rest;
      SplitAppend(s, rest);
      NonEmptyAppend(Lines(s), Lines(Tail(s) + rest));
    }
  }

  // ------------------------------------------------------------------
  // A new connection
  // ------------------------------------------------------------------

  ghost predicate AllSpace(s: Bytes) {
    forall i :: 0 <= i < |s| ==> IsSpace(s[i])
  }

  lemma {:induction false} TrimRightAppend(a: Bytes, s: Bytes)
    ensures TrimRight(a + s) == if AllSpace(s) then TrimRight(a) else a + TrimRight(s)
  {
    if s == [] {
      assert a + s == a;
    } else {
      var n := |s| - 1;
      assert (a + s)[..|a + s| - 1] == a + s[..n] && (a + s)[|a + s| - 1] == s[n];
      if IsSpace(s[n]) {
        TrimRightAppend(a, s[..n]);
        assert AllSpace(s) <==> AllSpace(s[..n]);
      }
    }
  }

  /** TrimLeft drops the leading space and stops at the first other byte. */
  lemma {:induction false} TrimLeftSplits(s: Bytes) returns (k: nat)
    ensures k <= |s| && AllSpace(s[..k]) && TrimLeft(s) == s[k..]
    ensures k < |s| ==> !IsSpace(s[k])
  {
    if s == [] || !IsSpace(s[0]) {
      k := 0;
    } else {
      k := TrimLeftSplits(s[1..]);
      assert s[1..][k..] == s[k + 1..];
      assert forall i :: 1 <= i < k + 1 ==> s[i] == s[1..][..k][i - 1];
      k := k + 1;
    }
  }

  lemma TrimmedLength(s: Bytes)
    ensures AllSpace(s) ==> Trimmed(s) == []
    ensures |Trimmed(s)| <= |TrimRight(s)|
  {
    hide TrimRight, TrimLeft;
    var k := TrimLeftSplits(s);
    assert s == s[..k] + s[k..];
    TrimRightAppend(s[..k], s[k..]);
    if AllSpace(s[k..]) {
      TrimRightAppend([], s[k..]);
      assert [] + s[k..] == s[k..];
      assert TrimRight([]) == [] by { NothingToTrim(); }
    }
  }

  lemma NothingToTrim()
    ensures TrimRight([]) == []
  {
  }

  /** trimmed() takes the blanks off both ends and nothing else. */
  lemma TrimmedIs(s: Bytes) returns (left: Bytes, right: Bytes)
    ensures s == left + Trimmed(s) + right && AllSpace(left) && AllSpace(right)
    ensures Trimmed(s) != [] ==> !IsSpace(Trimmed(s)[0]) && !IsSpace(Trimmed(s)[|Trimmed(s)| - 1])
  {
    hide TrimRight, TrimLeft;
    var k := TrimLeftSplits(s);
    left := s[..k];
    var middle := s[k..];
    var n := TrimRightSplits(middle);
    right := middle[n..];
    assert middle == middle[..n] + right;
    assert s == left + middle;
  }

  lemma {:induction false} TrimRightSplits(s: Bytes) returns (n: nat)
    ensures n <= |s| && AllSpace(s[n..]) && TrimRight(s) == s[..n]
    ensures n > 0 ==> !IsSpace(s[n - 1])
  {
    if s == [] || !IsSpace(s[|s| - 1]) {
      n := |s|;
    } else {
      n := TrimRightSplits(s[..|s| - 1]);
      assert s[..|s| - 1][..n] == s[..n];
      assert forall i :: n <= i < |s| - 1 ==> s[i] == s[..|s| - 1][n..][i - n];
    }
  }

  /** Space is a space, a tab, a newline, or one of the three controls between. */
  lemma SpaceIs(b: Byte)
    ensures IsSpace(b) <==> b in {9, 10, 11, 12, 13, 32}
  {
  }

  /** Each line that is not blank becomes one command, its trimmed text, in the
      order of the lines; a blank one becomes none. */
  lemma {:induction false} CommandsAreLines(lines: seq<Bytes>) returns (full: seq<Bytes>)
    ensures Filtered(lines, (line: Bytes) => !(Trimmed(line) == []), full)
    ensures |NonEmpty(lines)| == |full| && forall k :: 0 <= k < |full| ==> NonEmpty(lines)[k] == Trimmed(full[k])
  {
    var keep := (line: Bytes) => !(Trimmed(line) == []);
    full := Kept(lines, keep);
    FilteredIff(lines, keep, full);
    NonEmptyKept(lines, keep);
  }

  lemma {:induction false} NonEmptyKept(lines: seq<Bytes>, keep: Bytes -> bool)
    requires forall line :: keep(line) <==> Trimmed(line) != []
    ensures var full := Kept(lines, keep);
      |NonEmpty(lines)| == |full| && forall k :: 0 <= k < |full| ==> NonEmpty(lines)[k] == Trimmed(full[k])
  {
    hide Trimmed;
    if lines != [] {
      NonEmptyKept(lines[1..], keep);
      KeptCons(lines[0], lines[1..], keep);
      assert [lines[0]] + lines[1..] == lines;
    }
  }

  /** Text in front of a line lengthens the command exactly if it is not blank. */
  lemma TrimmedBehind(t: Bytes, line: Bytes)
    ensures AllSpace(t) ==> Trimmed(t + line) == Trimmed(line)
    ensures !AllSpace(t) ==> |Trimmed(t + line)| > |Trimmed(line)|
  {
    hide TrimRight, TrimLeft;
    TrimLeftBehind(t, line);
    if !AllSpace(t) {
      var k := TrimLeftSplits(t);
      var a := t[k..];
      assert a != [] && !IsSpace(a[0]);
      TrimmedLength(line);
      TrimRightAppend(a, line);
      if AllSpace(line) {
        TrimRightAppend([a[0]], a[1..]);
        assert [a[0]] + a[1..] == a;
        assert TrimRight([a[0]]) == [a[0]] by { SolidStays(a[0]); }
      }
    }
  }

  lemma SolidStays(b: Byte)
    requires !IsSpace(b)
    ensures TrimRight([b]) == [b]
  {
  }

  lemma {:induction false} TrimLeftBehind(t: Bytes, line: Bytes)
    ensures TrimLeft(t + line) == if AllSpace(t) then TrimLeft(line) else TrimLeft(t) + line
  {
    if t == [] {
      assert t + line == line;
    } else {
      assert (t + line)[0] == t[0] && (t + line)[1..] == t[1..] + line;
      if IsSpace(t[0]) {
        TrimLeftBehind(t[1..], line);
        assert AllSpace(t) <==> AllSpace(t[1..]) by {
          assert forall i :: 1 <= i < |t| ==> t[i] == t[1..][i - 1];
        }
      }
    }
  }

  /** A tail in front of a stream leaves its commands as they are if and only if
      the tail is blank or the stream completes no line. */
  lemma TailInFront(t: Bytes, s: Bytes)
    requires NEWLINE !in t
    ensures CommandsOf(t + s) == CommandsOf(s) <==> AllSpace(t) || NEWLINE !in s
  {
    hide Trimmed, Lines, Tail, NonEmpty;
    var i := IndexOf(s);
    if i == |s| {
      NoLine(s);
      assert NEWLINE !in t + s;
      assert IndexOf(t + s) == |t + s|;
      NoLine(t + s);
    } else {
      IndexBehind(t, s);
      FirstLine(s);
      FirstLine(t + s);
      assert (t + s)[..|t| + i] == t + s[..i] && (t + s)[|t| + i + 1..] == s[i + 1..];
      NonEmptyCons(s[..i], Lines(s[i + 1..]));
      NonEmptyCons(t + s[..i], Lines(s[i + 1..]));
      TrimmedBehind(t, s[..i]);
      assert s[i] == NEWLINE;
      var x, y, rest := Trimmed(t + s[..i]), Trimmed(s[..i]), NonEmpty(Lines(s[i + 1..]));
      assert CommandsOf(t + s) == (if x == [] then [] else [x]) + rest;
      assert CommandsOf(s) == (if y == [] then [] else [y]) + rest;
      if !AllSpace(t) {
        if y == [] {
          assert |[x] + rest| > |rest|;
        } else {
          var with, without := [x] + rest, [y] + rest;
          assert with[0] == x && without[0] == y;
        }
      }
    }
  }

  lemma {:induction false} IndexBehind(t: Bytes, s: Bytes)
    requires NEWLINE !in t
    ensures IndexOf(t + s) == |t| + IndexOf(s)
  {
    if t == [] {
      assert t + s == s;
    } else {
      assert (t + s)[0] == t[0] && (t + s)[1..] == t[1..] + s;
      IndexBehind(t[1..], s);
    }
  }

  /** The buffer outlives the connection: however the new stream is cut into
      reads, the commands are its own if and only if what the old connection left
      unterminated is blank or no line is completed yet. */
  lemma NewConnection(left: Bytes, pieces: seq<Bytes>)
    requires NEWLINE !in left
    ensures Feed(left, pieces).0 == CommandsOf(Flatten(pieces))
       <==> AllSpace(left) || NEWLINE !in Flatten(pieces)
  {
    hide Feed, CommandsOf;
    ReadsDoNotMatter(left, pieces);
    TailInFront(left, Flatten(pieces));
  }
}
