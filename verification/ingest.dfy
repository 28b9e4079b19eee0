/** Incremental ingestion of a growing log by byte offset: each tick reads from the stored offset to the end,
    handles the lines, and advances the offset by the length of each line plus one. */
module Ingest {
  import opened Prelude

  type Byte = bv8

  const LF: Byte := 10
  const CR: Byte := 13

  // ---------------------------------------------------------------- lines

  function LineEnd(s: seq<Byte>): (n: nat)
    ensures n <= |s|
    ensures n < |s| ==> s[n] == LF
    ensures forall i :: 0 <= i < n ==> s[i] != LF
  {
    if s == [] || s[0] == LF then 0 else 1 + LineEnd(s[1..])
  }

  /** A carriage return right before the line feed belongs to the line end. */
  function StripCr(line: seq<Byte>): seq<Byte> {
    if line != [] && line[|line| - 1] == CR then line[..|line| - 1] else line
  }

  /** The lines of a text; the last may lack its line feed, and then keeps its carriage return. */
  function Lines(s: seq<Byte>): seq<seq<Byte>>
    decreases |s|
  {
    if s == [] then []
    else
      var n := LineEnd(s);
      if n == |s| then [s] else [StripCr(s[..n])] + Lines(s[n + 1..])
  }

  /** What the offset grows by: each line counts its own length and one more. */
  function Advance(lines: seq<seq<Byte>>): nat {
    if lines == [] then 0 else |lines[0]| + 1 + Advance(lines[1..])
  }

  function NonEmpty(lines: seq<seq<Byte>>): seq<seq<Byte>> {
    if lines == [] then [] else (if lines[0] == [] then [] else [lines[0]]) + NonEmpty(lines[1..])
  }

  /** Line ends of two bytes. */
  function CrLfs(s: seq<Byte>): nat {
    if |s| < 2 then 0 else (if s[0] == CR && s[1] == LF then 1 else 0) + CrLfs(s[1..])
  }

  predicate Unterminated(s: seq<Byte>) {
    s != [] && s[|s| - 1] != LF
  }

  lemma {:induction false} NoCrLfInLine(s: seq<Byte>)
    requires forall i :: 0 <= i < |s| ==> s[i] != LF
    ensures CrLfs(s) == 0
  {
    if |s| >= 2 {
      NoCrLfInLine(s[1..]);
    }
  }

  /** A line and its end hold at most one two-byte line end. */
  lemma {:induction false} CrLfsOfLine(s: seq<Byte>, n: nat)
    requires n < |s| && s[n] == LF && forall i :: 0 <= i < n ==> s[i] != LF
    ensures CrLfs(s) == (if n > 0 && s[n - 1] == CR then 1 else 0) + CrLfs(s[n + 1..])
  {
    if n == 0 {
      if |s| >= 2 {
        assert s[1..] == s[n + 1..];
      }
    } else {
      CrLfsOfLine(s[1..], n - 1);
      assert s[1..][n..] == s[n + 1..];
    }
  }

  lemma AdvanceCons(line: seq<Byte>, rest: seq<seq<Byte>>)
    ensures Advance([line] + rest) == |line| + 1 + Advance(rest)
  {
    assert ([line] + rest)[1..] == rest;
  }

  lemma SameEnd(s: seq<Byte>, n: nat)
    requires n < |s| && s[n] == LF
    ensures Unterminated(s[n + 1..]) == Unterminated(s)
  {
  }

  lemma AdvanceOfLast(s: seq<Byte>)
    requires s != [] && LineEnd(s) == |s|
    ensures Advance(Lines(s)) == |s| + 1 && Unterminated(s)
  {
    AdvanceCons(s, []);
    assert [s] + [] == [s];
  }

  /** What the first line contributes. */
  lemma AdvanceOfFirst(s: seq<Byte>, n: nat)
    requires n == LineEnd(s) < |s|
    ensures Advance(Lines(s)) - |s| + CrLfs(s) == Advance(Lines(s[n + 1..])) - |s[n + 1..]| + CrLfs(s[n + 1..])
    ensures Unterminated(s) == Unterminated(s[n + 1..])
  {
    CrLfsOfLine(s, n);
    AdvanceCons(StripCr(s[..n]), Lines(s[n + 1..]));
    SameEnd(s, n);
  }

  /** The advance falls short of the bytes read by one for every two-byte line end and exceeds them by one when
      the last line has no line feed. */
  lemma {:induction false} AdvanceIs(s: seq<Byte>)
    ensures Advance(Lines(s)) == |s| - CrLfs(s) + (if Unterminated(s) then 1 else 0)
    decreases |s|
  {
    if s != [] {
      var n := LineEnd(s);
      if n == |s| {
        NoCrLfInLine(s);
        AdvanceOfLast(s);
      } else {
        AdvanceIs(s[n + 1..]);
        AdvanceOfFirst(s, n);
      }
    }
  }

  /** Splitting a text behind its first line feed. */
  lemma FirstLineOfPair(a: seq<Byte>, b: seq<Byte>)
    requires a != [] && !Unterminated(a)
    ensures var n := LineEnd(a);
      && n < |a| && LineEnd(a + b) == n && (a + b)[..n] == a[..n] && (a + b)[n + 1..] == a[n + 1..] + b
      && !Unterminated(a[n + 1..])
  {
    var n := LineEnd(a);
    assert a[|a| - 1] == LF;
    FirstLineEnd(a + b, n);
    assert a[n + 1..] != [] ==> a[n + 1..][|a| - n - 2] == a[|a| - 1];
  }

  /** Lines of a text whose first part ends a line. */
  lemma {:induction false} LinesOfPair(a: seq<Byte>, b: seq<Byte>)
    requires !Unterminated(a)
    ensures Lines(a + b) == Lines(a) + Lines(b)
    decreases |a|
  {
    if a == [] {
      assert a + b == b;
    } else {
      FirstLineOfPair(a, b);
      var n := LineEnd(a);
      LinesOfPair(a[n + 1..], b);
      Associate([StripCr(a[..n])], Lines(a[n + 1..]), Lines(b));
    }
  }

  lemma FirstLineEnd(s: seq<Byte>, n: nat)
    requires n < |s| && s[n] == LF && forall i :: 0 <= i < n ==> s[i] != LF
    ensures LineEnd(s) == n
  {
    var m := LineEnd(s);
    assert m <= n;
  }

  lemma {:induction false} NonEmptyOfPair(a: seq<seq<Byte>>, b: seq<seq<Byte>>)
    ensures NonEmpty(a + b) == NonEmpty(a) + NonEmpty(b)
  {
    if a == [] {
      assert a + b == b;
    } else {
      assert (a + b)[1..] == a[1..] + b;
      NonEmptyOfPair(a[1..], b);
    }
  }

  lemma {:induction false} AdvanceOfPair(a: seq<seq<Byte>>, b: seq<seq<Byte>>)
    ensures Advance(a + b) == Advance(a) + Advance(b)
  {
    if a == [] {
      assert a + b == b;
    } else {
      assert (a + b)[1..] == a[1..] + b;
      AdvanceOfPair(a[1..], b);
    }
  }

  // ---------------------------------------------------------------- the tick

  /** The log, the stored offset, and the lines handled so far. */
  datatype Log = Log(content: seq<Byte>, offset: nat, handled: seq<seq<Byte>>)

  /** The file may grow between the size check and the read; the read may fail, as it does on text that is cut
      inside a character. */
  function Tick(g: Log, between: seq<Byte>, readable: bool): Log {
    var content := g.content + between;
    if |g.content| <= g.offset || !readable then g.(content := content)
    else
      var lines := Lines(content[g.offset..]);
      Log(content, g.offset + Advance(lines), g.handled + NonEmpty(lines))
  }

  class Ingester {
    var content: seq<Byte>
    var offset: nat
    var handled: seq<seq<Byte>>

    function State(): Log
      reads this
    {
      Log(content, offset, handled)
    }

    constructor ()
      ensures IsNew(State())
    {
      content, offset, handled := [], 0, [];
    }

    method Append(chunk: seq<Byte>)
      modifies this
      ensures State() == old(State()).(content := old(content) + chunk)
    {
      content := content + chunk;
    }

    method TickOnce(between: seq<Byte>, readable: bool)
      modifies this
      ensures State() == Tick(old(State()), between, readable)
    {
      var size := |content|;
      content := content + between;
      if size <= offset || !readable {
        return;
      }
      var lines := Lines(content[offset..]);
      var newOffset := offset;
      for i := 0 to |lines|
        invariant content == old(content) + between && offset == old(offset)
        invariant newOffset == offset + Advance(lines[..i])
        invariant handled == old(handled) + NonEmpty(lines[..i])
      {
        assert lines[..i + 1] == lines[..i] + [lines[i]];
        AdvanceOfPair(lines[..i], [lines[i]]);
        NonEmptyOfPair(lines[..i], [lines[i]]);
        assert [lines[i]][1..] == [];
        newOffset := newOffset + |lines[i]| + 1;
        if lines[i] == [] {
          continue;
        }
        handled := handled + [lines[i]];
      }
      assert lines[..|lines|] == lines;
      offset := newOffset;
    }
  }

  /** After a tick that reads, the stored offset is the number of bytes consumed exactly when the two-byte line
      ends of the new text are as many as its unterminated last lines: none and none, or one and one. */
  lemma OffsetIsExactWhen(g: Log, between: seq<Byte>)
    requires g.offset < |g.content|
    ensures var unread := (g.content + between)[g.offset..];
      Tick(g, between, true).offset == |g.content + between| <==> CrLfs(unread) == if Unterminated(unread) then 1 else 0
  {
    AdvanceIs((g.content + between)[g.offset..]);
  }

  // ---------------------------------------------------------------- runs

  datatype Event = Grow(chunk: seq<Byte>) | TickEvent(between: seq<Byte>, readable: bool)

  function Step(g: Log, e: Event): Log {
    match e
    case Grow(chunk) => g.(content := g.content + chunk)
    case TickEvent(between, readable) => Tick(g, between, readable)
  }

  function Run(g: Log, es: seq<Event>): Log {
    if es == [] then g else Step(Run(g, es[..|es| - 1]), es[|es| - 1])
  }

  /** A log nothing was written to and nothing read from. */
  predicate IsNew(g: Log) {
    g.content == [] && g.offset == 0 && g.handled == []
  }

  /** Whole lines, without carriage returns. */
  predicate Whole(s: seq<Byte>) {
    !Unterminated(s) && CR !in s
  }

  predicate WholeLines(es: seq<Event>) {
    forall i :: 0 <= i < |es| ==> match es[i] case Grow(chunk) => Whole(chunk) case TickEvent(between, _) => Whole(between)
  }

  /** The lines handled are those of the consumed part, and the offset is its length. */
  ghost predicate Inv(g: Log) {
    && g.offset <= |g.content| && Whole(g.content) && Whole(g.content[..g.offset])
    && g.handled == NonEmpty(Lines(g.content[..g.offset]))
  }

  lemma {:induction false} NoCrNoCrLf(s: seq<Byte>)
    requires CR !in s
    ensures CrLfs(s) == 0
  {
    if |s| >= 2 {
      NoCrNoCrLf(s[1..]);
    }
  }

  lemma GrowKeepsInv(g: Log, chunk: seq<Byte>)
    requires Inv(g) && Whole(chunk)
    ensures Inv(g.(content := g.content + chunk))
  {
    assert (g.content + chunk)[..g.offset] == g.content[..g.offset];
  }

  lemma ReadKeepsInv(g: Log)
    requires Inv(g) && g.offset < |g.content|
    ensures Inv(Tick(g, [], true)) && Tick(g, [], true).offset == |g.content|
  {
    assert g.content + [] == g.content;
    var old_, new_ := g.content[..g.offset], g.content[g.offset..];
    assert old_ + new_ == g.content;
    AdvanceIs(new_);
    NoCrNoCrLf(new_);
    LinesOfPair(old_, new_);
    NonEmptyOfPair(Lines(old_), Lines(new_));
    assert g.content[..|g.content|] == g.content;
  }

  lemma StepKeepsInv(g: Log, e: Event)
    requires Inv(g) && WholeLines([e])
    ensures Inv(Step(g, e))
    ensures e.TickEvent? && e.readable && |g.content| > g.offset ==> Step(g, e).offset == |Step(g, e).content|
  {
    assert e == [e][0];
    match e {
      case Grow(chunk) => GrowKeepsInv(g, chunk);
      case TickEvent(between, readable) =>
        var grown := g.(content := g.content + between);
        GrowKeepsInv(g, between);
        if |g.content| > g.offset && readable {
          assert grown.content + [] == grown.content;
          ReadKeepsInv(grown);
          assert Tick(g, between, true) == Tick(grown, [], true);
        }
    }
  }

  /** For a log that grows by whole lines without carriage returns, whatever the ticks and failed reads in
      between: the handled lines are those of one read of the part consumed, in order and once each, and the
      stored offset is the length of that part. */
  lemma {:induction false} TicksMatchOneRead(start: Log, es: seq<Event>)
    requires IsNew(start) && WholeLines(es)
    ensures var g := Run(start, es);
      g.offset <= |g.content| && g.handled == NonEmpty(Lines(g.content[..g.offset]))
    ensures Inv(Run(start, es))
  {
    if es != [] {
      var n := |es| - 1;
      assert WholeLines(es[..n]);
      TicksMatchOneRead(start, es[..n]);
      assert WholeLines([es[n]]);
      StepKeepsInv(Run(start, es[..n]), es[n]);
    }
  }

  /** Once a read succeeds after the last growth, everything was handled as by one read of the whole file. */
  lemma LastTickCatchesUp(start: Log, es: seq<Event>)
    requires IsNew(start) && WholeLines(es)
    ensures var g := Run(start, es + [TickEvent([], true)]);
      g.content == Run(start, es).content && g.offset == |g.content| && g.handled == NonEmpty(Lines(g.content))
  {
    TicksMatchOneRead(start, es);
    var g := Run(start, es);
    var tick := TickEvent([], true);
    assert (es + [tick])[..|es|] == es;
    assert WholeLines([tick]);
    StepKeepsInv(g, tick);
    assert g.content + [] == g.content;
    assert g.content[..|g.content|] == g.content;
  }

  lemma OneLine(line: seq<Byte>)
    requires LF !in line
    ensures Lines(line + [LF]) == [StripCr(line)]
    ensures line != [] ==> Lines(line) == [line]
  {
    FirstLineEnd(line + [LF], |line|);
    assert (line + [LF])[..|line|] == line && (line + [LF])[|line| + 1..] == [];
    if line != [] {
      assert LineEnd(line) == |line|;
    }
  }

  lemma TickOnHalf(a: seq<Byte>)
    requires a != [] && LF !in a
    ensures Tick(Log(a, 0, []), [], true) == Log(a, |a| + 1, [a])
  {
    assert a + [] == a && a[0..] == a;
    OneLine(a);
    OneNonEmpty(a);
    assert [] + [a] == [a];
  }

  lemma OneNonEmpty(line: seq<Byte>)
    requires line != []
    ensures NonEmpty([line]) == [line] && Advance([line]) == |line| + 1
  {
    AdvanceCons(line, []);
    assert [line][1..] == [];
    assert [line] + [] == [line];
  }

  lemma NonEmptyOfOne(line: seq<Byte>, other: seq<Byte>)
    requires line != other
    ensures other !in NonEmpty([line])
  {
    assert [line][1..] == [];
  }

  lemma RestSlice(a: seq<Byte>, b: seq<Byte>)
    requires b != []
    ensures (a + b + [LF])[|a| + 1..] == b[1..] + [LF]
  {
  }

  lemma TickOnRest(a: seq<Byte>, b: seq<Byte>)
    requires a != [] && b != [] && LF !in b
    ensures Tick(Log(a + b + [LF], |a| + 1, [a]), [], true).handled == [a] + NonEmpty([StripCr(b[1..])])
  {
    var content := a + b + [LF];
    assert content + [] == content;
    RestSlice(a, b);
    assert LF !in b[1..];
    OneLine(b[1..]);
  }

  lemma WholeLineHandled(line: seq<Byte>)
    requires |line| >= 2 && LF !in line
    ensures NonEmpty(Lines(line + [LF])) == [StripCr(line)]
  {
    OneLine(line);
    OneNonEmpty(StripCr(line));
  }

  /** The condition on appends is needed: a line seen by a tick when only its first part is written is handled as
      that part, and the first byte of the rest is skipped; the line itself is never handled. */
  lemma HalfLineIsLost(a: seq<Byte>, b: seq<Byte>)
    requires a != [] && b != [] && LF !in a && LF !in b && b != [CR]
    ensures var half := Tick(Log(a, 0, []), [], true);
      var g := Tick(half.(content := a + b + [LF]), [], true);
      && g.handled == [a] + NonEmpty([StripCr(b[1..])])
      && NonEmpty(Lines(a + b + [LF])) == [StripCr(a + b)]
      && StripCr(a + b) !in g.handled
  {
    TickOnHalf(a);
    TickOnRest(a, b);
    WholeLineHandled(a + b);
    assert |StripCr(a + b)| != |a| by {
      assert (a + b)[|a| + |b| - 1] == b[|b| - 1];
    }
    assert |StripCr(b[1..])| < |StripCr(a + b)|;
    NonEmptyOfOne(StripCr(b[1..]), StripCr(a + b));
  }

  /** Lines end with byte 10, alone or behind byte 13, which then belongs to the end. */
  lemma LineEndsAre(line: seq<Byte>, rest: seq<Byte>)
    requires forall i :: 0 <= i < |line| ==> line[i] != 10
    ensures Lines(line + [10] + rest) == [if line != [] && line[|line| - 1] == 13 then line[..|line| - 1] else line] + Lines(rest)
    ensures line != [] ==> Lines(line) == [line]
  {
    var s := line + [10] + rest;
    assert s[|line|] == 10 && s[..|line|] == line && s[|line| + 1..] == rest;
    assert forall i :: 0 <= i < |line| ==> s[i] == line[i];
  }
}
