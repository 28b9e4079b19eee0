/** Newline-delimited JSON over a child's pipes: one compact value per line, written by one task,
    read line by line by another that skips blank lines and reports a line it cannot parse. */
module Framing {
  import opened Prelude
  import opened Json

  /** What the reader task forwards for one line: a frame, or the report that the line did not parse. */
  type Item = Result<Json, string>

  predicate IsSpace(c: char) {
    || '\U{0009}' <= c <= '\U{000D}' || c == ' ' || c == '\U{0085}' || c == '\U{00A0}' || c == '\U{1680}'
    || '\U{2000}' <= c <= '\U{200A}' || c == '\U{2028}' || c == '\U{2029}' || c == '\U{202F}'
    || c == '\U{205F}' || c == '\U{3000}'
  }

  predicate AllSpace(t: string) {
    forall i :: 0 <= i < |t| ==> IsSpace(t[i])
  }

  function TrimStart(t: string): string {
    if t == [] || !IsSpace(t[0]) then t else TrimStart(t[1..])
  }

  function TrimEnd(t: string): string {
    if t == [] || !IsSpace(t[|t| - 1]) then t else TrimEnd(t[..|t| - 1])
  }

  function Trim(t: string): string {
    TrimEnd(TrimStart(t))
  }

  // ---------------------------------------------------------------- lines

  /** Position of the first newline, or the length of the text. */
  function LineEnd(text: string): (n: nat)
    ensures n <= |text|
    ensures forall i :: 0 <= i < n ==> text[i] != '\n'
    ensures n < |text| ==> text[n] == '\n'
  {
    if text == [] || text[0] == '\n' then 0 else 1 + LineEnd(text[1..])
  }

  function DropCr(line: string): string {
    if line != [] && line[|line| - 1] == '\r' then line[..|line| - 1] else line
  }

  /** The first line without its terminator (LF or CR LF), and the text after it. */
  function NextLine(text: string): (r: (string, string))
    requires text != []
    ensures |r.1| < |text|
  {
    var n := LineEnd(text);
    if n < |text| then (DropCr(text[..n]), text[n + 1..]) else (text, [])
  }

  /** What one line contributes: nothing when blank, otherwise one item. */
  function DecodeLine(line: string): (items: seq<Item>)
    ensures |items| <= 1
  {
    var trimmed := Trim(line);
    if trimmed == [] then []
    else
      var v := Parse(trimmed);
      if v.Some? then [Ok(v.value)] else [Err(trimmed)]
  }

  /** The items of a stream that holds `text` and then ends, or fails with an error. A line a failure cuts off is
      lost, and the failure itself is the last item. */
  function ReadStream(text: string, failure: Option<string>): seq<Item>
    decreases |text|
  {
    if failure.Some? && '\n' !in text then [Err(failure.value)]
    else if text == [] then []
    else
      var (line, rest) := NextLine(text);
      DecodeLine(line) + ReadStream(rest, failure)
  }

  /** The items of a stream that ends after `text`. */
  function ReadAll(text: string): seq<Item> {
    ReadStream(text, None)
  }

  method ForwardLine(line: string) returns (items: seq<Item>)
    ensures items == DecodeLine(line)
  {
    var trimmed := Trim(line);
    if trimmed == [] {
      return [];
    }
    var v := Parse(trimmed);
    items := [if v.Some? then Ok(v.value) else Err(trimmed)];
  }

  /** The reader task: lines are taken one at a time until end of file, a failure of the stream, or the first item
      the receiver does not take; it takes `receives` items before it is dropped. */
  method SpawnReader(text: string, failure: Option<string>, receives: nat) returns (forwarded: seq<Item>)
    ensures var items := ReadStream(text, failure); forwarded == items[..Min(receives, |items|)]
  {
    forwarded := [];
    var rest := text;
    while rest != [] && !(failure.Some? && '\n' !in rest)
      invariant forwarded + ReadStream(rest, failure) == ReadStream(text, failure)
      invariant |forwarded| <= receives
      decreases |rest|
    {
      var (line, tail) := NextLine(rest);
      var items := ForwardLine(line);
      Associate(forwarded, items, ReadStream(tail, failure));
      if items != [] && |forwarded| == receives {
        return;
      }
      forwarded := forwarded + items;
      rest := tail;
    }
    if failure.Some? && |forwarded| < receives {
      forwarded := forwarded + [Err(failure.value)];
    }
  }

  function WriteAll(frames: seq<Json>): string {
    if frames == [] then [] else Print(frames[0]) + "\n" + WriteAll(frames[1..])
  }

  lemma {:induction false} WriteAllAppend(frames: seq<Json>, v: Json)
    ensures WriteAll(frames + [v]) == WriteAll(frames) + (Print(v) + "\n")
  {
    if frames == [] {
      assert [] + [v] == [v];
      assert WriteAll([v]) == Print(v) + "\n" + WriteAll([v][1..]);
    } else {
      assert (frames + [v])[1..] == frames[1..] + [v];
      WriteAllAppend(frames[1..], v);
    }
  }

  function Cut(line: string, n: nat): string {
    line[..Min(n, |line|)]
  }

  /** What reaches the pipe when it takes `accepts` frames and then only `cut` characters of the next line; a flush
      that fails has its whole line written. */
  function Written(channel: seq<Json>, accepts: nat, cut: nat): string {
    if accepts >= |channel| then WriteAll(channel)
    else WriteAll(channel[..accepts]) + Cut(Print(channel[accepts]) + "\n", cut)
  }

  /** The writer task: each value taken from the channel becomes one terminated line, until a write or flush
      fails. */
  method SpawnWriter(channel: seq<Json>, accepts: nat, cut: nat) returns (written: string)
    ensures written == Written(channel, accepts, cut)
  {
    written := [];
    for i := 0 to |channel|
      invariant written == WriteAll(channel[..i]) && i <= accepts
    {
      var line := Print(channel[i]) + "\n";
      if i == accepts {
        written := written + Cut(line, cut);
        return;
      }
      WriteAllAppend(channel[..i], channel[i]);
      assert channel[..i] + [channel[i]] == channel[..i + 1];
      written := written + line;
    }
    assert channel[..|channel|] == channel;
  }

  // ---------------------------------------------------------------- round trip

  /** A piece of a stream an agent may send: a frame with padding around it, or a blank line. */
  datatype Piece =
    | Frame(before: string, value: Json, after: string)
    | Blank(space: string)

  predicate SpaceWithoutNewline(t: string) {
    AllSpace(t) && forall i :: 0 <= i < |t| ==> t[i] != '\n'
  }

  ghost predicate WellFormed(p: Piece) {
    match p
    case Frame(before, v, after) => SpaceWithoutNewline(before) && Valid(v) && SpaceWithoutNewline(after)
    case Blank(space) => SpaceWithoutNewline(space)
  }

  function LineOf(p: Piece): string {
    match p
    case Frame(before, v, after) => before + Print(v) + after
    case Blank(space) => space
  }

  function StreamOf(pieces: seq<Piece>): string {
    if pieces == [] then [] else LineOf(pieces[0]) + "\n" + StreamOf(pieces[1..])
  }

  function FramesOf(pieces: seq<Piece>): seq<Json> {
    if pieces == [] then []
    else (if pieces[0].Frame? then [pieces[0].value] else []) + FramesOf(pieces[1..])
  }

  function Delivered(frames: seq<Json>): seq<Item> {
    seq(|frames|, i requires 0 <= i < |frames| => Ok(frames[i]))
  }

  lemma {:induction false} TrimStartDropsPadding(before: string, t: string)
    requires AllSpace(before)
    ensures TrimStart(before + t) == TrimStart(t)
  {
    if before == [] {
      assert before + t == t;
    } else {
      assert (before + t)[1..] == before[1..] + t;
      TrimStartDropsPadding(before[1..], t);
    }
  }

  lemma {:induction false} TrimEndDropsPadding(t: string, after: string)
    requires AllSpace(after)
    ensures TrimEnd(t + after) == TrimEnd(t)
  {
    if after == [] {
      assert t + after == t;
    } else {
      var m := |after| - 1;
      assert (t + after)[..|t + after| - 1] == t + after[..m];
      TrimEndDropsPadding(t, after[..m]);
    }
  }

  /** Trimming a padded text gives back the text, when the text itself starts and ends visibly. */
  lemma TrimPadded(before: string, t: string, after: string)
    requires AllSpace(before) && AllSpace(after)
    requires t == [] || (!IsSpace(t[0]) && !IsSpace(t[|t| - 1]))
    ensures Trim(before + t + after) == t
  {
    assert before + t + after == before + (t + after);
    TrimStartDropsPadding(before, t + after);
    TrimEndDropsPadding(t, after);
    if t == [] {
      assert t + after == after + [];
      TrimStartDropsPadding(after, []);
    }
  }

  lemma {:induction false} LineEndOf(line: string, rest: string)
    requires forall i :: 0 <= i < |line| ==> line[i] != '\n'
    ensures LineEnd(line + "\n" + rest) == |line|
  {
    if line != [] {
      assert (line + "\n" + rest)[1..] == line[1..] + "\n" + rest;
      LineEndOf(line[1..], rest);
    }
  }

  lemma FirstLine(line: string, rest: string)
    requires forall i :: 0 <= i < |line| ==> line[i] != '\n'
    ensures NextLine(line + "\n" + rest) == (DropCr(line), rest)
  {
    LineEndOf(line, rest);
    var text := line + "\n" + rest;
    assert text[..|line|] == line && text[|line| + 1..] == rest;
  }

  /** A trailing CR belongs to the padding: dropping it before trimming makes no difference. */
  lemma TrimDropsCr(before: string, t: string, after: string)
    requires AllSpace(before) && AllSpace(after)
    requires t != [] && !IsSpace(t[0]) && !IsSpace(t[|t| - 1])
    ensures Trim(DropCr(before + t + after)) == t
  {
    var line := before + t + after;
    if after == [] {
      assert line[|line| - 1] == t[|t| - 1];
      TrimPadded(before, t, after);
    } else if after[|after| - 1] == '\r' {
      var a := after[..|after| - 1];
      assert line[..|line| - 1] == before + t + a;
      TrimPadded(before, t, a);
    } else {
      assert line[|line| - 1] == after[|after| - 1];
      TrimPadded(before, t, after);
    }
  }

  lemma BlankDecodes(space: string)
    requires AllSpace(space)
    ensures DecodeLine(DropCr(space)) == []
  {
    var line := DropCr(space);
    assert line == line + [] + [];
    TrimPadded(line, [], []);
  }

  lemma {:induction false} FrameDecodes(before: string, t: string, v: Json, after: string)
    requires AllSpace(before) && AllSpace(after)
    requires t != [] && StartsValue(t[0]) && EndsValue(t[|t| - 1]) && Parse(t) == Some(v)
    ensures DecodeLine(DropCr(before + t + after)) == [Ok(v)]
  {
    TrimDropsCr(before, t, after);
  }

  /** The line of one piece holds no newline and decodes to that piece's frame, or to nothing. */
  lemma {:induction false} PieceDecodes(p: Piece)
    requires WellFormed(p)
    ensures forall i :: 0 <= i < |LineOf(p)| ==> LineOf(p)[i] != '\n'
    ensures DecodeLine(DropCr(LineOf(p))) == if p.Frame? then [Ok(p.value)] else []
  {
    match p {
      case Frame(before, v, after) =>
        PrintHasNoControl(v);
        PrintEnds(v);
        RoundTrip(v);
        FrameDecodes(before, Print(v), v, after);
        NoNewlineInside(before, Print(v), after);
      case Blank(space) =>
        BlankDecodes(space);
    }
  }

  lemma NoNewlineInside(before: string, t: string, after: string)
    requires SpaceWithoutNewline(before) && NoControl(t) && SpaceWithoutNewline(after)
    ensures forall i :: 0 <= i < |before + t + after| ==> (before + t + after)[i] != '\n'
  {
  }

  lemma PieceThenRest(p: Piece, rest: string, failure: Option<string>)
    requires WellFormed(p)
    ensures ReadStream(LineOf(p) + "\n" + rest, failure) == (if p.Frame? then [Ok(p.value)] else []) + ReadStream(rest, failure)
  {
    var text := LineOf(p) + "\n" + rest;
    assert text[|LineOf(p)|] == '\n';
    PieceDecodes(p);
    FirstLine(LineOf(p), rest);
  }

  /** Pieces in front of a stream put exactly their frames in front of its items. */
  lemma {:induction false} PiecesThenRest(pieces: seq<Piece>, rest: string, failure: Option<string>)
    requires forall i :: 0 <= i < |pieces| ==> WellFormed(pieces[i])
    ensures ReadStream(StreamOf(pieces) + rest, failure) == Delivered(FramesOf(pieces)) + ReadStream(rest, failure)
  {
    if pieces == [] {
      assert StreamOf(pieces) + rest == rest;
    } else {
      var more, items := StreamOf(pieces[1..]), ReadStream(rest, failure);
      var head := if pieces[0].Frame? then [pieces[0].value] else [];
      Associate(LineOf(pieces[0]) + "\n", more, rest);
      PieceThenRest(pieces[0], more + rest, failure);
      PiecesThenRest(pieces[1..], rest, failure);
      assert Delivered(head) == if pieces[0].Frame? then [Ok(pieces[0].value)] else [];
      DeliveredAppend(head, FramesOf(pieces[1..]));
      Associate(Delivered(head), Delivered(FramesOf(pieces[1..])), items);
    }
  }

  /** However frames are padded and however many blank lines stand between them, the reader forwards
      exactly the frames, in order, and never reports an error. */
  lemma StreamRoundTrip(pieces: seq<Piece>)
    requires forall i :: 0 <= i < |pieces| ==> WellFormed(pieces[i])
    ensures ReadAll(StreamOf(pieces)) == Delivered(FramesOf(pieces))
  {
    PiecesThenRest(pieces, [], None);
    assert StreamOf(pieces) + [] == StreamOf(pieces);
  }

  lemma DeliveredAppend(a: seq<Json>, b: seq<Json>)
    ensures Delivered(a + b) == Delivered(a) + Delivered(b)
  {
  }

  /** Frames as the writer sends them: no padding, no blank lines. */
  function Plain(frames: seq<Json>): seq<Piece> {
    if frames == [] then [] else [Frame([], frames[0], [])] + Plain(frames[1..])
  }

  lemma {:induction false} PlainStream(frames: seq<Json>)
    requires forall i :: 0 <= i < |frames| ==> Valid(frames[i])
    ensures StreamOf(Plain(frames)) == WriteAll(frames) && FramesOf(Plain(frames)) == frames
    ensures forall i :: 0 <= i < |Plain(frames)| ==> WellFormed(Plain(frames)[i])
  {
    if frames != [] {
      PlainStream(frames[1..]);
      var pieces := Plain(frames);
      assert pieces[1..] == Plain(frames[1..]);
      assert LineOf(pieces[0]) == Print(frames[0]);
    }
  }

  /** What the writer task writes is read back as the values it was given. */
  lemma WriterReaderRoundTrip(frames: seq<Json>)
    requires forall i :: 0 <= i < |frames| ==> Valid(frames[i])
    ensures ReadAll(WriteAll(frames)) == Delivered(frames)
  {
    PlainStream(frames);
    StreamRoundTrip(Plain(frames));
  }

  lemma FramesThenRest(frames: seq<Json>, rest: string, failure: Option<string>)
    requires forall i :: 0 <= i < |frames| ==> Valid(frames[i])
    ensures ReadStream(WriteAll(frames) + rest, failure) == Delivered(frames) + ReadStream(rest, failure)
  {
    PlainStream(frames);
    PiecesThenRest(Plain(frames), rest, failure);
  }

  /** How a stream ends for its reader. */
  function Ending(failure: Option<string>): seq<Item> {
    if failure.Some? then [Err(failure.value)] else []
  }

  lemma CutLineReads(v: Json, cut: nat, failure: Option<string>)
    requires Valid(v) && cut <= |Print(v)|
    ensures failure.Some? ==> ReadStream(Cut(Print(v) + "\n", cut), failure) == Ending(failure)
    ensures |ReadStream(Cut(Print(v) + "\n", cut), failure)| <= 1
  {
    PrintHasNoControl(v);
    NoNewlineInside([], Print(v), []);
    var line := [] + Print(v) + [];
    var part := Cut(Print(v) + "\n", cut);
    assert line == Print(v) && part == line[..cut];
    assert forall i :: 0 <= i < |part| ==> part[i] == line[i];
    if failure.None? && part != [] {
      assert NextLine(part) == (part, []);
    }
  }

  /** However the writer fails, the reader gets the frames written whole, in order; of a frame cut short it gets
      nothing when its own end fails as well, and at most one item otherwise. */
  lemma InterruptedRoundTrip(channel: seq<Json>, accepts: nat, cut: nat, failure: Option<string>)
    requires forall i :: 0 <= i < |channel| ==> Valid(channel[i])
    ensures var items := ReadStream(Written(channel, accepts, cut), failure);
      if accepts < |channel| && cut <= |Print(channel[accepts])| then
        && Delivered(channel[..accepts]) <= items && |items| <= accepts + 1
        && (failure.Some? ==> items == Delivered(channel[..accepts]) + Ending(failure))
      else items == Delivered(channel[..Min(|channel|, accepts + 1)]) + Ending(failure)
  {
    if accepts < |channel| && cut <= |Print(channel[accepts])| {
      FramesThenRest(channel[..accepts], Cut(Print(channel[accepts]) + "\n", cut), failure);
      CutLineReads(channel[accepts], cut, failure);
    } else {
      var whole := channel[..Min(|channel|, accepts + 1)];
      if accepts < |channel| {
        WriteAllAppend(channel[..accepts], channel[accepts]);
        assert channel[..accepts] + [channel[accepts]] == whole;
      } else {
        assert whole == channel;
      }
      assert WriteAll(whole) == Written(channel, accepts, cut);
      FramesThenRest(whole, [], failure);
      assert WriteAll(whole) + [] == WriteAll(whole);
    }
  }

  /** White space is what Unicode says it is, here by code point. */
  lemma WhiteSpaceIs(c: char)
    ensures IsSpace(c) <==>
      var n := c as int;
      9 <= n <= 13 || n == 32 || n == 133 || n == 160 || n == 5760 || 8192 <= n <= 8202 || n in {8232, 8233, 8239, 8287, 12288}
  {
  }
}
