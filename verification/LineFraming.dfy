/** The pure split of a byte stream at line feeds, against which the incremental decoders are proved. */
module LineSplit {

  import opened Bytes

  const LF: Byte := 10
  const CR: Byte := 13

  type Line = seq<Byte>

  /** The complete lines of a stream, without their line feeds, and the unfinished rest. */
  function Split(stream: seq<Byte>): (seq<Line>, Line) {
    if stream == [] then ([], [])
    else
      var (lines, rest) := Split(stream[..|stream| - 1]);
      var b := stream[|stream| - 1];
      if b == LF then (lines + [rest], []) else (lines, rest + [b])
  }

  function Lines(stream: seq<Byte>): seq<Line> { Split(stream).0 }

  function Rest(stream: seq<Byte>): Line { Split(stream).1 }

  function Join(lines: seq<Line>, rest: Line): seq<Byte> {
    if lines == [] then rest else lines[0] + [LF] + Join(lines[1..], rest)
  }

  ghost predicate FreeOfLf(lines: seq<Line>, rest: Line) {
    LF !in rest && forall i :: 0 <= i < |lines| ==> LF !in lines[i]
  }

  lemma {:induction false} JoinSnoc(lines: seq<Line>, last: Line, rest: Line)
    ensures Join(lines + [last], rest) == Join(lines, last + [LF] + rest)
  {
    if lines == [] {
      assert (lines + [last])[1..] == [];
    } else {
      JoinSnoc(lines[1..], last, rest);
      assert (lines + [last])[1..] == lines[1..] + [last];
    }
  }

  lemma {:induction false} JoinRest(lines: seq<Line>, rest: Line, more: seq<Byte>)
    ensures Join(lines, rest) + more == Join(lines, rest + more)
  {
    if lines != [] {
      JoinRest(lines[1..], rest, more);
      assert Join(lines, rest) + more == lines[0] + [LF] + (Join(lines[1..], rest) + more);
    }
  }

  /** Splitting loses nothing. */
  lemma {:induction false} JoinOfSplit(stream: seq<Byte>)
    ensures Join(Lines(stream), Rest(stream)) == stream
    ensures FreeOfLf(Lines(stream), Rest(stream))
  {
    if stream != [] {
      var init, b := stream[..|stream| - 1], stream[|stream| - 1];
      JoinOfSplit(init);
      JoinRest(Lines(init), Rest(init), [b]);
      assert stream == init + [b];
      if b == LF {
        JoinSnoc(Lines(init), Rest(init), []);
        assert Rest(init) + [LF] + [] == Rest(init) + [LF];
      }
    }
  }

  lemma SplitSnoc(stream: seq<Byte>, b: Byte)
    ensures Lines(stream + [b]) == if b == LF then Lines(stream) + [Rest(stream)] else Lines(stream)
    ensures Rest(stream + [b]) == if b == LF then [] else Rest(stream) + [b]
  {
    assert (stream + [b])[..|stream|] == stream;
  }

  lemma SplitExtendByOne(stream: seq<Byte>, init: Line, last: Byte)
    requires last != LF && Split(stream + init) == (Lines(stream), Rest(stream) + init)
    ensures Split(stream + (init + [last])) == (Lines(stream), Rest(stream) + (init + [last]))
  {
    hide Split;
    SplitSnoc(stream + init, last);
    assert stream + init + [last] == stream + (init + [last]);
    assert Rest(stream) + init + [last] == Rest(stream) + (init + [last]);
  }

  /** Feeding on without a line feed only lengthens the rest. */
  lemma {:induction false} SplitExtend(stream: seq<Byte>, more: Line)
    requires LF !in more
    ensures Split(stream + more) == (Lines(stream), Rest(stream) + more)
  {
    if more == [] {
      assert stream + more == stream && Rest(stream) + more == Rest(stream);
    } else {
      hide *;
      var init, last := more[..|more| - 1], more[|more| - 1];
      SplitExtend(stream, init);
      SplitExtendByOne(stream, init, last);
      assert more == init + [last];
    }
  }

  /** Splitting recovers any lines and rest that contain no line feed: the split is the only one. */
  lemma {:induction false} SplitOfJoin(lines: seq<Line>, rest: Line)
    requires FreeOfLf(lines, rest)
    ensures Split(Join(lines, rest)) == (lines, rest)
    decreases |lines|
  {
    if lines == [] {
      SplitExtend([], rest);
      assert [] + rest == rest;
    } else {
      var init, last := lines[..|lines| - 1], lines[|lines| - 1];
      assert lines == init + [last];
      SplitOfJoin(init, last);
      JoinSnoc(init, last, rest);
      JoinRest(init, last, [LF]);
      JoinRest(init, last + [LF], rest);
      var head := Join(init, last);
      SplitSnoc(head, LF);
      SplitExtend(head + [LF], rest);
      assert [] + rest == rest;
    }
  }

  /** The lines completed by feeding `more` after `stream`. */
  function NewLines(stream: seq<Byte>, more: seq<Byte>): seq<Line>
    requires |Lines(stream)| <= |Lines(stream + more)|
  {
    Lines(stream + more)[|Lines(stream)|..]
  }

  lemma {:induction false} LinesGrow(stream: seq<Byte>, more: seq<Byte>)
    ensures Lines(stream) <= Lines(stream + more)
  {
    if more == [] {
      assert stream + more == stream;
    } else {
      var init := more[..|more| - 1];
      LinesGrow(stream, init);
      SplitSnoc(stream + init, more[|more| - 1]);
      assert stream + init + [more[|more| - 1]] == stream + more;
    }
  }

  /** What one more byte does to the split. */
  ghost predicate Advances(before: seq<Byte>, bytes: seq<Byte>, i: nat)
    requires i < |bytes|
  {
    var now := before + bytes[..i];
    && before + bytes[..i + 1] == now + [bytes[i]]
    && Lines(now + [bytes[i]]) == (if bytes[i] == LF then Lines(now) + [Rest(now)] else Lines(now))
    && Rest(now + [bytes[i]]) == (if bytes[i] == LF then [] else Rest(now) + [bytes[i]])
    && |Lines(before)| <= |Lines(now)| <= |Lines(before + bytes[..i + 1])|
    && NewLines(before, bytes[..i + 1]) == NewLines(before, bytes[..i]) + (if bytes[i] == LF then [Rest(now)] else [])
  }

  lemma Advance(before: seq<Byte>, bytes: seq<Byte>, i: nat)
    requires i < |bytes|
    ensures Advances(before, bytes, i)
  {
    var now := before + bytes[..i];
    assert before + bytes[..i + 1] == now + [bytes[i]];
    SplitSnoc(now, bytes[i]);
    LinesGrow(before, bytes[..i]);
  }

  /** The lines of a stream are those of its pieces in turn, wherever it is cut. */
  lemma NewLinesConcat(stream: seq<Byte>, a: seq<Byte>, b: seq<Byte>)
    ensures |Lines(stream)| <= |Lines(stream + a)| <= |Lines(stream + a + b)|
    ensures |Lines(stream)| <= |Lines(stream + (a + b))|
    ensures NewLines(stream, a + b) == NewLines(stream, a) + NewLines(stream + a, b)
  {
    LinesGrow(stream, a);
    LinesGrow(stream + a, b);
    assert stream + a + b == stream + (a + b);
  }
}

/** The hub's line decoder. */
module HubLines {
  import opened Bytes
  import opened LineSplit

  const MAX_CDC_LINE_SIZE: nat := 64 * 1024

  /** All trailing carriage returns go. */
  function TrimEnd(line: Line): Line {
    if line != [] && line[|line| - 1] == CR then TrimEnd(line[..|line| - 1]) else line
  }

  function CarriageReturns(k: nat): (crs: Line)
    ensures |crs| == k && forall i :: 0 <= i < k ==> crs[i] == CR
  {
    seq(k, _ => CR)
  }

  /** The line is the content followed by carriage returns, and the content does not end in one. */
  ghost predicate IsContentOf(content: Line, line: Line) {
    && (content == [] || content[|content| - 1] != CR)
    && exists k: nat :: line == content + CarriageReturns(k)
  }

  lemma {:induction false} TrimEndIsContent(line: Line)
    ensures IsContentOf(TrimEnd(line), line)
  {
    if line != [] && line[|line| - 1] == CR {
      var init := line[..|line| - 1];
      TrimEndIsContent(init);
      var k: nat :| init == TrimEnd(init) + CarriageReturns(k);
      assert line == TrimEnd(line) + CarriageReturns(k + 1);
    } else {
      assert line == TrimEnd(line) + CarriageReturns(0);
    }
  }

  /** There is one content only. */
  lemma ContentIsTrimEnd(content: Line, line: Line)
    requires IsContentOf(content, line)
    ensures TrimEnd(line) == content
  {
    var k: nat :| line == content + CarriageReturns(k);
    TrimsReturns(content, k);
  }

  lemma {:induction false} TrimsReturns(content: Line, k: nat)
    requires content == [] || content[|content| - 1] != CR
    ensures TrimEnd(content + CarriageReturns(k)) == content
  {
    var line := content + CarriageReturns(k);
    if k == 0 {
      assert line == content;
    } else {
      TrimsReturns(content, k - 1);
      assert line[..|line| - 1] == content + CarriageReturns(k - 1);
    }
  }

  /** A line that fits is delivered byte for byte up to its trailing carriage returns, however many there are. */
  lemma ContentIsDelivered(content: Line, k: nat)
    requires LF !in content && (content == [] || content[|content| - 1] != CR)
    requires |content| + k <= MAX_CDC_LINE_SIZE
    ensures Kept(Lines(content + CarriageReturns(k) + [LF])) == [content]
  {
    var line := content + CarriageReturns(k);
    TrimsReturns(content, k);
    SplitExtend([], line);
    assert [] + line == line;
    SplitSnoc(line, LF);
    NoLines();
    KeptOne(line);
    hide Split, Kept, TrimEnd;
    assert [] + [line] == [line];
  }

  lemma NoLines()
    ensures Lines([]) == [] && Rest([]) == []
  {}

  /** Overlong lines are dropped, the others kept in order. */
  function Kept(lines: seq<Line>): seq<Line> {
    if lines == [] then []
    else
      var last := lines[|lines| - 1];
      Kept(lines[..|lines| - 1]) + if |last| <= MAX_CDC_LINE_SIZE then [TrimEnd(last)] else []
  }

  lemma {:induction false} KeptConcat(a: seq<Line>, b: seq<Line>)
    ensures Kept(a + b) == Kept(a) + Kept(b)
  {
    if b == [] {
      assert a + b == a;
    } else {
      KeptConcat(a, b[..|b| - 1]);
      assert (a + b)[..|a + b| - 1] == a + b[..|b| - 1];
    }
  }

  class LineDecoder {
    var current: Line
    var dropping: bool
    ghost var stream: seq<Byte>

    /** The fields hold what the pure split leaves unfinished, or only that it is already too long. */
    ghost predicate Valid()
      reads this
    {
      if |Rest(stream)| <= MAX_CDC_LINE_SIZE then current == Rest(stream) && !dropping
      else current == [] && dropping
    }

    constructor ()
      ensures Valid() && stream == []
    {
      current, dropping, stream := [], false, [];
    }

    method FeedByte(byte: Byte) returns (lines: seq<Line>)
      requires Valid()
      modifies this
      ensures Valid() && stream == old(stream) + [byte]
      ensures lines == if byte == LF then Kept([Rest(old(stream))]) else []
      ensures |lines| == if byte == LF && |Rest(old(stream))| <= MAX_CDC_LINE_SIZE then 1 else 0
      ensures |lines| == 1 ==> IsContentOf(lines[0], Rest(old(stream)))
    {
      TrimEndIsContent(Rest(stream));
      lines := [];
      SplitSnoc(stream, byte);
      assert [Rest(stream)][..0] == [];
      if byte == LF {
        if !dropping {
          lines := lines + [TrimEnd(current)];
        }
        current := [];
        dropping := false;
      } else if !dropping {
        if |current| >= MAX_CDC_LINE_SIZE {
          current := [];
          dropping := true;
        } else {
          current := current + [byte];
        }
      }
      stream := stream + [byte];
    }

    /** The kept lines that this piece of the stream completes. */
    method Feed(bytes: seq<Byte>) returns (lines: seq<Line>)
      requires Valid()
      modifies this
      ensures Valid() && stream == old(stream) + bytes
      ensures |Lines(old(stream))| <= |Lines(stream)| && lines == Kept(NewLines(old(stream), bytes))
    {
      hide Split, Kept;
      lines := [];
      NothingNew(stream, bytes);
      for i := 0 to |bytes|
        invariant Valid() && stream == old(stream) + bytes[..i]
        invariant |Lines(old(stream))| <= |Lines(stream)| && lines == Kept(NewLines(old(stream), bytes[..i]))
      {
        KeptAdvance(old(stream), bytes, i);
        var more := FeedByte(bytes[i]);
        lines := lines + more;
      }
      assert bytes[..|bytes|] == bytes;
    }
  }

  lemma NothingNew(stream: seq<Byte>, bytes: seq<Byte>)
    ensures stream + bytes[..0] == stream
    ensures NewLines(stream, bytes[..0]) == [] && Kept(NewLines(stream, bytes[..0])) == []
  {
    assert stream + bytes[..0] == stream;
  }

  lemma KeptAdvance(before: seq<Byte>, bytes: seq<Byte>, i: nat)
    requires i < |bytes|
    ensures Advances(before, bytes, i)
    ensures Kept(NewLines(before, bytes[..i + 1]))
         == Kept(NewLines(before, bytes[..i])) + (if bytes[i] == LF then Kept([Rest(before + bytes[..i])]) else [])
  {
    Advance(before, bytes, i);
    KeptConcat(NewLines(before, bytes[..i]), [Rest(before + bytes[..i])]);
  }

  /** However a stream is cut, the lines of the pieces are the kept lines of the whole. */
  lemma CutAnywhere(stream: seq<Byte>, a: seq<Byte>, b: seq<Byte>)
    ensures |Lines(stream)| <= |Lines(stream + a)| <= |Lines(stream + a + b)|
    ensures |Lines(stream)| <= |Lines(stream + (a + b))|
    ensures Kept(NewLines(stream, a + b)) == Kept(NewLines(stream, a)) + Kept(NewLines(stream + a, b))
  {
    NewLinesConcat(stream, a, b);
    KeptConcat(NewLines(stream, a), NewLines(stream + a, b));
  }

  /** What is kept of several lines: the contents of those that fit, in order. */
  lemma {:induction false} KeptAt(lines: seq<Line>, i: nat)
    requires i < |lines| && |lines[i]| <= MAX_CDC_LINE_SIZE
    ensures |Kept(lines[..i])| < |Kept(lines)|
    ensures IsContentOf(Kept(lines)[|Kept(lines[..i])|], lines[i])
    decreases |lines|
  {
    var init := lines[..|lines| - 1];
    if i == |lines| - 1 {
      TrimEndIsContent(lines[i]);
      assert Kept(lines) == Kept(init) + [TrimEnd(lines[i])];
    } else {
      KeptAt(init, i);
      assert init[..i] == lines[..i];
    }
  }

  lemma KeptOne(line: Line)
    ensures Kept([line]) == if |line| <= MAX_CDC_LINE_SIZE then [TrimEnd(line)] else []
  {
    assert [line][..0] == [];
  }

  /** Wherever it stands in a stream, an overlong line is lost alone: the lines around it are delivered exactly. */
  lemma RecoversAfterOverlong(before: seq<Line>, overlong: Line, line: Line, after: seq<Line>, rest: Line)
    requires FreeOfLf(before + [overlong, line] + after, rest)
    requires |overlong| > MAX_CDC_LINE_SIZE && |line| <= MAX_CDC_LINE_SIZE
    ensures Kept(Lines(Join(before + [overlong, line] + after, rest))) == Kept(before) + [TrimEnd(line)] + Kept(after)
    ensures IsContentOf(TrimEnd(line), line)
  {
    TrimEndIsContent(line);
    SplitOfJoin(before + [overlong, line] + after, rest);
    hide Split, Join, Kept;
    KeptOne(overlong);
    KeptOne(line);
    KeptConcat([overlong], [line]);
    assert [overlong, line] == [overlong] + [line];
    KeptConcat(before, [overlong, line]);
    KeptConcat(before + [overlong, line], after);
  }
}

/** The desktop control tool's line decoder. */
module ControlLines {
  import opened Bytes
  import opened LineSplit

  const MAX_CDC_LINE_SIZE: nat := 64 * 1024

  datatype Frame = Decoded(line: Line) | NotText(line: Line) | Overlong

  /** One trailing carriage return goes. */
  function StripCr(line: Line): Line {
    if line != [] && line[|line| - 1] == CR then line[..|line| - 1] else line
  }

  function FrameOf(line: Line, isText: Line -> bool): Frame {
    if |line| + 1 > MAX_CDC_LINE_SIZE then Overlong
    else if isText(StripCr(line)) then Decoded(StripCr(line)) else NotText(StripCr(line))
  }

  /** The line with one carriage return less, if it ends in one. */
  ghost predicate IsStripped(content: Line, line: Line) {
    if line != [] && line[|line| - 1] == CR then line == content + [CR] else line == content
  }

  /** The frame carries the stripped line, marked by whether that is text. */
  ghost predicate IsFrameOf(frame: Frame, line: Line, isText: Line -> bool) {
    && !frame.Overlong? && IsStripped(frame.line, line)
    && (frame.Decoded? <==> isText(frame.line))
  }

  lemma FrameCarriesTheLine(line: Line, isText: Line -> bool)
    requires |line| + 1 <= MAX_CDC_LINE_SIZE
    ensures IsFrameOf(FrameOf(line, isText), line, isText)
  {}

  function Frames(lines: seq<Line>, isText: Line -> bool): (fs: seq<Frame>)
    ensures |fs| == |lines|
    ensures forall i :: 0 <= i < |lines| ==> fs[i] == FrameOf(lines[i], isText)
  {
    seq(|lines|, i requires 0 <= i < |lines| => FrameOf(lines[i], isText))
  }

  /** One frame per line, and one error as soon as the unfinished line is too long to be kept. */
  function Report(stream: seq<Byte>, isText: Line -> bool): seq<Frame> {
    Frames(Lines(stream), isText) + if |Rest(stream)| > MAX_CDC_LINE_SIZE then [Overlong] else []
  }

  lemma ReportSnoc(stream: seq<Byte>, b: Byte, isText: Line -> bool)
    ensures Report(stream + [b], isText) == Report(stream, isText) +
      if |Rest(stream)| > MAX_CDC_LINE_SIZE then []
      else if |Rest(stream)| == MAX_CDC_LINE_SIZE then [Overlong]
      else if b == LF then [FrameOf(Rest(stream), isText)] else []
  {
    SplitSnoc(stream, b);
    assert Frames(Lines(stream) + [Rest(stream)], isText)
        == Frames(Lines(stream), isText) + [FrameOf(Rest(stream), isText)];
  }

  class LineDecoder {
    var current: Line
    var droppingOverlong: bool
    const isText: Line -> bool
    ghost var stream: seq<Byte>

    ghost predicate Valid()
      reads this
    {
      if |Rest(stream)| <= MAX_CDC_LINE_SIZE then current == Rest(stream) && !droppingOverlong
      else current == [] && droppingOverlong
    }

    constructor (isText: Line -> bool)
      ensures Valid() && stream == [] && this.isText == isText
    {
      current, droppingOverlong, stream, this.isText := [], false, [], isText;
    }

    /** What this piece adds to the report of the whole stream. */
    method Feed(bytes: seq<Byte>) returns (lines: seq<Frame>)
      requires Valid()
      modifies this`current, this`droppingOverlong, this`stream
      ensures Valid() && stream == old(stream) + bytes
      ensures Report(old(stream), isText) + lines == Report(stream, isText)
    {
      hide Split, Report, Frames;
      lines := [];
      assert stream + bytes[..0] == stream;
      for i := 0 to |bytes|
        invariant Valid() && stream == old(stream) + bytes[..i]
        invariant Report(old(stream), isText) + lines == Report(stream, isText)
      {
        var byte := bytes[i];
        ghost var before, reported := stream, lines;
        stream := stream + [byte];
        assert stream == old(stream) + bytes[..i + 1];
        SplitSnoc(before, byte);
        ReportSnoc(before, byte, isText);
        if droppingOverlong {
          if byte == LF {
            droppingOverlong := false;
          }
        } else if |current| >= MAX_CDC_LINE_SIZE {
          current := [];
          droppingOverlong := byte != LF;
          lines := lines + [Overlong];
        } else {
          current := current + [byte];
          if byte == LF {
            var line := StripCr(current[..|current| - 1]);
            current := [];
            lines := lines + [if isText(line) then Decoded(line) else NotText(line)];
          }
        }
        assert Report(old(stream), isText) + lines
            == Report(old(stream), isText) + reported + lines[|reported|..];
      }
      assert bytes[..|bytes|] == bytes;
    }
  }

  /** One frame per line, with its content or, exactly for an overlong one, an error; an unfinished line is
      reported only once it is too long to be kept. */
  lemma OneFramePerLine(lines: seq<Line>, rest: Line, isText: Line -> bool)
    requires FreeOfLf(lines, rest)
    ensures var report := Report(Join(lines, rest), isText);
      && |report| == |lines| + (if |rest| > MAX_CDC_LINE_SIZE then 1 else 0)
      && (forall i :: 0 <= i < |lines| ==>
            && (report[i] == Overlong <==> |lines[i]| + 1 > MAX_CDC_LINE_SIZE)
            && (report[i] != Overlong ==> IsFrameOf(report[i], lines[i], isText)))
      && (|rest| > MAX_CDC_LINE_SIZE ==> report[|lines|] == Overlong)
  {
    SplitOfJoin(lines, rest);
    forall i | 0 <= i < |lines| && |lines[i]| + 1 <= MAX_CDC_LINE_SIZE
      ensures IsFrameOf(FrameOf(lines[i], isText), lines[i], isText)
    {
      FrameCarriesTheLine(lines[i], isText);
    }
  }
}

/** The node's bounded line parser: lines keep their line feed, and at most four wait. */
module NodeLines {
  import opened Wrappers
  import opened Bytes
  import opened LineSplit

  const MAX_CDC_LINE_SIZE: nat := 4096
  const MAX_CDC_QUEUED_LINES: nat := 4

  datatype FrameError = LineTooLong | QueueFull

  /** The lines that fit, with their line feeds. */
  function Fitting(lines: seq<Line>): seq<Line> {
    if lines == [] then []
    else
      var last := lines[|lines| - 1];
      Fitting(lines[..|lines| - 1]) + if |last| + 1 <= MAX_CDC_LINE_SIZE then [last + [LF]] else []
  }

  function Take(lines: seq<Line>, room: nat): seq<Line> { if |lines| <= room then lines else lines[..room] }

  /** The queue after lines completed: those that fit, while there is room. */
  function Queued(queue: seq<Line>, lines: seq<Line>): seq<Line>
    requires |queue| <= MAX_CDC_QUEUED_LINES
  {
    queue + Take(Fitting(lines), MAX_CDC_QUEUED_LINES - |queue|)
  }

  /** What one byte after a stream reports, given the lines then queued. */
  function ErrorAt(stream: seq<Byte>, queue: seq<Line>, byte: Byte): Option<FrameError> {
    if |Rest(stream)| == MAX_CDC_LINE_SIZE then Some(LineTooLong)
    else if |Rest(stream)| < MAX_CDC_LINE_SIZE && byte == LF && |queue| == MAX_CDC_QUEUED_LINES then Some(QueueFull)
    else None
  }

  /** The last error met while bytes are fed. */
  function LastError(stream: seq<Byte>, queue: seq<Line>, bytes: seq<Byte>): Option<FrameError>
    requires |queue| <= MAX_CDC_QUEUED_LINES
  {
    if bytes == [] then None
    else
      var init := bytes[..|bytes| - 1];
      LinesGrow(stream, init);
      var e := ErrorAt(stream + init, Queued(queue, NewLines(stream, init)), bytes[|bytes| - 1]);
      if e.Some? then e else LastError(stream, queue, init)
  }

  lemma {:induction false} FittingConcat(a: seq<Line>, b: seq<Line>)
    ensures Fitting(a + b) == Fitting(a) + Fitting(b)
  {
    if b == [] {
      assert a + b == a;
    } else {
      FittingConcat(a, b[..|b| - 1]);
      assert (a + b)[..|a + b| - 1] == a + b[..|b| - 1];
    }
  }

  lemma QueuedSnoc(queue: seq<Line>, lines: seq<Line>, line: Line)
    requires |queue| <= MAX_CDC_QUEUED_LINES
    ensures Queued(queue, lines + [line]) ==
      if |line| + 1 > MAX_CDC_LINE_SIZE || |Queued(queue, lines)| == MAX_CDC_QUEUED_LINES then Queued(queue, lines)
      else Queued(queue, lines) + [line + [LF]]
  {
    FittingConcat(lines, [line]);
    assert [line][..0] == [];
    assert Fitting([line]) == if |line| + 1 <= MAX_CDC_LINE_SIZE then [line + [LF]] else [];
  }

  class CdcLineParser {
    var current: Line
    var lines: seq<Line>
    var droppingOverlong: bool
    ghost var stream: seq<Byte>
    ghost var accepted: seq<Line>
    ghost var popped: seq<Line>

    /** The fields hold the unfinished line, and the queue the accepted lines not yet popped. */
    ghost predicate Valid()
      reads this
    {
      && (if |Rest(stream)| <= MAX_CDC_LINE_SIZE then current == Rest(stream) && !droppingOverlong
          else current == [] && droppingOverlong)
      && |lines| <= MAX_CDC_QUEUED_LINES
      && accepted == popped + lines
    }

    constructor ()
      ensures Valid() && stream == [] && lines == [] && accepted == [] && popped == []
    {
      current, lines, droppingOverlong, stream, accepted, popped := [], [], false, [], [], [];
    }

    method FeedByte(byte: Byte) returns (error: Option<FrameError>)
      requires Valid()
      modifies this
      ensures Valid() && stream == old(stream) + [byte] && popped == old(popped) && old(accepted) <= accepted
      ensures error == ErrorAt(old(stream), old(lines), byte)
      ensures lines == if byte == LF then Queued(old(lines), [Rest(old(stream))]) else old(lines)
    {
      error := None;
      SplitSnoc(stream, byte);
      QueuedSnoc(lines, [], Rest(stream));
      stream := stream + [byte];
      if droppingOverlong {
        if byte == LF {
          droppingOverlong := false;
        }
      } else if |current| == MAX_CDC_LINE_SIZE {
        current := [];
        droppingOverlong := byte != LF;
        error := Some(LineTooLong);
      } else {
        current := current + [byte];
        if byte == LF {
          var line := current;
          current := [];
          if |lines| == MAX_CDC_QUEUED_LINES {
            error := Some(QueueFull);
          } else {
            lines := lines + [line];
            accepted := accepted + [line];
          }
        }
      }
    }

    /** Queues the lines this piece completes that fit, while there is room; the last error is returned. */
    method Feed(bytes: seq<Byte>) returns (r: Result<(), FrameError>)
      requires Valid()
      modifies this
      ensures Valid() && stream == old(stream) + bytes && popped == old(popped) && old(accepted) <= accepted
      ensures |Lines(old(stream))| <= |Lines(stream)|
      ensures lines == Queued(old(lines), NewLines(old(stream), bytes))
      ensures r == match LastError(old(stream), old(lines), bytes)
                   case None => Ok(())
                   case Some(e) => Err(e)
    {
      hide Split, Queued, ErrorAt;
      var error: Option<FrameError> := None;
      NothingNew(stream, lines, bytes);
      for i := 0 to |bytes|
        invariant Valid() && stream == old(stream) + bytes[..i] && popped == old(popped) && old(accepted) <= accepted
        invariant |Lines(old(stream))| <= |Lines(stream)|
        invariant lines == Queued(old(lines), NewLines(old(stream), bytes[..i]))
        invariant error == LastError(old(stream), old(lines), bytes[..i])
      {
        Advance(old(stream), bytes, i);
        assert bytes[..i + 1][..i] == bytes[..i];
        QueueAdvance(old(lines), NewLines(old(stream), bytes[..i]), Rest(stream));
        var e := FeedByte(bytes[i]);
        if e.Some? {
          error := e;
        }
      }
      assert bytes[..|bytes|] == bytes;
      r := if error.Some? then Err(error.value) else Ok(());
    }

    /** Accepted lines leave in the order they were accepted. */
    method PopLine() returns (line: Option<Line>)
      requires Valid()
      modifies this`lines, this`popped
      ensures Valid() && stream == old(stream) && accepted == old(accepted)
      ensures line == if old(lines) == [] then None else Some(old(lines)[0])
      ensures popped == old(popped) + (if line.Some? then [line.value] else [])
      ensures lines == if old(lines) == [] then [] else old(lines)[1..]
    {
      if lines == [] {
        return None;
      }
      line := Some(lines[0]);
      popped := popped + [lines[0]];
      lines := lines[1..];
    }
  }

  lemma NothingNew(stream: seq<Byte>, queue: seq<Line>, bytes: seq<Byte>)
    requires |queue| <= MAX_CDC_QUEUED_LINES
    ensures stream + bytes[..0] == stream
    ensures NewLines(stream, bytes[..0]) == [] && Queued(queue, []) == queue
  {
    assert stream + bytes[..0] == stream;
  }

  lemma QueueAdvance(queue: seq<Line>, lines: seq<Line>, line: Line)
    requires |queue| <= MAX_CDC_QUEUED_LINES
    ensures |Queued(queue, lines)| <= MAX_CDC_QUEUED_LINES
    ensures Queued(queue, lines + [line]) == Queued(Queued(queue, lines), [line])
    ensures Queued(queue, lines + []) == Queued(queue, lines)
  {
    QueuedConcat(queue, lines, [line]);
    assert lines + [] == lines;
  }

  function WithLf(lines: seq<Line>): (r: seq<Line>)
    ensures |r| == |lines|
    ensures forall i :: 0 <= i < |lines| ==> r[i] == lines[i] + [LF]
  {
    seq(|lines|, i requires 0 <= i < |lines| => lines[i] + [LF])
  }

  lemma {:induction false} FittingAtMostAll(lines: seq<Line>)
    ensures |Fitting(lines)| <= |lines|
    ensures |Fitting(lines)| == |lines| ==> Fitting(lines) == WithLf(lines)
  {
    if lines != [] {
      FittingAtMostAll(lines[..|lines| - 1]);
    }
  }

  /** Nothing was lost: every line completed was queued, and the unfinished one still fits. */
  ghost predicate Complete(stream: seq<Byte>, queue: seq<Line>, bytes: seq<Byte>)
    requires |queue| <= MAX_CDC_QUEUED_LINES && |Lines(stream)| <= |Lines(stream + bytes)|
  {
    && Queued(queue, NewLines(stream, bytes)) == queue + WithLf(NewLines(stream, bytes))
    && |Rest(stream + bytes)| <= MAX_CDC_LINE_SIZE
  }

  /** The errors tell the truth: too long means that no ending makes this line fit, full means that a line which fits
      completes and finds no room. */
  lemma ErrorsTellTheTruth(stream: seq<Byte>, queue: seq<Line>, byte: Byte, more: Line)
    requires |queue| <= MAX_CDC_QUEUED_LINES && LF !in more
    ensures ErrorAt(stream, queue, byte) == Some(LineTooLong) ==>
      |Rest(stream) + (if byte == LF then [] else [byte] + more)| + 1 > MAX_CDC_LINE_SIZE
    ensures ErrorAt(stream, queue, byte) == Some(QueueFull) ==>
      && |Lines(stream + [byte])| == |Lines(stream)| + 1 && |Rest(stream)| + 1 <= MAX_CDC_LINE_SIZE
      && Queued(queue, [Rest(stream)]) == queue
  {
    SplitSnoc(stream, byte);
    QueuedSnoc(queue, [], Rest(stream));
    assert [] + [Rest(stream)] == [Rest(stream)] && Queued(queue, []) == queue;
  }

  lemma CompleteByCount(queue: seq<Line>, lines: seq<Line>)
    requires |queue| <= MAX_CDC_QUEUED_LINES
    ensures |Queued(queue, lines)| <= |queue| + |lines|
    ensures Queued(queue, lines) == queue + WithLf(lines) <==> |Queued(queue, lines)| == |queue| + |lines|
  {
    FittingAtMostAll(lines);
  }

  lemma CompleteStep(stream: seq<Byte>, queue: seq<Line>, bytes: seq<Byte>, byte: Byte)
    requires |queue| <= MAX_CDC_QUEUED_LINES && |Lines(stream)| <= |Lines(stream + bytes)|
    ensures |Lines(stream)| <= |Lines(stream + (bytes + [byte]))|
    ensures Complete(stream, queue, bytes + [byte]) <==>
      Complete(stream, queue, bytes) && ErrorAt(stream + bytes, Queued(queue, NewLines(stream, bytes)), byte).None?
  {
    var lines, now := NewLines(stream, bytes), stream + bytes;
    assert stream + (bytes + [byte]) == now + [byte];
    SplitSnoc(now, byte);
    hide Split, Queued, WithLf;
    CompleteByCount(queue, lines);
    if byte == LF {
      assert NewLines(stream, bytes + [byte]) == lines + [Rest(now)];
      CompleteByCount(queue, lines + [Rest(now)]);
      QueuedSnoc(queue, lines, Rest(now));
    }
  }

  /** While no overlong line is being dropped, a feed answers Ok exactly when it lost nothing. */
  lemma {:induction false} OkWhenNotDropping(stream: seq<Byte>, queue: seq<Line>, bytes: seq<Byte>)
    requires |queue| <= MAX_CDC_QUEUED_LINES && |Rest(stream)| <= MAX_CDC_LINE_SIZE
    ensures |Lines(stream)| <= |Lines(stream + bytes)|
    ensures LastError(stream, queue, bytes).None? <==> Complete(stream, queue, bytes)
  {
    LinesGrow(stream, bytes);
    if bytes == [] {
      assert stream + bytes == stream;
      assert NewLines(stream, bytes) == [];
      CompleteByCount(queue, []);
      assert Queued(queue, []) == queue;
    } else {
      var init, byte := bytes[..|bytes| - 1], bytes[|bytes| - 1];
      OkWhenNotDropping(stream, queue, init);
      CompleteStep(stream, queue, init, byte);
      assert bytes == init + [byte];
    }
  }

  lemma QueuedConcat(queue: seq<Line>, a: seq<Line>, b: seq<Line>)
    requires |queue| <= MAX_CDC_QUEUED_LINES
    ensures |Queued(queue, a)| <= MAX_CDC_QUEUED_LINES
    ensures Queued(Queued(queue, a), b) == Queued(queue, a + b)
  {
    FittingConcat(a, b);
  }

  /** Without pops the cuts of the stream do not matter: two chunks leave the queue and report the last error
      that their concatenation does. */
  lemma {:induction false} CutAnywhere(stream: seq<Byte>, queue: seq<Line>, a: seq<Byte>, b: seq<Byte>)
    requires |queue| <= MAX_CDC_QUEUED_LINES
    ensures |Lines(stream)| <= |Lines(stream + a)| <= |Lines(stream + a + b)|
    ensures |Lines(stream)| <= |Lines(stream + (a + b))|
    ensures var between := Queued(queue, NewLines(stream, a));
      && |between| <= MAX_CDC_QUEUED_LINES
      && Queued(between, NewLines(stream + a, b)) == Queued(queue, NewLines(stream, a + b))
      && LastError(stream, queue, a + b) ==
           if LastError(stream + a, between, b).Some? then LastError(stream + a, between, b)
           else LastError(stream, queue, a)
    decreases |b|
  {
    hide Split, Queued, ErrorAt;
    NewLinesConcat(stream, a, b);
    QueuedConcat(queue, NewLines(stream, a), NewLines(stream + a, b));
    if b == [] {
      assert a + b == a;
    } else {
      var init, byte := b[..|b| - 1], b[|b| - 1];
      CutAnywhere(stream, queue, a, init);
      assert (a + b)[..|a + b| - 1] == a + init && (a + b)[|a + b| - 1] == byte;
      assert stream + (a + init) == stream + a + init;
    }
  }

  /** The bytes of an overlong line being dropped report nothing. */
  lemma {:induction false} DroppingIsSilent(stream: seq<Byte>, queue: seq<Line>, bytes: seq<Byte>)
    requires |queue| <= MAX_CDC_QUEUED_LINES && |Rest(stream)| > MAX_CDC_LINE_SIZE && LF !in bytes
    ensures LastError(stream, queue, bytes).None?
  {
    hide Split, Queued;
    if bytes != [] {
      DroppingIsSilent(stream, queue, bytes[..|bytes| - 1]);
      SplitExtend(stream, bytes[..|bytes| - 1]);
      LinesGrow(stream, bytes[..|bytes| - 1]);
    }
  }

  /** Nothing was lost but, at most, the overlong line that was already being dropped. */
  ghost predicate Lossless(stream: seq<Byte>, queue: seq<Line>, bytes: seq<Byte>)
    requires |queue| <= MAX_CDC_QUEUED_LINES && |Lines(stream)| <= |Lines(stream + bytes)|
  {
    if |Rest(stream)| <= MAX_CDC_LINE_SIZE then Complete(stream, queue, bytes)
    else
      var lines := NewLines(stream, bytes);
      lines == [] || (&& Queued(queue, lines[1..]) == queue + WithLf(lines[1..])
                      && |Rest(stream + bytes)| <= MAX_CDC_LINE_SIZE)
  }

  /** The line that ends a drop: it completes, is not queued, and is not reported again. */
  lemma DropEnds(stream: seq<Byte>, queue: seq<Line>, dropped: Line)
    requires |queue| <= MAX_CDC_QUEUED_LINES && |Rest(stream)| > MAX_CDC_LINE_SIZE && LF !in dropped
    ensures var bytes := dropped + [LF];
      && |Lines(stream)| <= |Lines(stream + bytes)|
      && NewLines(stream, bytes) == [Rest(stream) + dropped] && Rest(stream + bytes) == []
      && Queued(queue, NewLines(stream, bytes)) == queue
      && LastError(stream, queue, bytes).None?
  {
    var bytes := dropped + [LF];
    assert bytes[..|bytes| - 1] == dropped;
    assert stream + bytes == stream + dropped + [LF];
    SplitExtend(stream, dropped);
    SplitSnoc(stream + dropped, LF);
    LinesGrow(stream, dropped);
    DroppingIsSilent(stream, queue, dropped);
    hide Split;
    assert NewLines(stream, dropped) == [];
    QueuedSnoc(queue, [], Rest(stream) + dropped);
    assert Queued(queue, []) == queue;
    assert [] + [Rest(stream) + dropped] == [Rest(stream) + dropped];
  }

  lemma {:induction false} FirstLf(bytes: seq<Byte>) returns (i: nat)
    requires LF in bytes
    ensures i < |bytes| && bytes[i] == LF && LF !in bytes[..i]
  {
    if bytes[0] == LF {
      i := 0;
    } else {
      i := FirstLf(bytes[1..]);
      assert bytes[..i + 1] == [bytes[0]] + bytes[1..][..i];
      i := i + 1;
    }
  }

  /** For every stream fed so far: Ok means exactly that nothing was lost but an overlong line already being dropped. */
  lemma OkMeansNothingLost(stream: seq<Byte>, queue: seq<Line>, bytes: seq<Byte>)
    requires |queue| <= MAX_CDC_QUEUED_LINES
    ensures |Lines(stream)| <= |Lines(stream + bytes)|
    ensures LastError(stream, queue, bytes).None? <==> Lossless(stream, queue, bytes)
  {
    LinesGrow(stream, bytes);
    if |Rest(stream)| <= MAX_CDC_LINE_SIZE {
      OkWhenNotDropping(stream, queue, bytes);
    } else if LF !in bytes {
      DroppingIsSilent(stream, queue, bytes);
      SplitExtend(stream, bytes);
    } else {
      var i := FirstLf(bytes);
      OkAfterDrop(stream, queue, bytes[..i], bytes[i + 1..]);
      assert bytes == bytes[..i] + [LF] + bytes[i + 1..];
    }
  }

  lemma OkAfterDrop(stream: seq<Byte>, queue: seq<Line>, dropped: Line, more: seq<Byte>)
    requires |queue| <= MAX_CDC_QUEUED_LINES && |Rest(stream)| > MAX_CDC_LINE_SIZE && LF !in dropped
    ensures var bytes := dropped + [LF] + more;
      && |Lines(stream)| <= |Lines(stream + bytes)|
      && (LastError(stream, queue, bytes).None? <==> Lossless(stream, queue, bytes))
  {
    hide Split, Queued, LastError, WithLf;
    var ended := dropped + [LF];
    DropEnds(stream, queue, dropped);
    CutAnywhere(stream, queue, ended, more);
    OkWhenNotDropping(stream + ended, queue, more);
    NewLinesConcat(stream, ended, more);
    assert NewLines(stream, ended + more)[1..] == NewLines(stream + ended, more);
    assert stream + (ended + more) == stream + ended + more;
  }

  lemma DropThenMoreIsIncomplete(stream: seq<Byte>, queue: seq<Line>, dropped: Line, more: seq<Byte>)
    requires |queue| <= MAX_CDC_QUEUED_LINES && |Rest(stream)| > MAX_CDC_LINE_SIZE && LF !in dropped
    ensures |Lines(stream)| <= |Lines(stream + (dropped + [LF] + more))|
    ensures !Complete(stream, queue, dropped + [LF] + more)
  {
    hide Split, Queued, LastError, WithLf;
    var ended := dropped + [LF];
    LinesGrow(stream, ended + more);
    DropEnds(stream, queue, dropped);
    NewLinesConcat(stream, ended, more);
    var rest := NewLines(stream + ended, more);
    QueuedConcat(queue, NewLines(stream, ended), rest);
    CompleteByCount(queue, rest);
    CompleteByCount(queue, NewLines(stream, ended + more));
  }

  /** A feed that begins inside an overlong line never queues all its lines, though it may well answer Ok. */
  lemma DroppedLineIsLost(stream: seq<Byte>, queue: seq<Line>, bytes: seq<Byte>)
    requires |queue| <= MAX_CDC_QUEUED_LINES && |Rest(stream)| > MAX_CDC_LINE_SIZE
    ensures |Lines(stream)| <= |Lines(stream + bytes)| && !Complete(stream, queue, bytes)
    ensures LastError(stream, queue, [LF]).None?
  {
    LinesGrow(stream, bytes);
    DropEnds(stream, queue, []);
    assert [] + [LF] == [LF];
    if LF !in bytes {
      SplitExtend(stream, bytes);
    } else {
      var i := FirstLf(bytes);
      hide Split, Queued, LastError, WithLf, Complete;
      DropThenMoreIsIncomplete(stream, queue, bytes[..i], bytes[i + 1..]);
      assert bytes == bytes[..i] + [LF] + bytes[i + 1..];
    }
  }
}
