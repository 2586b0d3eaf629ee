/** Newline framing of the daemon socket: any way a stream is cut into chunks delivers the same frames. */
module Framing {
  import opened Text

  /** `JSON.stringify` never leaves a line break in the text of a frame; a frame here is that text. */
  function EncodeFrame(frame: string): string {
    frame + "\n"
  }

  predicate Blank(s: string) {
    Trim(s) == ""
  }

  function NonBlank(parts: seq<string>): seq<string> {
    if parts == [] then [] else (if Blank(parts[0]) then [] else [parts[0]]) + NonBlank(parts[1..])
  }

  /** Complete frames, and the tail after the last line break. */
  datatype Frames = Frames(frames: seq<string>, rest: string)

  function SplitFrames(buffer: string): Frames {
    var parts := Split(buffer, '\n');
    Frames(NonBlank(parts[..|parts| - 1]), parts[|parts| - 1])
  }

  lemma {:induction false} NonBlankConcat(a: seq<string>, b: seq<string>)
    ensures NonBlank(a + b) == NonBlank(a) + NonBlank(b)
  {
    if a == [] {
      assert a + b == b;
    } else {
      assert (a + b)[1..] == a[1..] + b;
      NonBlankConcat(a[1..], b);
    }
  }

  lemma SplitParts(s: string, parts: seq<string>, last: string)
    requires Split(s, '\n') == parts + [last]
    ensures SplitFrames(s) == Frames(NonBlank(parts), last)
  {
    assert (parts + [last])[..|parts|] == parts;
  }

  lemma LastPart(parts: seq<string>) returns (init: seq<string>, last: string)
    requires parts != []
    ensures parts == init + [last]
  {
    init, last := parts[..|parts| - 1], parts[|parts| - 1];
  }

  lemma SplitAcross(a: string, b: string, done: seq<string>, tail: string)
    requires Split(a, '\n') == done + [tail]
    ensures Split(a + b, '\n') == done + Split(tail + b, '\n')
  {
    assert (done + [tail])[|done|] == tail;
    SplitConcat(a, b, '\n');
    SplitConcat(tail, b, '\n');
    SplitPlain(tail, '\n');
    GlueTail(done, tail, Split(b, '\n'));
  }

  lemma PartsAcross(whole: string, done: seq<string>, more: seq<string>, last: string)
    requires Split(whole, '\n') == done + (more + [last])
    ensures SplitFrames(whole) == Frames(NonBlank(done) + NonBlank(more), last)
  {
    assert done + (more + [last]) == (done + more) + [last];
    SplitParts(whole, done + more, last);
    NonBlankConcat(done, more);
  }

  /** Feeding a second piece continues from the tail of the first. */
  lemma FeedSplit(a: string, b: string)
    ensures var first := SplitFrames(a);
            var second := SplitFrames(first.rest + b);
            SplitFrames(a + b) == Frames(first.frames + second.frames, second.rest)
  {
    var done, tail := LastPart(Split(a, '\n'));
    SplitParts(a, done, tail);
    var more, last := LastPart(Split(tail + b, '\n'));
    SplitParts(tail + b, more, last);
    SplitAcross(a, b, done, tail);
    PartsAcross(a + b, done, more, last);
  }

  lemma GlueTail(done: seq<string>, tail: string, y: seq<string>)
    requires y != []
    ensures Glue(done + [tail], y) == done + Glue([tail], y)
  {
    assert (done + [tail])[..|done|] == done;
    assert [tail][..0] == [];
  }

  function Concat(chunks: seq<string>): string {
    if chunks == [] then "" else Concat(chunks[..|chunks| - 1]) + chunks[|chunks| - 1]
  }

  /** What a handler that keeps a buffer has delivered after some chunks. */
  function Feed(chunks: seq<string>): Frames {
    if chunks == [] then Frames([], "")
    else
      var before := Feed(chunks[..|chunks| - 1]);
      var now := SplitFrames(before.rest + chunks[|chunks| - 1]);
      Frames(before.frames + now.frames, now.rest)
  }

  /** However a stream is cut, the handler delivers the frames of the whole stream and keeps its tail. */
  lemma {:induction false} ChunksDoNotMatter(chunks: seq<string>)
    ensures Feed(chunks) == SplitFrames(Concat(chunks))
  {
    if chunks == [] {
      assert Split("", '\n') == [""];
      SplitParts("", [], "");
    } else {
      var init, last := chunks[..|chunks| - 1], chunks[|chunks| - 1];
      ChunksDoNotMatter(init);
      FeedSplit(Concat(init), last);
    }
  }

  // ---------- encoded frames come back ----------

  function Encode(frames: seq<string>): string {
    if frames == [] then "" else EncodeFrame(frames[0]) + Encode(frames[1..])
  }

  /** A frame that survives: on one line, with more than white space on it. */
  predicate Sendable(frame: string) {
    '\n' !in frame && !AllSpace(frame)
  }

  lemma EncodedFirst(frame: string, rest: string)
    requires '\n' !in frame
    ensures Split(EncodeFrame(frame) + rest, '\n') == [frame] + Split(rest, '\n')
  {
    SplitPlain(frame, '\n');
    SplitAtSeparator(frame, rest, '\n');
  }

  lemma {:induction false} EncodedSplits(frames: seq<string>)
    requires forall k :: 0 <= k < |frames| ==> '\n' !in frames[k]
    ensures Split(Encode(frames), '\n') == frames + [""]
  {
    if frames == [] {
      assert Split("", '\n') == [""];
    } else {
      EncodedSplits(frames[1..]);
      EncodedFirst(frames[0], Encode(frames[1..]));
      assert frames == [frames[0]] + frames[1..];
      assert [frames[0]] + (frames[1..] + [""]) == frames + [""];
    }
  }

  lemma {:induction false} NonBlankOf(parts: seq<string>)
    requires forall k :: 0 <= k < |parts| ==> !AllSpace(parts[k])
    ensures NonBlank(parts) == parts
  {
    if parts != [] {
      BlankIsSpace(parts[0]);
      NonBlankOf(parts[1..]);
    }
  }

  lemma {:induction false} NonBlankAreSendable(parts: seq<string>)
    requires forall k :: 0 <= k < |parts| ==> '\n' !in parts[k]
    ensures forall k :: 0 <= k < |NonBlank(parts)| ==> Sendable(NonBlank(parts)[k])
  {
    if parts != [] {
      BlankIsSpace(parts[0]);
      NonBlankAreSendable(parts[1..]);
    }
  }

  /** Encoded frames come back unchanged, with nothing left over, exactly when each is on one line and not blank. */
  lemma EncodedComeBack(frames: seq<string>)
    ensures SplitFrames(Encode(frames)) == Frames(frames, "") <==> forall k :: 0 <= k < |frames| ==> Sendable(frames[k])
  {
    var parts, last := LastPart(Split(Encode(frames), '\n'));
    SplitParts(Encode(frames), parts, last);
    assert forall k :: 0 <= k < |parts| ==> parts[k] == Split(Encode(frames), '\n')[k];
    NonBlankAreSendable(parts);
    if forall k :: 0 <= k < |frames| ==> Sendable(frames[k]) {
      EncodedSplits(frames);
      SplitParts(Encode(frames), frames, "");
      NonBlankOf(frames);
    }
  }

  lemma EncodedFrames(lines: seq<string>)
    requires forall k :: 0 <= k < |lines| ==> '\n' !in lines[k]
    ensures SplitFrames(Encode(lines)) == Frames(NonBlank(lines), "")
  {
    EncodedSplits(lines);
    SplitParts(Encode(lines), lines, "");
  }

  lemma NonBlankAdds(lines: seq<string>, line: string)
    ensures NonBlank(lines + [line]) == NonBlank(lines) + if AllSpace(line) then [] else [line]
  {
    NonBlankConcat(lines, [line]);
    assert [line][1..] == [];
    BlankIsSpace(line);
  }

  /** One more line in a stream is one more frame, unless it is white space only; no line is no frame. */
  lemma LineAdds(lines: seq<string>, line: string)
    requires '\n' !in line && forall k :: 0 <= k < |lines| ==> '\n' !in lines[k]
    ensures var before, after := SplitFrames(Encode(lines)), SplitFrames(Encode(lines + [line]));
            && (lines == [] ==> before.frames == []) && after.rest == ""
            && after.frames == before.frames + if AllSpace(line) then [] else [line]
  {
    EncodedFrames(lines);
    EncodedFrames(lines + [line]);
    NonBlankAdds(lines, line);
  }

  /** So frames sent over the socket arrive as sent, in order, however the stream is cut. */
  lemma SentArrive(frames: seq<string>, chunks: seq<string>)
    requires Concat(chunks) == Encode(frames) && forall k :: 0 <= k < |frames| ==> Sendable(frames[k])
    ensures Feed(chunks) == Frames(frames, "")
  {
    ChunksDoNotMatter(chunks);
    EncodedComeBack(frames);
  }
}
