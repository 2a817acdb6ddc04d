/**
 * The chunk reassembler of the parser's stdout handler: each chunk is split on
 * newlines, the fragment left over from the previous chunk is glued onto the
 * first piece, every piece but the last is a complete line, and the last piece
 * is kept for the next chunk.
 */
module Reassembly {

  const NL: char := '\n'

  /** JavaScript's `s.split(/\n/g)`: the newline-free pieces between newlines,
      always at least one. */
  function Split(s: string): (parts: seq<string>)
    ensures |parts| >= 1
    ensures forall i :: 0 <= i < |parts| ==> NL !in parts[i]
    decreases |s|
  {
    if s == [] then [""]
    else
      var rest := Split(s[1..]);
      if s[0] == NL then [""] + rest
      else [[s[0]] + rest[0]] + rest[1..]
  }

  /** The pieces put back together with a newline between each two. */
  function Join(parts: seq<string>): string {
    if parts == [] then ""
    else if |parts| == 1 then parts[0]
    else parts[0] + [NL] + Join(parts[1..])
  }

  /** Each line followed by a newline. */
  function Terminated(lines: seq<string>): string {
    if lines == [] then "" else lines[0] + [NL] + Terminated(lines[1..])
  }

  function CountNL(s: string): nat {
    if s == [] then 0 else (if s[0] == NL then 1 else 0) + CountNL(s[1..])
  }

  predicate NewlineFree(lines: seq<string>) {
    forall i :: 0 <= i < |lines| ==> NL !in lines[i]
  }

  // ---------------------------------------------------------------------------
  // Splitting and joining are inverse
  // ---------------------------------------------------------------------------

  lemma {:induction false} SplitJoin(s: string)
    ensures Join(Split(s)) == s
    decreases |s|
  {
    if s != [] {
      SplitJoin(s[1..]);
      var rest := Split(s[1..]);
      if s[0] == NL {
        assert ([""] + rest)[1..] == rest;
      } else if |rest| > 1 {
        assert ([[s[0]] + rest[0]] + rest[1..])[1..] == rest[1..];
      }
    }
  }

  lemma {:induction false} SplitPrefix(p: string, t: string)
    requires NL !in p
    ensures Split(p + t) == [p + Split(t)[0]] + Split(t)[1..]
    decreases |p|
  {
    if p != [] {
      var s := p + t;
      assert s[0] == p[0] && p[0] in p;
      assert s[1..] == p[1..] + t;
      SplitPrefix(p[1..], t);
      var rest := Split(s[1..]);
      assert Split(s) == [[s[0]] + rest[0]] + rest[1..];
      assert [p[0]] + (p[1..] + Split(t)[0]) == p + Split(t)[0];
    } else {
      assert p + t == t && p + Split(t)[0] == Split(t)[0];
    }
  }

  /** Joining newline-free pieces and splitting again gives the pieces back. */
  lemma {:induction false} JoinSplit(parts: seq<string>)
    requires |parts| >= 1 && NewlineFree(parts)
    ensures Split(Join(parts)) == parts
    decreases |parts|
  {
    if |parts| == 1 {
      SplitPrefix(parts[0], "");
      assert parts[0] + "" == parts[0];
    } else {
      JoinSplit(parts[1..]);
      var t := [NL] + Join(parts[1..]);
      assert Join(parts) == parts[0] + t;
      SplitPrefix(parts[0], t);
      assert t[1..] == Join(parts[1..]);
      assert t[0] == NL;
      assert Split(t) == [""] + parts[1..];
      assert Split(t)[0] == "" && Split(t)[1..] == parts[1..];
      assert parts[0] + "" == parts[0];
      assert parts == [parts[0]] + parts[1..];
    }
  }

  /** A string with `k` newlines splits into `k + 1` pieces. */
  lemma {:induction false} SplitCount(s: string)
    ensures |Split(s)| == CountNL(s) + 1
    decreases |s|
  {
    if s != [] {
      SplitCount(s[1..]);
    }
  }

  lemma {:induction false} CountNLPositive(s: string)
    ensures NL in s <==> CountNL(s) > 0
    decreases |s|
  {
    if s != [] {
      CountNLPositive(s[1..]);
      assert s == [s[0]] + s[1..];
    }
  }

  lemma {:induction false} TerminatedAppend(a: seq<string>, b: seq<string>)
    ensures Terminated(a + b) == Terminated(a) + Terminated(b)
    decreases |a|
  {
    if a != [] {
      assert (a + b)[0] == a[0];
      assert (a + b)[1..] == a[1..] + b;
      TerminatedAppend(a[1..], b);
    } else {
      assert a + b == b;
    }
  }

  lemma {:induction false} JoinAsTerminated(parts: seq<string>)
    requires |parts| >= 1
    ensures Join(parts) == Terminated(parts[..|parts| - 1]) + parts[|parts| - 1]
    decreases |parts|
  {
    if |parts| > 1 {
      JoinAsTerminated(parts[1..]);
      assert parts[..|parts| - 1][1..] == parts[1..][..|parts| - 2];
    }
  }

  lemma {:induction false} TerminatedEndsWithNL(lines: seq<string>)
    requires lines != []
    ensures |Terminated(lines)| > 0 && Terminated(lines)[|Terminated(lines)| - 1] == NL
    decreases |lines|
  {
    if |lines| > 1 {
      TerminatedEndsWithNL(lines[1..]);
    }
  }

  // ---------------------------------------------------------------------------
  // One chunk
  // ---------------------------------------------------------------------------

  /** The complete lines a chunk yields and the fragment left for the next. */
  datatype Step = Step(lines: seq<string>, remaining: string)

  /** The stdout handler as written: the last piece is taken BEFORE the old
      fragment is glued onto the first piece, then the old fragment is glued
      on, then every piece but the last is a line. */
  function Reassemble(remaining: string, chunk: string): Step {
    var parts := Split(chunk);
    var lastLine := parts[|parts| - 1];
    var fixed := parts[0 := remaining + parts[0]];
    Step(fixed[..|fixed| - 1], lastLine)
  }

  lemma {:induction false} ChunkLines(remaining: string, chunk: string)
    requires NL in chunk
    ensures var step := Reassemble(remaining, chunk);
            var parts := Split(chunk);
            && |step.lines| == CountNL(chunk) >= 1
            && step.lines[0] == remaining + parts[0]
            && (forall i :: 1 <= i < |step.lines| ==> step.lines[i] == parts[i])
            && step.remaining == parts[|parts| - 1]
  {
    SplitCount(chunk);
    CountNLPositive(chunk);
  }

  /** Gluing a prefix onto the first line adds it in front of the
      newline-terminated text. */
  lemma {:induction false} TerminatedGlued(prefix: string, lines: seq<string>)
    requires lines != []
    ensures Terminated([prefix + lines[0]] + lines[1..]) == prefix + Terminated(lines)
  {
    var glued := [prefix + lines[0]] + lines[1..];
    var rest := Terminated(lines[1..]);
    assert glued[0] == prefix + lines[0] && glued[1..] == lines[1..];
    assert Terminated(glued) == (prefix + lines[0]) + [NL] + rest;
    assert Terminated(lines) == lines[0] + [NL] + rest;
    assert (prefix + lines[0]) + [NL] + rest == prefix + (lines[0] + [NL] + rest);
  }

  /** With at least one newline, the lines are the pieces but the last, the
      first glued onto the old fragment. */
  lemma {:induction false} ReassembleLines(remaining: string, chunk: string)
    requires |Split(chunk)| >= 2
    ensures var parts := Split(chunk);
            var init := parts[..|parts| - 1];
            && Reassemble(remaining, chunk).lines == [remaining + init[0]] + init[1..]
            && Reassemble(remaining, chunk).remaining == parts[|parts| - 1]
  {
  }

  lemma {:induction false} ChunkRebuilt(remaining: string, chunk: string)
    requires NL in chunk
    ensures var step := Reassemble(remaining, chunk);
            Terminated(step.lines) + step.remaining == remaining + chunk
  {
    var parts := Split(chunk);
    SplitCount(chunk);
    CountNLPositive(chunk);
    SplitJoin(chunk);
    JoinAsTerminated(parts);
    var init := parts[..|parts| - 1];
    ReassembleLines(remaining, chunk);
    TerminatedGlued(remaining, init);
  }

  lemma {:induction false} ChunkEnding(chunk: string)
    requires NL in chunk
    ensures var parts := Split(chunk);
            parts[|parts| - 1] == "" <==> chunk[|chunk| - 1] == NL
  {
    var parts := Split(chunk);
    SplitCount(chunk);
    CountNLPositive(chunk);
    SplitJoin(chunk);
    JoinAsTerminated(parts);
    var init := parts[..|parts| - 1];
    var last := parts[|parts| - 1];
    assert chunk == Terminated(init) + last;
    TerminatedEndsWithNL(init);
    if last != "" {
      assert chunk[|chunk| - 1] == last[|last| - 1];
      assert last[|last| - 1] in last;
    } else {
      assert chunk == Terminated(init);
    }
  }

  /** A chunk with k >= 1 newlines yields exactly k lines: the old fragment and
      the first piece, then the middle pieces; its final piece (empty exactly
      when the chunk ends in a newline) is the new fragment. Nothing is lost:
      the lines, each newline-terminated, and the new fragment spell out the old
      fragment and the chunk. */
  lemma {:induction false} ChunkSplitting(remaining: string, chunk: string)
    requires NL in chunk
    ensures var step := Reassemble(remaining, chunk);
            var parts := Split(chunk);
            && |step.lines| == CountNL(chunk) >= 1
            && step.lines[0] == remaining + parts[0]
            && (forall i :: 1 <= i < |step.lines| ==> step.lines[i] == parts[i])
            && step.remaining == parts[|parts| - 1]
            && (step.remaining == "" <==> chunk[|chunk| - 1] == NL)
            && Terminated(step.lines) + step.remaining == remaining + chunk
  {
    ChunkLines(remaining, chunk);
    ChunkRebuilt(remaining, chunk);
    ChunkEnding(chunk);
  }

  /** A chunk without a newline yields no line, and the new fragment is that
      chunk alone: the previous fragment is discarded. */
  lemma {:induction false} NoNewline(remaining: string, chunk: string)
    requires NL !in chunk
    ensures Reassemble(remaining, chunk) == Step([], chunk)
  {
    SplitCount(chunk);
    CountNLPositive(chunk);
    SplitJoin(chunk);
  }

  /** The fragment is always newline-free, and so is every line when the
      initial fragment was. */
  lemma {:induction false} ReassembleNewlineFree(remaining: string, chunk: string)
    requires NL !in remaining
    ensures NewlineFree(Reassemble(remaining, chunk).lines)
    ensures NL !in Reassemble(remaining, chunk).remaining
  {
    var parts := Split(chunk);
    assert NL !in remaining + parts[0] by {
      forall ch | ch in remaining + parts[0] ensures ch != NL {
        assert ch in remaining || ch in parts[0];
      }
    }
  }

  // ---------------------------------------------------------------------------
  // A sequence of chunks
  // ---------------------------------------------------------------------------

  function Concat(chunks: seq<string>): string {
    if chunks == [] then "" else Concat(chunks[..|chunks| - 1]) + chunks[|chunks| - 1]
  }

  /** Every line the stdout handler hands on, in order, for a sequence of
      chunks, and the fragment left at the end. */
  function FeedAll(remaining: string, chunks: seq<string>): Step {
    if chunks == [] then Step([], remaining)
    else
      var prev := FeedAll(remaining, chunks[..|chunks| - 1]);
      var step := Reassemble(prev.remaining, chunks[|chunks| - 1]);
      Step(prev.lines + step.lines, step.remaining)
  }

  predicate EveryChunkHasNewline(chunks: seq<string>) {
    forall i :: 0 <= i < |chunks| ==> NL in chunks[i]
  }

  /** When every chunk holds a newline, the newline-terminated lines followed
      by the final fragment are the initial fragment and all chunks. */
  lemma {:induction false} TerminatedStep(pl: seq<string>, pr: string, sl: seq<string>, sr: string, c: string)
    requires Terminated(sl) + sr == pr + c
    ensures Terminated(pl + sl) + sr == (Terminated(pl) + pr) + c
  {
    TerminatedAppend(pl, sl);
    calc {
      Terminated(pl + sl) + sr;
      (Terminated(pl) + Terminated(sl)) + sr;
      Terminated(pl) + (Terminated(sl) + sr);
      Terminated(pl) + (pr + c);
      (Terminated(pl) + pr) + c;
    }
  }

  lemma {:induction false} FeedRoundTrip(remaining: string, chunks: seq<string>)
    requires EveryChunkHasNewline(chunks)
    ensures Terminated(FeedAll(remaining, chunks).lines) + FeedAll(remaining, chunks).remaining
            == remaining + Concat(chunks)
    decreases |chunks|
  {
    if chunks != [] {
      var init := chunks[..|chunks| - 1];
      assert EveryChunkHasNewline(init) by {
        forall i | 0 <= i < |init| ensures NL in init[i] { assert init[i] == chunks[i]; }
      }
      FeedRoundTrip(remaining, init);
      var prev := FeedAll(remaining, init);
      var step := Reassemble(prev.remaining, chunks[|chunks| - 1]);
      var last := chunks[|chunks| - 1];
      assert NL in last;
      ChunkRebuilt(prev.remaining, last);
      TerminatedStep(prev.lines, prev.remaining, step.lines, step.remaining, last);
      assert FeedAll(remaining, chunks) == Step(prev.lines + step.lines, step.remaining);
      assert Concat(chunks) == Concat(init) + last;
    }
  }

  lemma {:induction false} FeedNewlineFree(remaining: string, chunks: seq<string>)
    requires NL !in remaining
    ensures NewlineFree(FeedAll(remaining, chunks).lines)
    ensures NL !in FeedAll(remaining, chunks).remaining
    decreases |chunks|
  {
    if chunks != [] {
      FeedNewlineFree(remaining, chunks[..|chunks| - 1]);
      var prev := FeedAll(remaining, chunks[..|chunks| - 1]);
      ReassembleNewlineFree(prev.remaining, chunks[|chunks| - 1]);
    }
  }

  /** When every chunk holds a newline, the lines handed on are exactly the
      complete lines of the unsplit feed, and the final fragment is its
      unterminated tail: the partition into chunks does not matter. */
  lemma {:induction false} FeedMatchesUnpartitioned(chunks: seq<string>)
    requires EveryChunkHasNewline(chunks)
    ensures var whole := Split(Concat(chunks));
            && FeedAll("", chunks).lines == whole[..|whole| - 1]
            && FeedAll("", chunks).remaining == whole[|whole| - 1]
  {
    var step := FeedAll("", chunks);
    FeedRoundTrip("", chunks);
    FeedNewlineFree("", chunks);
    var parts := step.lines + [step.remaining];
    assert NewlineFree(parts) by {
      forall i | 0 <= i < |parts| ensures NL !in parts[i] {
        if i < |step.lines| { assert parts[i] == step.lines[i]; }
      }
    }
    JoinAsTerminated(parts);
    assert parts[..|parts| - 1] == step.lines;
    assert "" + Concat(chunks) == Concat(chunks);
    assert Join(parts) == Concat(chunks);
    JoinSplit(parts);
  }

  lemma {:induction false} SplitLine(p: string)
    requires NL !in p
    ensures Split(p + [NL]) == [p, ""]
  {
    var t := [NL];
    assert t[1..] == "";
    assert Split(t) == ["", ""];
    SplitPrefix(p, t);
    assert p + "" == p;
  }

  lemma {:induction false} ExampleFirstChunk()
    ensures Reassemble("", "x\nab") == Step(["x"], "ab")
  {
    assert "x\nab" == "x" + ([NL] + "ab");
    assert Split("ab") == ["ab"] by { NoNewline("", "ab"); }
    assert Split([NL] + "ab") == ["", "ab"] by { assert ([NL] + "ab")[1..] == "ab"; }
    SplitPrefix("x", [NL] + "ab");
    assert "x" + "" == "x" && "" + "x" == "x";
    assert Split("x\nab") == ["x", "ab"];
    ReassembleLines("", "x\nab");
  }

  lemma {:induction false} ExampleLastChunk()
    ensures Reassemble("c", "\n") == Step(["c"], "")
  {
    assert "\n" == "" + [NL];
    SplitLine("");
    ReassembleLines("c", "\n");
    assert "c" + "" == "c";
  }

  lemma {:induction false} ExampleFeed(chunks: seq<string>)
    requires chunks == ["x\nab", "c", "\n"]
    ensures FeedAll("", chunks).lines == ["x", "c"]
  {
    assert chunks[..2] == ["x\nab", "c"] && chunks[..2][..1] == ["x\nab"];
    assert chunks[..2][..1][..0] == [];
    ExampleFirstChunk();
    assert FeedAll("", chunks[..1]) == Step(["x"], "ab");
    NoNewline("ab", "c");
    assert FeedAll("", chunks[..2]) == Step(["x"], "c");
    ExampleLastChunk();
  }

  lemma {:induction false} ExampleWhole(chunks: seq<string>)
    requires chunks == ["x\nab", "c", "\n"]
    ensures Split(Concat(chunks)) == ["x", "abc", ""]
  {
    assert chunks[..2] == ["x\nab", "c"] && chunks[..2][..1] == ["x\nab"];
    assert chunks[..2][..1][..0] == [];
    assert Concat(chunks) == "x\nabc\n" by {
      assert Concat(chunks[..2][..1][..0]) == "";
      assert Concat(chunks[..2][..1]) == "x\nab";
      assert Concat(chunks[..2]) == "x\nabc";
    }
    assert "x\nabc\n" == "x" + ([NL] + ("abc" + [NL]));
    SplitLine("abc");
    assert ([NL] + ("abc" + [NL]))[1..] == "abc" + [NL];
    assert Split([NL] + ("abc" + [NL])) == ["", "abc", ""];
    SplitPrefix("x", [NL] + ("abc" + [NL]));
    assert "x" + "" == "x";
  }

  /** Three chunks "x\nab", "c" and "\n": the unsplit feed's lines are "x"
      and "abc", but the handler hands on "x" and "c": the fragment "ab" is
      dropped when the newline-free chunk "c" replaces it. */
  lemma {:induction false} FragmentDropped()
    ensures FeedAll("", ["x\nab", "c", "\n"]).lines == ["x", "c"]
    ensures Split(Concat(["x\nab", "c", "\n"])) == ["x", "abc", ""]
  {
    ExampleFeed(["x\nab", "c", "\n"]);
    ExampleWhole(["x\nab", "c", "\n"]);
  }
}
