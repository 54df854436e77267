/** The browser driver's line protocol: messages framed by newlines, read from chunks that
    may cut the stream anywhere. Characters are taken as already decoded. */
module Framing {
  import opened Common
  import opened Sequences

  // ------------------------------------------------------------ cutting lines

  /** What one more character does to the pieces: a newline opens an empty piece, anything
      else extends the last one. */
  function Extend(pieces: seq<string>, c: char): (r: seq<string>)
    requires |pieces| > 0
    ensures |r| > 0
  {
    if c == '\n' then pieces + [""]
    else pieces[..|pieces| - 1] + [pieces[|pieces| - 1] + [c]]
  }

  /** `split("\n")`. */
  function Split(s: string): (r: seq<string>)
    ensures |r| > 0
  {
    if s == "" then [""] else Extend(Split(s[..|s| - 1]), s[|s| - 1])
  }

  /** The pieces a newline ended. */
  function Terminated(s: string): seq<string> {
    Split(s)[..|Split(s)| - 1]
  }

  /** The piece no newline has ended yet. */
  function Tail(s: string): string {
    Split(s)[|Split(s)| - 1]
  }

  /** Pieces put back with a newline after each. */
  function Unlines(lines: seq<string>): string {
    if lines == [] then "" else Unlines(lines[..|lines| - 1]) + lines[|lines| - 1] + "\n"
  }

  function Concat(chunks: seq<string>): string {
    if chunks == [] then "" else Concat(chunks[..|chunks| - 1]) + chunks[|chunks| - 1]
  }

  ghost predicate NoNewline(s: string) {
    forall i | 0 <= i < |s| :: s[i] != '\n'
  }

  ghost predicate NoNewlines(lines: seq<string>) {
    forall i | 0 <= i < |lines| :: NoNewline(lines[i])
  }

  lemma {:induction false} SplitPieces(s: string)
    ensures NoNewlines(Split(s))
    ensures Unlines(Terminated(s)) + Tail(s) == s
  {
    if s != "" {
      var front, c := s[..|s| - 1], s[|s| - 1];
      SplitPieces(front);
      ExtendSpells(Split(front), c);
      assert s == front + [c];
    }
  }

  lemma ExtendSpells(pieces: seq<string>, c: char)
    requires |pieces| > 0 && NoNewlines(pieces)
    ensures NoNewlines(Extend(pieces, c))
    ensures var r := Extend(pieces, c);
            Unlines(r[..|r| - 1]) + r[|r| - 1] == Unlines(pieces[..|pieces| - 1]) + pieces[|pieces| - 1] + [c]
  {
    var r := Extend(pieces, c);
    if c == '\n' {
      assert r[..|r| - 1] == pieces;
    } else {
      assert r[..|r| - 1] == pieces[..|pieces| - 1];
    }
  }

  lemma {:induction false} SplitPlain(s: string)
    requires NoNewline(s)
    ensures Split(s) == [s]
  {
    if s != "" {
      SplitPlain(s[..|s| - 1]);
      assert s == s[..|s| - 1] + [s[|s| - 1]];
    }
  }

  lemma ExtendAfter(prefix: seq<string>, pieces: seq<string>, c: char)
    requires |pieces| > 0
    ensures Extend(prefix + pieces, c) == prefix + Extend(pieces, c)
  {
    assert (prefix + pieces)[..|prefix + pieces| - 1] == prefix + pieces[..|pieces| - 1];
  }

  lemma SplitNext(s: string, c: char)
    ensures Split(s + [c]) == Extend(Split(s), c)
  {
    assert (s + [c])[..|s|] == s;
  }

  lemma {:induction false} SplitOn(s: string, lines: seq<string>, tail: string, b: string)
    requires Split(s) == lines + [tail] && NoNewline(tail)
    ensures Split(s + b) == lines + Split(tail + b)
  {
    if b == "" {
      SplitPlain(tail);
      assert s + b == s && tail + b == tail;
    } else {
      var front, c := b[..|b| - 1], b[|b| - 1];
      assert b == front + [c];
      SplitOn(s, lines, tail, front);
      OneMore(s, lines, tail, front, c);
    }
  }

  lemma OneMore(s: string, lines: seq<string>, tail: string, front: string, c: char)
    requires Split(s + front) == lines + Split(tail + front)
    ensures Split(s + (front + [c])) == lines + Split(tail + (front + [c]))
  {
    assert s + (front + [c]) == s + front + [c] && tail + (front + [c]) == tail + front + [c];
    SplitNext(s + front, c);
    SplitNext(tail + front, c);
    ExtendAfter(lines, Split(tail + front), c);
  }

  /** Only the unterminated tail of what came before matters to what comes next. */
  lemma SplitAppend(a: string, b: string)
    ensures Split(a + b) == Terminated(a) + Split(Tail(a) + b)
  {
    SplitPieces(a);
    SplitOn(a, Terminated(a), Tail(a), b);
  }

  /** Cutting at newlines has one answer: whoever presents newline-free lines and a
      newline-free tail that spell the stream presents these. */
  lemma {:induction false} CutIsUnique(lines: seq<string>, tail: string)
    requires NoNewlines(lines) && NoNewline(tail)
    ensures Terminated(Unlines(lines) + tail) == lines && Tail(Unlines(lines) + tail) == tail
  {
    if lines == [] {
      SplitPlain(tail);
      assert Unlines(lines) + tail == tail;
    } else {
      var front, line := lines[..|lines| - 1], lines[|lines| - 1];
      CutIsUnique(front, line);
      var s := Unlines(front) + line;
      assert Unlines(lines) == s + "\n" && (s + "\n")[..|s|] == s;
      assert Split(s + "\n") == lines + [""];
      SplitAppend(s + "\n", tail);
      SplitPlain(tail);
      assert "" + tail == tail;
    }
  }

  // ---------------------------------------------------------- reading messages

  /** Whitespace as `trim` knows it. */
  predicate IsSpace(c: char) {
    || c in "\t\n\r \U{0B}\U{0C}\U{A0}\U{1680}\U{2028}\U{2029}\U{202F}\U{205F}\U{3000}\U{FEFF}"
    || '\U{2000}' <= c <= '\U{200A}'
  }

  lemma SpaceIs(c: char)
    ensures var n := c as int;
            IsSpace(c) <==>
            || 9 <= n <= 13
            || n in {0x20, 0xA0, 0x1680, 0x2028, 0x2029, 0x202F, 0x205F, 0x3000, 0xFEFF}
            || 0x2000 <= n <= 0x200A
  {
  }

  /** `line.trim().length === 0`. */
  predicate Blank(line: string) {
    forall i | 0 <= i < |line| :: IsSpace(line[i])
  }

  /** A line is passed over exactly when it holds nothing but the white space of ECMAScript. */
  lemma BlankIff(line: string)
    ensures Blank(line) <==>
            forall c | c in line ::
              || 9 <= c as int <= 13
              || c as int in {0x20, 0xA0, 0x1680, 0x2028, 0x2029, 0x202F, 0x205F, 0x3000, 0xFEFF}
              || 0x2000 <= c as int <= 0x200A
  {
    forall c: char { SpaceIs(c); }
    assert forall i | 0 <= i < |line| :: line[i] in line;
    if forall c | c in line :: IsSpace(c) {
      assert forall i | 0 <= i < |line| :: IsSpace(line[i]);
    }
  }

  function IsWritten(): string -> bool {
    (line: string) => !Blank(line)
  }

  /** Messages yielded, and whether the reader is still alive: the first line that does not
      parse throws and ends it. */
  datatype Reading<M> = Reading(messages: seq<M>, alive: bool)

  function ParseLines<M>(parse: string -> Option<M>, lines: seq<string>): Reading<M> {
    if lines == [] then Reading([], true)
    else
      var before := ParseLines(parse, lines[..|lines| - 1]);
      if !before.alive then before
      else
        match parse(lines[|lines| - 1])
        case Some(m) => Reading(before.messages + [m], true)
        case None => Reading(before.messages, false)
  }

  function ReadLines<M>(parse: string -> Option<M>, lines: seq<string>): Reading<M> {
    ParseLines(parse, Filter(IsWritten(), lines))
  }

  /** What a stream of characters means, whatever its chunks. */
  function Meaning<M>(parse: string -> Option<M>, stream: string): Reading<M> {
    ReadLines(parse, Terminated(stream))
  }

  /** What one more line does to a live reader. */
  lemma ReadNext<M>(parse: string -> Option<M>, lines: seq<string>, line: string)
    requires ReadLines(parse, lines).alive
    ensures var before := ReadLines(parse, lines).messages;
            ReadLines(parse, lines + [line]) ==
            if Blank(line) then Reading(before, true)
            else if parse(line).None? then Reading(before, false)
            else Reading(before + [parse(line).value], true)
  {
    assert (lines + [line])[..|lines|] == lines;
    var kept := Filter(IsWritten(), lines);
    assert (kept + [line])[..|kept|] == kept && kept + [] == kept;
  }

  lemma DeadLines<M>(parse: string -> Option<M>, a: seq<string>, b: seq<string>)
    requires !ReadLines(parse, a).alive
    ensures ReadLines(parse, a + b) == ReadLines(parse, a)
  {
    FilterAppend(IsWritten(), a, b);
    ParseGrows(parse, Filter(IsWritten(), a), Filter(IsWritten(), b));
  }

  /** `readMessages`: whatever the chunks, exactly the parses of the non-blank lines of the
      whole stream, in order, up to the first line that does not parse. */
  method ReadMessages<M>(chunks: seq<string>, parse: string -> Option<M>) returns (messages: seq<M>, alive: bool)
    ensures Reading(messages, alive) == Meaning(parse, Concat(chunks))
  {
    messages, alive := [], true;
    var buffer := "";
    ghost var stream := "";
    for i := 0 to |chunks|
      invariant alive && stream == Concat(chunks[..i]) && buffer == Tail(stream)
      invariant Reading(messages, alive) == Meaning(parse, stream)
    {
      assert chunks[..i + 1][..i] == chunks[..i];
      SplitAppend(stream, chunks[i]);
      var pieces := Split(buffer + chunks[i]);
      var lines := pieces[..|pieces| - 1];
      assert Terminated(stream + chunks[i]) == Terminated(stream) + lines;
      buffer := pieces[|pieces| - 1];
      messages, alive := YieldLines(lines, parse, messages, Terminated(stream));
      stream := stream + chunks[i];
      if !alive {
        DeadForGood(parse, chunks, i + 1);
        return;
      }
    }
    assert chunks[..|chunks|] == chunks;
  }

  /** The inner loop over the lines one chunk completed. */
  method YieldLines<M>(lines: seq<string>, parse: string -> Option<M>, before: seq<M>, ghost earlier: seq<string>)
    returns (messages: seq<M>, alive: bool)
    requires Reading(before, true) == ReadLines(parse, earlier)
    ensures Reading(messages, alive) == ReadLines(parse, earlier + lines)
  {
    messages, alive := before, true;
    assert earlier + lines[..0] == earlier;
    for j := 0 to |lines|
      invariant alive && Reading(messages, alive) == ReadLines(parse, earlier + lines[..j])
    {
      LineByLine(parse, earlier, lines, j);
      if !Blank(lines[j]) {
        match parse(lines[j])
        case Some(m) =>
          messages := messages + [m];
        case None =>
          alive := false;
          return;
      }
    }
    assert lines[..|lines|] == lines;
  }

  lemma LineByLine<M>(parse: string -> Option<M>, earlier: seq<string>, lines: seq<string>, j: nat)
    requires j < |lines| && ReadLines(parse, earlier + lines[..j]).alive
    ensures var before, after := ReadLines(parse, earlier + lines[..j]), ReadLines(parse, earlier + lines[..j + 1]);
            && (Blank(lines[j]) ==> after == before)
            && (!Blank(lines[j]) && parse(lines[j]).Some? ==>
                  after == Reading(before.messages + [parse(lines[j]).value], true))
            && (!Blank(lines[j]) && parse(lines[j]).None? ==>
                  ReadLines(parse, earlier + lines) == Reading(before.messages, false))
  {
    OneLineFurther(earlier, lines, j);
    var before, done := earlier + lines[..j], earlier + lines[..j + 1];
    ReadNext(parse, before, lines[j]);
    if !ReadLines(parse, done).alive {
      DeadLines(parse, done, lines[j + 1..]);
    }
  }

  lemma OneLineFurther(earlier: seq<string>, lines: seq<string>, j: nat)
    requires j < |lines|
    ensures earlier + lines[..j + 1] == earlier + lines[..j] + [lines[j]]
    ensures earlier + lines == earlier + lines[..j + 1] + lines[j + 1..]
  {
  }

  lemma {:induction false} ConcatSplit(chunks: seq<string>, k: nat)
    requires k <= |chunks|
    ensures Concat(chunks) == Concat(chunks[..k]) + Concat(chunks[k..])
  {
    if k == |chunks| {
      assert chunks[..k] == chunks;
    } else {
      var front := chunks[..|chunks| - 1];
      ConcatSplit(front, k);
      assert front[..k] == chunks[..k] && chunks[k..][..|chunks| - 1 - k] == front[k..];
    }
  }

  lemma DeadForGood<M>(parse: string -> Option<M>, chunks: seq<string>, k: nat)
    requires k <= |chunks| && !Meaning(parse, Concat(chunks[..k])).alive
    ensures Meaning(parse, Concat(chunks)) == Meaning(parse, Concat(chunks[..k]))
  {
    ConcatSplit(chunks, k);
    MoreLines(Concat(chunks[..k]), Concat(chunks[k..]));
    var a, b := Concat(chunks[..k]), Concat(chunks[k..]);
    ParseGrows(parse, Filter(IsWritten(), Terminated(a)), Filter(IsWritten(), Terminated(Tail(a) + b)));
  }

  lemma MoreLines(a: string, b: string)
    ensures Filter(IsWritten(), Terminated(a + b)) ==
            Filter(IsWritten(), Terminated(a)) + Filter(IsWritten(), Terminated(Tail(a) + b))
  {
    SplitAppend(a, b);
    assert Terminated(a + b) == Terminated(a) + Terminated(Tail(a) + b);
    FilterAppend(IsWritten(), Terminated(a), Terminated(Tail(a) + b));
  }

  lemma {:induction false} ParseGrows<M>(parse: string -> Option<M>, a: seq<string>, b: seq<string>)
    ensures ParseLines(parse, a).messages <= ParseLines(parse, a + b).messages
    ensures !ParseLines(parse, a).alive ==> ParseLines(parse, a + b) == ParseLines(parse, a)
  {
    if b == [] {
      assert a + b == a;
    } else {
      ParseGrows(parse, a, b[..|b| - 1]);
      assert (a + b)[..|a + b| - 1] == a + b[..|b| - 1];
    }
  }

  /** Chunk independence: two ways of cutting one stream give the same messages, and what a
      partial stream has already given is never taken back or changed. */
  lemma ChunkIndependence<M>(parse: string -> Option<M>, chunks: seq<string>, others: seq<string>, k: nat)
    requires Concat(chunks) == Concat(others) && k <= |chunks|
    ensures Meaning(parse, Concat(chunks[..k])).messages <= Meaning(parse, Concat(others)).messages
    ensures !Meaning(parse, Concat(chunks[..k])).alive ==>
              Meaning(parse, Concat(others)) == Meaning(parse, Concat(chunks[..k]))
  {
    var a, b := Concat(chunks[..k]), Concat(chunks[k..]);
    ConcatSplit(chunks, k);
    MoreLines(a, b);
    ParseGrows(parse, Filter(IsWritten(), Terminated(a)), Filter(IsWritten(), Terminated(Tail(a) + b)));
  }

  // ---------------------------------------------------------------- round trip

  /** A writer the reader understands: one non-blank line a message, and it parses back. */
  ghost predicate Writes<M(!new)>(render: M -> string, parse: string -> Option<M>) {
    forall m :: NoNewline(render(m)) && !Blank(render(m)) && parse(render(m)) == Some(m)
  }

  function Rendered<M>(render: M -> string, messages: seq<M>): (r: seq<string>)
    ensures |r| == |messages| && forall i | 0 <= i < |messages| :: r[i] == render(messages[i])
  {
    seq(|messages|, i requires 0 <= i < |messages| => render(messages[i]))
  }

  lemma {:induction false} ParseRendered<M(!new)>(render: M -> string, parse: string -> Option<M>, messages: seq<M>)
    requires Writes(render, parse)
    ensures ReadLines(parse, Rendered(render, messages)) == Reading(messages, true)
  {
    if messages != [] {
      var front, last := messages[..|messages| - 1], messages[|messages| - 1];
      ParseRendered(render, parse, front);
      assert Rendered(render, messages) == Rendered(render, front) + [render(last)];
      ReadNext(parse, Rendered(render, front), render(last));
    }
  }

  /** What was written line by line is read back, however the pipe cuts it, and a half-written
      last line is withheld. */
  lemma RoundTrip<M(!new)>(render: M -> string, parse: string -> Option<M>, messages: seq<M>, half: string,
                           chunks: seq<string>)
    requires Writes(render, parse) && NoNewline(half)
    requires Concat(chunks) == Unlines(Rendered(render, messages)) + half
    ensures Meaning(parse, Concat(chunks)) == Reading(messages, true)
    ensures Tail(Concat(chunks)) == half
  {
    CutIsUnique(Rendered(render, messages), half);
    ParseRendered(render, parse, messages);
  }
}
