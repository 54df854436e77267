/** Slack's inline markup as the channel page shows it: links reduced to their labels, then
    emphasis cut into spans, then the spans keyed by where they start. */
module InlineSpans {
  import opened Common

  datatype Span = Span(text: Utf16, strong: bool)

  const LESS: CodeUnit := 60
  const BAR: CodeUnit := 124
  const GREATER: CodeUnit := 62
  const STAR: CodeUnit := 42
  const NEWLINE: CodeUnit := 10

  /** The markup in characters. */
  lemma MarksAre()
    ensures Units("<|>*\n") == [LESS, BAR, GREATER, STAR, NEWLINE]
  {
  }

  // -------------------------------------------------------------------- links

  datatype Link = Link(start: nat, bar: nat, end: nat)

  /** `<([^|>]+)\|([^>]+)>` matches from `start` to `end`, with its bar at `bar`. */
  ghost predicate IsLink(s: Utf16, m: Link) {
    && m.start + 1 < m.bar && m.bar + 1 < m.end < |s|
    && s[m.start] == LESS && s[m.bar] == BAR && s[m.end] == GREATER
    && (forall i | m.start < i < m.bar :: s[i] != BAR && s[i] != GREATER)
    && (forall i | m.bar < i < m.end :: s[i] != GREATER)
  }

  /** At most one match starts at each place, so "leftmost" settles the match. */
  lemma LinkIsDetermined(s: Utf16, m: Link, n: Link)
    requires IsLink(s, m) && IsLink(s, n) && m.start == n.start
    ensures m == n
  {
    assert s[m.bar] == s[n.bar] == BAR && s[m.end] == s[n.end] == GREATER;
  }

  /** The next place at or after `from` holding one of two characters, or the end. */
  function Next(s: Utf16, from: nat, c: CodeUnit, d: CodeUnit): (r: nat)
    requires from <= |s|
    ensures from <= r <= |s| && (r < |s| ==> s[r] == c || s[r] == d)
    ensures forall i | from <= i < r :: s[i] != c && s[i] != d
    decreases |s| - from
  {
    if from == |s| || s[from] == c || s[from] == d then from else Next(s, from + 1, c, d)
  }

  lemma {:induction false} NextIs(s: Utf16, from: nat, c: CodeUnit, d: CodeUnit, at: nat)
    requires from <= at < |s| && (s[at] == c || s[at] == d)
    requires forall i | from <= i < at :: s[i] != c && s[i] != d
    ensures Next(s, from, c, d) == at
    decreases at - from
  {
    if from < at { NextIs(s, from + 1, c, d, at); }
  }

  function LinkAt(s: Utf16, i: nat): (r: Option<Link>)
    requires i < |s|
    ensures r.Some? ==> r.value.start == i && IsLink(s, r.value)
  {
    if s[i] != LESS then None
    else
      var bar := Next(s, i + 1, BAR, GREATER);
      if bar == |s| || s[bar] != BAR || bar == i + 1 then None
      else
        var end := Next(s, bar + 1, GREATER, GREATER);
        if end == |s| || end == bar + 1 then None else Some(Link(i, bar, end))
  }

  /** A match is never missed. */
  lemma LinkAtFinds(s: Utf16, m: Link)
    requires IsLink(s, m)
    ensures LinkAt(s, m.start) == Some(m)
  {
    NextIs(s, m.start + 1, BAR, GREATER, m.bar);
    NextIs(s, m.bar + 1, GREATER, GREATER, m.end);
  }

  /** The leftmost match at or after `from`. */
  function FindLink(s: Utf16, from: nat): (r: Option<Link>)
    requires from <= |s|
    ensures r.Some? ==> from <= r.value.start && IsLink(s, r.value)
    decreases |s| - from
  {
    if from == |s| then None
    else if LinkAt(s, from).Some? then LinkAt(s, from)
    else FindLink(s, from + 1)
  }

  lemma {:induction false} FindLinkIsLeftmost(s: Utf16, from: nat, m: Link)
    requires from <= m.start && IsLink(s, m)
    ensures FindLink(s, from).Some? && FindLink(s, from).value.start <= m.start
    decreases |s| - from
  {
    LinkAtFinds(s, m);
    if m.start != from && LinkAt(s, from).None? {
      FindLinkIsLeftmost(s, from + 1, m);
    }
  }

  /** `replaceAll(MRKDWN_LINK, "$2")` from `from` on. */
  function Flatten(s: Utf16, from: nat): (r: Utf16)
    requires from <= |s|
    ensures |r| <= |s| - from
    decreases |s| - from
  {
    match FindLink(s, from)
    case None => s[from..]
    case Some(m) => s[from..m.start] + s[m.bar + 1..m.end] + Flatten(s, m.end + 1)
  }

  ghost predicate HasLink(s: Utf16) {
    exists m: Link :: IsLink(s, m)
  }

  /** Text without links is left alone, and every text with one gets shorter. */
  lemma FlattenedIff(s: Utf16)
    ensures Flatten(s, 0) == s <==> !HasLink(s)
  {
    if m: Link :| IsLink(s, m) {
      FindLinkIsLeftmost(s, 0, m);
    }
  }

  // ----------------------------------------------------- links that are left

  /** A link starts inside the label once what follows the match is flattened behind it. */
  ghost predicate OpensLink(shown: Utf16, rest: Utf16) {
    exists m: Link :: m.start < |shown| && IsLink(shown + rest, m)
  }

  function Shifted(m: Link, offset: nat): Link {
    Link(m.start + offset, m.bar + offset, m.end + offset)
  }

  /** A link of `s[from..to]` is a link of `s`. */
  lemma LinkInSlice(s: Utf16, from: nat, to: nat, m: Link)
    requires from <= to <= |s| && IsLink(s[from..to], m)
    ensures IsLink(s, Shifted(m, from))
  {
    var part, n := s[from..to], Shifted(m, from);
    assert forall i | 0 <= i < |part| :: part[i] == s[i + from];
    forall i | n.start < i < n.bar ensures s[i] != BAR && s[i] != GREATER { assert part[i - from] == s[i]; }
    forall i | n.bar < i < n.end ensures s[i] != GREATER { assert part[i - from] == s[i]; }
  }

  /** What stands ahead of a text starts no link in it and ends none. */
  lemma LinkBehind(pre: Utf16, s: Utf16, m: Link)
    ensures IsLink(s, m) <==> IsLink(pre + s, Shifted(m, |pre|))
  {
    var whole, n := pre + s, Shifted(m, |pre|);
    assert whole[|pre|..|whole|] == s;
    if IsLink(s, m) { LinkInSlice(whole, |pre|, |whole|, m); }
    if IsLink(whole, n) {
      assert forall i | |pre| <= i < |whole| :: whole[i] == s[i - |pre|];
      forall i | m.start < i < m.bar ensures s[i] != BAR && s[i] != GREATER { assert whole[i + |pre|] == s[i]; }
      forall i | m.bar < i < m.end ensures s[i] != GREATER { assert whole[i + |pre|] == s[i]; }
    }
  }

  /** A `<` ahead of the leftmost match opened no link, and opens none whatever replaces the
      match: what stops it stands ahead of the match too, or the match would have begun there. */
  lemma NothingOpensAhead(s: Utf16, from: nat, m: Link, rest: Utf16, n: Link)
    requires from <= |s| && FindLink(s, from) == Some(m)
    requires n.start < m.start - from
    ensures !IsLink(s[from..m.start] + rest, n)
  {
    var ahead := s[from..m.start];
    var t := ahead + rest;
    if IsLink(t, n) {
      assert forall i | 0 <= i < |ahead| :: t[i] == s[i + from];
      var p := from + n.start;
      var bar := if from + n.bar < m.start then from + n.bar else m.bar;
      var end := if from + n.bar < m.start && from + n.end < m.start then from + n.end else m.end;
      ReachesMatch(s, from, m, t, n, Link(p, bar, end));
      FindLinkIsLeftmost(s, from, Link(p, bar, end));
      assert false;
    }
  }

  /** The link of `t`, read in `s`: up to the match it is the same text, and the match has the
      bar and the end it lacks. */
  lemma ReachesMatch(s: Utf16, from: nat, m: Link, t: Utf16, n: Link, l: Link)
    requires from <= m.start && IsLink(s, m) && IsLink(t, n) && n.start < m.start - from <= |t|
    requires forall i | 0 <= i < m.start - from :: t[i] == s[i + from]
    requires l.start == from + n.start
    requires l.bar == if from + n.bar < m.start then from + n.bar else m.bar
    requires l.end == if from + n.bar < m.start && from + n.end < m.start then from + n.end else m.end
    ensures IsLink(s, l)
  {
    forall i | l.start < i < l.bar ensures s[i] != BAR && s[i] != GREATER {
      if i < m.start { assert t[i - from] == s[i]; }
    }
    forall i | l.bar < i < l.end ensures s[i] != GREATER {
      if i < m.start { assert t[i - from] == s[i]; }
    }
    assert t[n.start] == s[l.start];
    if from + n.bar < m.start { assert t[n.bar] == s[l.bar]; }
    if from + n.bar < m.start && from + n.end < m.start { assert t[n.end] == s[l.end]; }
  }

  /** A link of two texts put together starts in the first or is the second's own. */
  lemma LinkInTwo(a: Utf16, b: Utf16)
    ensures HasLink(a + b) <==> OpensLink(a, b) || HasLink(b)
  {
    if n: Link :| IsLink(a + b, n) {
      if n.start >= |a| {
        var m := Link(n.start - |a|, n.bar - |a|, n.end - |a|);
        assert n == Shifted(m, |a|);
        LinkBehind(a, b, m);
      }
    }
    if m: Link :| IsLink(b, m) {
      LinkBehind(a, b, m);
    }
  }

  /** The text ahead of a match, and the match's label. */
  datatype Piece = Piece(ahead: Utf16, shown: Utf16)

  /** A text cut at its matches. */
  datatype Pieces = Tail(text: Utf16) | Then(piece: Piece, rest: Pieces)

  function CutAtLinks(s: Utf16, from: nat): Pieces
    requires from <= |s|
    decreases |s| - from
  {
    match FindLink(s, from)
    case None => Tail(s[from..])
    case Some(m) => Then(Piece(s[from..m.start], s[m.bar + 1..m.end]), CutAtLinks(s, m.end + 1))
  }

  function Spelled(p: Pieces): Utf16 {
    match p
    case Tail(text) => text
    case Then(piece, rest) => piece.ahead + piece.shown + Spelled(rest)
  }

  /** Some label opens a link once all that follows it is flattened behind it. */
  ghost predicate LabelOpens(p: Pieces) {
    match p
    case Tail(_) => false
    case Then(piece, rest) => OpensLink(piece.shown, Spelled(rest)) || LabelOpens(rest)
  }

  function Labels(p: Pieces): seq<Utf16> {
    match p
    case Tail(_) => []
    case Then(piece, rest) => [piece.shown] + Labels(rest)
  }

  predicate LabelHoldsLess(p: Pieces) {
    exists i | 0 <= i < |Labels(p)| :: LESS in Labels(p)[i]
  }

  /** Text between the matches opens no link, whatever follows it. */
  ghost predicate QuietAhead(ahead: Utf16) {
    forall rest: Utf16 :: !OpensLink(ahead, rest)
  }

  ghost predicate Quiet(p: Pieces) {
    match p
    case Tail(text) => !HasLink(text)
    case Then(piece, rest) => QuietAhead(piece.ahead) && Quiet(rest)
  }

  lemma AheadIsQuiet(s: Utf16, from: nat, m: Link)
    requires from <= |s| && FindLink(s, from) == Some(m)
    ensures QuietAhead(s[from..m.start])
  {
    forall rest: Utf16 ensures !OpensLink(s[from..m.start], rest) {
      forall n: Link | n.start < m.start - from ensures !IsLink(s[from..m.start] + rest, n) {
        NothingOpensAhead(s, from, m, rest, n);
      }
    }
  }

  lemma TailIsQuiet(s: Utf16, from: nat)
    requires from <= |s| && FindLink(s, from).None?
    ensures !HasLink(s[from..])
  {
    if m: Link :| IsLink(s[from..], m) {
      LinkInSlice(s, from, |s|, m);
      FindLinkIsLeftmost(s, from, Shifted(m, from));
    }
  }

  /** The pieces spell the flattened text. */
  lemma {:induction false} CutSpells(s: Utf16, from: nat)
    requires from <= |s|
    ensures Spelled(CutAtLinks(s, from)) == Flatten(s, from)
    decreases |s| - from
  {
    var m := FindLink(s, from);
    if m.Some? { CutSpells(s, m.value.end + 1); }
  }

  /** Only the labels of the pieces, cut as they were, can open a link. */
  lemma {:induction false} CutIsQuiet(s: Utf16, from: nat, p: Pieces)
    requires from <= |s| && p == CutAtLinks(s, from)
    ensures Quiet(p)
    decreases p
  {
    match p
    case Tail(text) => TailIsQuiet(s, from);
    case Then(piece, rest) =>
      var m := FindLink(s, from).value;
      CutIsQuiet(s, m.end + 1, rest);
      AheadIsQuiet(s, from, m);
  }

  lemma {:induction false} QuietLeavesIff(p: Pieces)
    requires Quiet(p)
    ensures HasLink(Spelled(p)) <==> LabelOpens(p)
  {
    if p.Then? {
      var rest := Spelled(p.rest);
      QuietLeavesIff(p.rest);
      LinkInTwo(p.piece.ahead, p.piece.shown + rest);
      LinkInTwo(p.piece.shown, rest);
      assert Spelled(p) == p.piece.ahead + (p.piece.shown + rest);
    }
  }

  lemma OpensWithLess(shown: Utf16, rest: Utf16)
    requires OpensLink(shown, rest)
    ensures LESS in shown
  {
    var n: Link :| n.start < |shown| && IsLink(shown + rest, n);
    assert shown[n.start] == (shown + rest)[n.start];
  }

  lemma {:induction false} OpeningNeedsLess(p: Pieces)
    requires LabelOpens(p)
    ensures LabelHoldsLess(p)
  {
    if OpensLink(p.piece.shown, Spelled(p.rest)) {
      OpensWithLess(p.piece.shown, Spelled(p.rest));
      assert LESS in Labels(p)[0];
    } else {
      OpeningNeedsLess(p.rest);
      var i :| 0 <= i < |Labels(p.rest)| && LESS in Labels(p.rest)[i];
      assert Labels(p)[i + 1] == Labels(p.rest)[i];
    }
  }

  /** One pass leaves a link exactly when some match's label opens one, so never when no label
      holds a `<`. */
  lemma LeavesLinkIff(s: Utf16)
    ensures HasLink(Flatten(s, 0)) <==> LabelOpens(CutAtLinks(s, 0))
    ensures !LabelHoldsLess(CutAtLinks(s, 0)) ==> !HasLink(Flatten(s, 0))
  {
    CutSpells(s, 0);
    CutIsQuiet(s, 0, CutAtLinks(s, 0));
    QuietLeavesIff(CutAtLinks(s, 0));
    if LabelOpens(CutAtLinks(s, 0)) { OpeningNeedsLess(CutAtLinks(s, 0)); }
  }

  /** And flattening again changes nothing exactly when no label opens a link. */
  lemma FlattensOnceIff(s: Utf16)
    ensures Flatten(Flatten(s, 0), 0) == Flatten(s, 0) <==> !LabelOpens(CutAtLinks(s, 0))
  {
    FlattenedIff(Flatten(s, 0));
    LeavesLinkIff(s);
  }

  /** It does happen: `<a|<b|c>>` becomes `<b|c>`. */
  lemma FlattenMayLeaveALink()
    ensures Flatten([LESS, 97, BAR, LESS, 98, BAR, 99, GREATER, GREATER], 0) == [LESS, 98, BAR, 99, GREATER]
    ensures IsLink([LESS, 98, BAR, 99, GREATER], Link(0, 2, 4))
  {
    var s := [LESS, 97, BAR, LESS, 98, BAR, 99, GREATER, GREATER];
    assert IsLink(s, Link(0, 2, 7));
    LinkAtFinds(s, Link(0, 2, 7));
    assert FindLink(s, 8) == None;
  }

  // ----------------------------------------------------------------- emphasis

  /** `\*([^*\n]+)\*` matches from `i` to `k`. */
  ghost predicate IsBold(s: Utf16, i: nat, k: nat) {
    && i + 1 < k < |s| && s[i] == STAR && s[k] == STAR
    && forall j | i < j < k :: s[j] != STAR && s[j] != NEWLINE
  }

  ghost predicate NoBoldIn(s: Utf16, lo: nat, hi: nat) {
    forall i, k | lo <= i < hi :: !IsBold(s, i, k)
  }

  lemma BoldIsDetermined(s: Utf16, i: nat, k: nat, l: nat)
    requires IsBold(s, i, k) && IsBold(s, i, l)
    ensures k == l
  {
    assert s[k] == s[l] == STAR;
  }

  datatype Bold = Bold(start: nat, end: nat)

  function BoldAt(s: Utf16, i: nat): (r: Option<Bold>)
    requires i < |s|
    ensures r.Some? ==> r.value.start == i && IsBold(s, i, r.value.end)
    ensures r.None? ==> forall k :: !IsBold(s, i, k)
  {
    if s[i] != STAR then None
    else
      var k := Next(s, i + 1, STAR, NEWLINE);
      if k == |s| || s[k] != STAR || k == i + 1 then None else Some(Bold(i, k))
  }

  /** The leftmost match at or after `from`, as `matchAll` yields them. */
  function FindBold(s: Utf16, from: nat): (r: Option<Bold>)
    requires from <= |s|
    ensures r.Some? ==>
              from <= r.value.start && IsBold(s, r.value.start, r.value.end) && NoBoldIn(s, from, r.value.start)
    ensures r.None? ==> NoBoldIn(s, from, |s|)
    decreases |s| - from
  {
    if from == |s| then None
    else if BoldAt(s, from).Some? then BoldAt(s, from)
    else FindBold(s, from + 1)
  }

  /** Where a span of the raw text ends, asterisks included. */
  function EndOf(from: nat, span: Span): nat {
    from + |span.text| + if span.strong then 2 else 0
  }

  /** A strong span is a match; a plain span is non-empty and no match begins in it. */
  ghost predicate Cuts(s: Utf16, from: nat, span: Span)
    requires EndOf(from, span) <= |s|
  {
    var end := EndOf(from, span);
    if span.strong then IsBold(s, from, end - 1) && span.text == s[from + 1..end - 1]
    else from < end && NoBoldIn(s, from, end) && span.text == s[from..end]
  }

  /** The spans account for `s` between two places, and a plain span is followed by a strong
      one unless it ends the text. */
  ghost predicate Explains(s: Utf16, from: nat, to: nat, spans: seq<Span>)
    requires from <= to <= |s|
    decreases |spans|
  {
    if spans == [] then from == to
    else
      && EndOf(from, spans[0]) <= to && Cuts(s, from, spans[0])
      && (!spans[0].strong ==> if |spans| > 1 then spans[1].strong else to == |s|)
      && Explains(s, EndOf(from, spans[0]), to, spans[1..])
  }

  /** Two accounts that meet make one. */
  lemma {:induction false} Joined(s: Utf16, from: nat, middle: nat, to: nat, a: seq<Span>, b: seq<Span>)
    requires from <= middle <= to <= |s| && Explains(s, from, middle, a) && Explains(s, middle, to, b)
    ensures Explains(s, from, to, a + b)
    decreases |a|
  {
    if a == [] {
      assert a + b == b;
    } else {
      Joined(s, EndOf(from, a[0]), middle, to, a[1..], b);
      assert (a + b)[1..] == a[1..] + b;
    }
  }

  /** `inlineSpans`: the spans account for the flattened text; empty text is one empty plain
      span. */
  method InlineSpans(text: Utf16) returns (spans: seq<Span>)
    ensures var flattened := Flatten(text, 0);
            if flattened == [] then spans == [Span([], false)] else Explains(flattened, 0, |flattened|, spans)
  {
    var flattened := Flatten(text, 0);
    spans := [];
    var at := 0;
    var next := FindBold(flattened, at);
    while next.Some?
      invariant at <= |flattened| && next == FindBold(flattened, at)
      invariant Explains(flattened, 0, at, spans)
      decreases |flattened| - at
    {
      var m := next.value;
      OneMatch(flattened, at, m, spans);
      if m.start > at {
        spans := spans + [Span(flattened[at..m.start], false)];
      }
      spans := spans + [Span(flattened[m.start + 1..m.end], true)];
      at := m.end + 1;
      next := FindBold(flattened, at);
    }
    LastPlain(flattened, at, spans);
    if at < |flattened| {
      spans := spans + [Span(flattened[at..], false)];
    }
    if |spans| == 0 { spans := [Span(flattened, false)]; }
  }

  /** What no match follows is the last plain span. */
  lemma LastPlain(s: Utf16, at: nat, spans: seq<Span>)
    requires at <= |s| && Explains(s, 0, at, spans) && NoBoldIn(s, at, |s|)
    ensures Explains(s, 0, |s|, if at < |s| then spans + [Span(s[at..], false)] else spans)
  {
    if at < |s| {
      var rest := [Span(s[at..], false)];
      assert rest[1..] == [];
      assert Explains(s, at, |s|, rest);
      Joined(s, 0, at, |s|, spans, rest);
    }
  }

  /** One turn of the loop: the text before the match, if any, then the match. */
  lemma OneMatch(s: Utf16, at: nat, m: Bold, spans: seq<Span>)
    requires at <= m.start && IsBold(s, m.start, m.end) && NoBoldIn(s, at, m.start)
    requires Explains(s, 0, at, spans)
    ensures var plain := if m.start > at then spans + [Span(s[at..m.start], false)] else spans;
            Explains(s, 0, m.end + 1, plain + [Span(s[m.start + 1..m.end], true)])
  {
    var strong := [Span(s[m.start + 1..m.end], true)];
    var added := (if m.start > at then [Span(s[at..m.start], false)] else []) + strong;
    assert strong[1..] == [] && added[1..] == if m.start > at then strong else [];
    assert Explains(s, m.start, m.end + 1, strong);
    assert Explains(s, at, m.end + 1, added);
    Joined(s, 0, at, m.end + 1, spans, added);
    assert spans + added == (if m.start > at then spans + [Span(s[at..m.start], false)] else spans) + strong;
  }

  /** Leftmost scanning is the only reading: two span lists that account for one text agree. */
  lemma {:induction false} SpansAreUnique(s: Utf16, from: nat, a: seq<Span>, b: seq<Span>)
    requires from <= |s| && Explains(s, from, |s|, a) && Explains(s, from, |s|, b)
    ensures a == b
    decreases |a|
  {
    if a != [] && b != [] {
      SameHead(s, from, a, b);
      SpansAreUnique(s, EndOf(from, a[0]), a[1..], b[1..]);
      assert a == [a[0]] + a[1..] && b == [b[0]] + b[1..];
    }
  }

  lemma SameHead(s: Utf16, from: nat, a: seq<Span>, b: seq<Span>)
    requires from <= |s| && a != [] && b != []
    requires Explains(s, from, |s|, a) && Explains(s, from, |s|, b)
    ensures a[0] == b[0]
  {
    var i, j := EndOf(from, a[0]), EndOf(from, b[0]);
    if a[0].strong && b[0].strong {
      BoldIsDetermined(s, from, i - 1, j - 1);
    } else if !a[0].strong && !b[0].strong {
      if i < |s| { PlainStops(s, from, a); }
      if j < |s| { PlainStops(s, from, b); }
    }
  }

  /** A plain span that stops short of the end stops where a match begins. */
  lemma PlainStops(s: Utf16, from: nat, a: seq<Span>)
    requires from <= |s| && a != [] && !a[0].strong && Explains(s, from, |s|, a)
    requires from + |a[0].text| < |s|
    ensures BoldAt(s, from + |a[0].text|).Some?
  {
    var i := from + |a[0].text|;
    assert Explains(s, i, |s|, a[1..]);
    assert IsBold(s, i, i + |a[1].text| + 1);
  }

  /** Asterisks put back around the strong spans. */
  function Markup(spans: seq<Span>): Utf16 {
    if spans == [] then [] else Marked(spans[0]) + Markup(spans[1..])
  }

  function Marked(span: Span): Utf16 {
    if span.strong then [STAR] + span.text + [STAR] else span.text
  }

  lemma MarkedIsRaw(s: Utf16, from: nat, span: Span)
    requires EndOf(from, span) <= |s| && Cuts(s, from, span)
    ensures Marked(span) == s[from..EndOf(from, span)]
  {
  }

  lemma SlicesMeet(s: Utf16, from: nat, middle: nat, to: nat)
    requires from <= middle <= to <= |s|
    ensures s[from..middle] + s[middle..to] == s[from..to]
  {
  }

  /** Round trip: the spans spell the flattened text. */
  lemma {:induction false} MarkupRestores(s: Utf16, from: nat, to: nat, spans: seq<Span>)
    requires from <= to <= |s| && Explains(s, from, to, spans)
    ensures Markup(spans) == s[from..to]
    decreases |spans|
  {
    if spans != [] {
      var end := EndOf(from, spans[0]);
      MarkupRestores(s, end, to, spans[1..]);
      MarkedIsRaw(s, from, spans[0]);
      SlicesMeet(s, from, end, to);
    }
  }

  /** A strong span is a non-empty run without asterisk or newline; a plain span is non-empty
      and holds no complete match. */
  ghost predicate WellCut(span: Span) {
    && span.text != []
    && (span.strong ==> forall i | 0 <= i < |span.text| :: span.text[i] != STAR && span.text[i] != NEWLINE)
    && (!span.strong ==> NoBoldIn(span.text, 0, |span.text|))
  }

  lemma {:induction false} SpansAreWellCut(s: Utf16, from: nat, to: nat, spans: seq<Span>, n: nat)
    requires from <= to <= |s| && Explains(s, from, to, spans) && n < |spans|
    ensures WellCut(spans[n])
    decreases |spans|
  {
    var end := EndOf(from, spans[0]);
    if n > 0 {
      SpansAreWellCut(s, end, to, spans[1..], n - 1);
    } else if spans[0].strong {
      assert forall i | 0 <= i < |spans[0].text| :: spans[0].text[i] == s[from + 1 + i];
    } else {
      forall i, k | 0 <= i < |spans[0].text| ensures !IsBold(spans[0].text, i, k) {
        if IsBold(spans[0].text, i, k) { InsideText(s, from, end, i, k); }
      }
    }
  }

  lemma InsideText(s: Utf16, from: nat, end: nat, i: nat, k: nat)
    requires from <= end <= |s| && IsBold(s[from..end], i, k)
    ensures IsBold(s, from + i, from + k)
  {
    forall j | from + i < j < from + k ensures s[j] != STAR && s[j] != NEWLINE {
      assert s[j] == s[from..end][j - from];
    }
  }

  // --------------------------------------------------------------------- keys

  datatype KeyedSpan = KeyedSpan(key: nat, text: Utf16, strong: bool)

  function Visible(spans: seq<Span>): Utf16 {
    if spans == [] then [] else Visible(spans[..|spans| - 1]) + spans[|spans| - 1].text
  }

  /** `keyed`: each span under the place its text starts in the visible line. */
  method Keyed(spans: seq<Span>) returns (out: seq<KeyedSpan>)
    ensures |out| == |spans|
    ensures forall i | 0 <= i < |spans| ::
              out[i] == KeyedSpan(|Visible(spans[..i])|, spans[i].text, spans[i].strong)
  {
    out := [];
    var at := 0;
    for n := 0 to |spans|
      invariant |out| == n && at == |Visible(spans[..n])|
      invariant forall i | 0 <= i < n :: out[i] == KeyedSpan(|Visible(spans[..i])|, spans[i].text, spans[i].strong)
    {
      out := out + [KeyedSpan(at, spans[n].text, spans[n].strong)];
      assert spans[..n + 1][..n] == spans[..n];
      at := at + |spans[n].text|;
    }
  }

  lemma {:induction false} VisibleGrows(spans: seq<Span>, i: nat, j: nat)
    requires i < j <= |spans|
    ensures |Visible(spans[..i])| + |spans[i].text| <= |Visible(spans[..j])|
  {
    assert spans[..j][..j - 1] == spans[..j - 1];
    if i < j - 1 {
      VisibleGrows(spans, i, j - 1);
    }
  }

  /** Two spans of one block never share a key, whatever the text. */
  lemma KeysIncrease(text: Utf16, spans: seq<Span>, i: nat, j: nat)
    requires var flattened := Flatten(text, 0);
             if flattened == [] then spans == [Span([], false)] else Explains(flattened, 0, |flattened|, spans)
    requires i < j < |spans|
    ensures |Visible(spans[..i])| < |Visible(spans[..j])|
  {
    SpansAreWellCut(Flatten(text, 0), 0, |Flatten(text, 0)|, spans, i);
    VisibleGrows(spans, i, j);
  }
}
