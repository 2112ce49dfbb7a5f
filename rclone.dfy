/** The progress-stream decoder and argument builder of rclone.go: the split
    function that cuts the subprocess's diagnostic stream at every carriage
    return or line feed, the loop that matches each line against the
    "Transferred:" pattern and pushes the numbers into the store, the unit
    parser `parseSize`, and the argument vector `Execute` launches. */
module Rclone {
  import opened Wrappers
  import opened Text
  import Transfers

  // =========================================================================
  // Tokenizing the stream (the split function, rclone.go:135-160)
  // =========================================================================

  predicate IsDelimiter(c: char) {
    c == '\r' || c == '\n'
  }

  predicate NoDelimiter(s: string) {
    forall i :: 0 <= i < |s| ==> !IsDelimiter(s[i])
  }

  /** strings.IndexAny(data, "\r\n"): the first carriage return or line feed. */
  function IndexAny(data: string): (r: Option<nat>)
    ensures r.Some? ==> r.value < |data| && IsDelimiter(data[r.value]) && NoDelimiter(data[..r.value])
    ensures r.None? <==> NoDelimiter(data)
  {
    if data == [] then None
    else if IsDelimiter(data[0]) then Some(0)
    else
      match IndexAny(data[1..])
      case None => None
      case Some(j) =>
        assert data[..j + 1] == [data[0]] + data[1..][..j];
        Some(j + 1)
  }

  /** The first delimiter is unique: one with none before it is the one
      IndexAny finds. */
  lemma IndexAnyAt(data: string, i: nat)
    requires i < |data| && IsDelimiter(data[i]) && NoDelimiter(data[..i])
    ensures IndexAny(data) == Some(i)
  {
  }

  /** What a bufio.SplitFunc returns (the error result is always nil here). */
  datatype SplitResult = SplitResult(advance: nat, token: Option<string>)

  /** The split function of parseRcloneOutput. It never consumes more than
      it was given, a token is always a delimiter-free prefix of the data,
      and a token always comes with progress. */
  function Split(data: string, atEOF: bool): (r: SplitResult)
    ensures r.advance <= |data|
    ensures r.token.Some? ==> 0 < r.advance && r.token.value <= data && NoDelimiter(r.token.value)
    ensures r.token.None? ==> r.advance == 0
  {
    if atEOF && |data| == 0 then SplitResult(0, None)
    else
      match IndexAny(data)
      case Some(i) =>
        var advance := if i + 1 < |data| && data[i] == '\r' && data[i + 1] == '\n' then i + 2 else i + 1;
        SplitResult(advance, Some(data[..i]))
      case None =>
        if atEOF then SplitResult(|data|, Some(data)) else SplitResult(0, None)
  }

  /** With its first delimiter at `i`, the data yields the token before it,
      and the split steps over the delimiter, or over both characters of a
      "\r\n" that is wholly in the buffer. */
  lemma SplitAtFirstDelimiter(data: string, atEOF: bool, i: nat)
    requires i < |data| && IsDelimiter(data[i]) && NoDelimiter(data[..i])
    ensures Split(data, atEOF).token == Some(data[..i])
    ensures Split(data, atEOF).advance ==
              if i + 1 < |data| && data[i] == '\r' && data[i + 1] == '\n' then i + 2 else i + 1
  {
    IndexAnyAt(data, i);
  }

  /** Without a delimiter: no token until end of stream, then the whole
      remainder as the last token, and nothing at all from empty data. */
  lemma SplitWithoutDelimiter(data: string, atEOF: bool)
    requires NoDelimiter(data)
    ensures Split(data, atEOF) ==
              if atEOF && data != [] then SplitResult(|data|, Some(data)) else SplitResult(0, None)
  {
  }

  // =========================================================================
  // The lines the decoder acts on
  // =========================================================================

  /** The stream cut at every carriage return and every line feed, with the
      empty pieces dropped: the lines the decoder looks at, whatever the mix
      of "\r", "\n" and "\r\n" terminators. */
  function Lines(s: string): (r: seq<string>)
    ensures forall k :: 0 <= k < |r| ==> r[k] != [] && NoDelimiter(r[k])
    decreases |s|
  {
    match IndexAny(s)
    case None => if s == [] then [] else [s]
    case Some(i) => NonEmpty(s[..i]) + Lines(s[i + 1..])
  }

  /** A token as a line: itself, unless it is empty. */
  function NonEmpty(tok: string): seq<string> {
    if tok == [] then [] else [tok]
  }

  /** A delimiter-free piece followed by a delimiter contributes itself, if
      non-empty, and the rest of the stream is cut independently. */
  lemma LinesCons(tok: string, d: char, rest: string)
    requires NoDelimiter(tok) && IsDelimiter(d)
    ensures Lines(tok + [d] + rest) == NonEmpty(tok) + Lines(rest)
  {
    var s := tok + [d] + rest;
    assert s[..|tok|] == tok;
    IndexAnyAt(s, |tok|);
    assert s[|tok| + 1..] == rest;
  }

  /** The first piece of a stream with a delimiter at `i` is what precedes it. */
  lemma LinesUnfold(a: string, i: nat)
    requires IndexAny(a) == Some(i)
    ensures Lines(a) == NonEmpty(a[..i]) + Lines(a[i + 1..])
  {
  }

  /** Cutting a buffer at its first delimiter, whatever input is still unread. */
  lemma LinesCut(buffer: string, i: nat, unread: string)
    requires IndexAny(buffer) == Some(i)
    ensures Lines(buffer + unread) == NonEmpty(buffer[..i]) + Lines(buffer[i + 1..] + unread)
  {
    var tok, d, after := buffer[..i], buffer[i], buffer[i + 1..] + unread;
    assert buffer + unread == tok + [d] + after;
    LinesCons(tok, d, after);
  }

  /** Cutting is a homomorphism: a stream made of two parts joined by a
      delimiter has the lines of the first part, then those of the second. */
  lemma {:induction false} LinesAppend(a: string, d: char, b: string)
    requires IsDelimiter(d)
    ensures Lines(a + [d] + b) == Lines(a) + Lines(b)
    decreases |a|
  {
    var first := IndexAny(a);
    if first.None? {
      LinesCons(a, d, b);
    } else {
      var i := first.value;
      var head, tail := a[..i], a[i + 1..];
      AppendAssoc(a, [d], b);
      LinesCut(a, i, [d] + b);
      AppendAssoc(tail, [d], b);
      LinesAppend(tail, d, b);
      LinesUnfold(a, i);
      AppendAssoc(NonEmpty(head), Lines(tail), Lines(b));
    }
  }

  /** A leading line feed contributes no line. */
  lemma LinesSkipLineFeed(rest: string)
    ensures Lines(['\n'] + rest) == Lines(rest)
  {
    assert ['\n'] + rest == [] + ['\n'] + rest;
    LinesCons([], '\n', rest);
  }

  /** One call of the split function on the scanner's buffer: the lines of
      buffer-plus-unread-input are the token (if non-empty) followed by the
      lines of what is left. This is where a "\r\n" split across two reads
      costs nothing: its "\n" later yields an empty token, which is dropped. */
  lemma ScanStep(buffer: string, atEOF: bool, unread: string)
    requires Split(buffer, atEOF).token.Some?
    requires atEOF ==> unread == []
    ensures var r := Split(buffer, atEOF);
            Lines(buffer + unread) == NonEmpty(r.token.value) + Lines(buffer[r.advance..] + unread)
  {
    match IndexAny(buffer)
    case Some(i) => ScanStepAt(buffer, atEOF, unread, i);
    case None => ScanStepLast(buffer, atEOF, unread);
  }

  /** The token ends at the first delimiter, at `i`. */
  lemma ScanStepAt(buffer: string, atEOF: bool, unread: string, i: nat)
    requires IndexAny(buffer) == Some(i)
    ensures var r := Split(buffer, atEOF);
            r.token == Some(buffer[..i]) &&
            Lines(buffer + unread) == NonEmpty(buffer[..i]) + Lines(buffer[r.advance..] + unread)
  {
    SplitAtFirstDelimiter(buffer, atEOF, i);
    LinesCut(buffer, i, unread);
    if i + 1 < |buffer| && buffer[i] == '\r' && buffer[i + 1] == '\n' {
      SkipCarriageReturn(buffer, i, unread);
    }
  }

  /** After the '\r' of a "\r\n" in the buffer, the '\n' adds no line. */
  lemma SkipCarriageReturn(buffer: string, i: nat, unread: string)
    requires i + 1 < |buffer| && buffer[i + 1] == '\n'
    ensures Lines(buffer[i + 1..] + unread) == Lines(buffer[i + 2..] + unread)
  {
    assert buffer[i + 1..] + unread == ['\n'] + (buffer[i + 2..] + unread);
    LinesSkipLineFeed(buffer[i + 2..] + unread);
  }

  /** At end of stream the whole delimiter-free remainder is the token. */
  lemma ScanStepLast(buffer: string, atEOF: bool, unread: string)
    requires IndexAny(buffer).None? && Split(buffer, atEOF).token.Some?
    requires atEOF ==> unread == []
    ensures var r := Split(buffer, atEOF);
            r.token == Some(buffer) && r.advance == |buffer| && unread == [] &&
            Lines(buffer + unread) == NonEmpty(buffer) + Lines([])
  {
    assert buffer + unread == buffer;
  }

  /** The concatenation of the chunks the reader delivers. */
  function Concat(chunks: seq<string>): string {
    if chunks == [] then [] else chunks[0] + Concat(chunks[1..])
  }

  // =========================================================================
  // The "Transferred:" pattern (rclone.go:164)
  // =========================================================================

  // The pattern is
  //   Transferred:\s+([0-9.]+)\s*([kKMGTP]i?[Bb]?)\s*/\s*([0-9.]+)\s*([kKMGTP]i?[Bb]?),\s*([0-9]+)%
  // Every quantifier in it is followed by something its own class excludes,
  // so only the greedy choice can lead to a match and matching is a single
  // left-to-right pass over the pattern's elements.

  /** Character classes: Go's `\s` (ASCII white space only), `[0-9.]`, `[0-9]`. */
  datatype Class = Space | NumChar | Digit

  predicate InClass(c: char, cls: Class) {
    match cls
    case Space => c == '\t' || c == '\n' || c == '\U{C}' || c == '\r' || c == ' '
    case NumChar => IsDigit(c) || c == '.'
    case Digit => IsDigit(c)
  }

  /** `[kKMGTP]` */
  predicate IsUnitLetter(c: char) {
    c == 'k' || c == 'K' || c == 'M' || c == 'G' || c == 'T' || c == 'P'
  }

  /** A unit as `[kKMGTP]i?[Bb]?` spells it. */
  predicate IsUnit(u: string) {
    && 1 <= |u| && IsUnitLetter(u[0])
    && var tail := u[1..];
       tail == [] || tail == "i" || tail == "B" || tail == "b" || tail == "iB" || tail == "ib"
  }

  /** One element of the pattern: fixed text, a run of a class (`+` when
      `atLeastOne`, else `*`), or a unit group. */
  datatype Element = Literal(text: string) | Run(cls: Class, atLeastOne: bool) | UnitName

  const Pattern: seq<Element> := [
    Literal("Transferred:"), Run(Space, true),
    Run(NumChar, true), Run(Space, false), UnitName,        // copied and its unit
    Run(Space, false), Literal("/"), Run(Space, false),
    Run(NumChar, true), Run(Space, false), UnitName,        // total and its unit
    Literal(","), Run(Space, false),
    Run(Digit, true), Literal("%")]                         // percentage

  /** Positions of the five capture groups among the pattern's elements. */
  const CopiedGroup := 2
  const CopiedUnitGroup := 4
  const TotalGroup := 8
  const TotalUnitGroup := 10
  const PercentGroup := 13

  /** The text an element may match. */
  predicate Fits(e: Element, piece: string) {
    match e
    case Literal(text) => piece == text
    case Run(cls, atLeastOne) => (forall i :: 0 <= i < |piece| ==> InClass(piece[i], cls)) && (atLeastOne ==> piece != [])
    case UnitName => IsUnit(piece)
  }

  /** The length of the longest prefix of `t` inside `cls`. */
  function SpanLen(t: string, cls: Class): (n: nat)
    ensures n <= |t| && (n == |t| || !InClass(t[n], cls))
    ensures forall i :: 0 <= i < n ==> InClass(t[i], cls)
  {
    if t != [] && InClass(t[0], cls) then 1 + SpanLen(t[1..], cls) else 0
  }

  /** The length of the unit `[kKMGTP]i?[Bb]?` at the start of `t`, or 0. */
  function UnitLen(t: string): (n: nat)
    ensures n <= |t|
    ensures n > 0 ==> IsUnit(t[..n])
  {
    if t == [] || !IsUnitLetter(t[0]) then 0
    else
      var a := if 1 < |t| && t[1] == 'i' then 2 else 1;
      var b := if a < |t| && (t[a] == 'B' || t[a] == 'b') then a + 1 else a;
      assert t[..b][1..] == t[1..b];
      b
  }

  /** How much of the start of `t` the element takes, taking as much as it can. */
  function ElementLen(e: Element, t: string): (r: Option<nat>)
    ensures r.Some? ==> r.value <= |t| && Fits(e, t[..r.value])
  {
    match e
    case Literal(text) => if text <= t then Some(|text|) else None
    case Run(cls, atLeastOne) =>
      var n := SpanLen(t, cls);
      if atLeastOne && n == 0 then None else Some(n)
    case UnitName =>
      var n := UnitLen(t);
      if n == 0 then None else Some(n)
  }

  /** The elements matched one after the other at the start of `t`: the
      piece of text each one takes. */
  function MatchElements(ps: seq<Element>, t: string): (r: Option<seq<string>>)
    ensures r.Some? ==> |r.value| == |ps| && Concat(r.value) <= t
    ensures r.Some? ==> forall k :: 0 <= k < |ps| ==> Fits(ps[k], r.value[k])
    decreases |ps|
  {
    if ps == [] then Some([])
    else
      match ElementLen(ps[0], t)
      case None => None
      case Some(n) =>
        match MatchElements(ps[1..], t[n..])
        case None => None
        case Some(rest) =>
          MatchCons(ps, t, n, rest);
          Some([t[..n]] + rest)
  }

  /** The first element's reading in front of the others' readings of the
      rest of the text is a reading of the whole list. */
  lemma MatchCons(ps: seq<Element>, t: string, n: nat, rest: seq<string>)
    requires ps != [] && n <= |t| && Fits(ps[0], t[..n])
    requires |rest| == |ps| - 1 && Concat(rest) <= t[n..]
    requires forall k :: 0 <= k < |rest| ==> Fits(ps[1..][k], rest[k])
    ensures var r := [t[..n]] + rest;
            |r| == |ps| && Concat(r) <= t && forall k :: 0 <= k < |ps| ==> Fits(ps[k], r[k])
  {
    var r := [t[..n]] + rest;
    assert r[1..] == rest;
    assert t == t[..n] + t[n..];
    forall k | 1 <= k < |ps|
      ensures Fits(ps[k], r[k])
    {
      assert ps[k] == ps[1..][k - 1];
    }
  }

  /** An element's greedy reading ends where `after` begins: `after` does
      not go on with a character the element could still take. */
  predicate Stops(e: Element, after: string) {
    match e
    case Literal(_) => true
    case Run(cls, _) => after == [] || !InClass(after[0], cls)
    case UnitName => after == [] || (after[0] != 'i' && after[0] != 'B' && after[0] != 'b')
  }

  /** A run is read back whole when what follows it is outside its class. */
  lemma {:induction false} SpanOfRun(run: string, after: string, cls: Class)
    requires forall i :: 0 <= i < |run| ==> InClass(run[i], cls)
    requires after == [] || !InClass(after[0], cls)
    ensures SpanLen(run + after, cls) == |run|
    decreases |run|
  {
    if run == [] {
      assert run + after == after;
    } else {
      assert (run + after)[1..] == run[1..] + after;
      SpanOfRun(run[1..], after, cls);
    }
  }

  lemma ElementLenOf(e: Element, piece: string, after: string)
    requires Fits(e, piece) && Stops(e, after)
    ensures ElementLen(e, piece + after) == Some(|piece|)
    ensures (piece + after)[..|piece|] == piece && (piece + after)[|piece|..] == after
  {
    var t := piece + after;
    match e
    case Literal(_) =>
    case Run(cls, _) =>
      SpanOfRun(piece, after, cls);
    case UnitName =>
      assert t[0] == piece[0];
      if |piece| >= 2 {
        assert t[1] == piece[1..][0];
      }
      if |piece| == 3 {
        assert t[2] == piece[1..][1];
      }
  }

  /** Concatenation peels off its first piece. */
  lemma ConcatFrom(pieces: seq<string>, j: nat)
    requires j < |pieces|
    ensures Concat(pieces[j..]) == pieces[j] + Concat(pieces[j + 1..])
  {
    assert pieces[j..][1..] == pieces[j + 1..];
  }

  /** Completeness of the pass: pieces that fit their elements, each ending
      where its element's greedy reading stops, are found exactly. */
  lemma {:induction false} MatchElementsComplete(ps: seq<Element>, pieces: seq<string>, rest: string)
    requires |pieces| == |ps|
    requires forall k :: 0 <= k < |ps| ==> Fits(ps[k], pieces[k])
    requires forall k :: 0 <= k < |ps| ==> Stops(ps[k], Concat(pieces[k + 1..]) + rest)
    ensures MatchElements(ps, Concat(pieces) + rest) == Some(pieces)
    decreases |ps|
  {
    if ps != [] {
      var t := Concat(pieces) + rest;
      var after := Concat(pieces[1..]) + rest;
      ConcatFrom(pieces, 0);
      assert pieces[0..] == pieces;
      assert t == pieces[0] + after;
      assert Stops(ps[0], after);
      ElementLenOf(ps[0], pieces[0], after);
      forall k | 0 <= k < |ps| - 1
        ensures Stops(ps[1..][k], Concat(pieces[1..][k + 1..]) + rest)
      {
        assert pieces[1..][k + 1..] == pieces[k + 2..];
        assert Stops(ps[k + 1], Concat(pieces[k + 2..]) + rest);
      }
      MatchElementsComplete(ps[1..], pieces[1..], rest);
      assert [pieces[0]] + pieces[1..] == pieces;
    }
  }

  /** A match of the whole pattern: the piece of text each element took. */
  predicate WellFormed(pieces: seq<string>) {
    |pieces| == |Pattern| && forall k :: 0 <= k < |Pattern| ==> Fits(Pattern[k], pieces[k])
  }

  /** The pattern at the start of `t`. */
  function MatchPrefix(t: string): (r: Option<seq<string>>)
    ensures r.Some? ==> WellFormed(r.value) && Concat(r.value) <= t
  {
    MatchElements(Pattern, t)
  }

  /** The text after piece `j`, when it begins with a piece that cannot be
      empty, begins with that piece's first character. */
  lemma AfterPiece(pieces: seq<string>, j: nat, rest: string)
    requires j < |pieces| && pieces[j] != []
    ensures Concat(pieces[j..]) + rest != [] && (Concat(pieces[j..]) + rest)[0] == pieces[j][0]
  {
    ConcatFrom(pieces, j);
  }

  /** After an optional run of spaces comes the first character of the next
      piece. */
  lemma AfterGap(pieces: seq<string>, j: nat, rest: string)
    requires j + 1 < |pieces| && pieces[j + 1] != []
    ensures var after := Concat(pieces[j..]) + rest;
            after != [] && after[0] == (if pieces[j] == [] then pieces[j + 1][0] else pieces[j][0])
  {
    ConcatFrom(pieces, j);
    ConcatFrom(pieces, j + 1);
  }

  /** In a well-formed match each element stops exactly where the next
      piece begins: neighbouring elements never share a character. */
  lemma StopAt(pieces: seq<string>, rest: string, k: nat)
    requires WellFormed(pieces) && k < |Pattern|
    ensures Stops(Pattern[k], Concat(pieces[k + 1..]) + rest)
  {
    if k == 1 || k == 3 || k == 5 || k == 7 || k == 9 || k == 10 || k == 12 || k == 13 {
      assert Fits(Pattern[k + 1], pieces[k + 1]);
      AfterPiece(pieces, k + 1, rest);
    } else if k == 2 || k == 4 || k == 8 {
      assert Fits(Pattern[k + 1], pieces[k + 1]);
      assert Fits(Pattern[k + 2], pieces[k + 2]);
      AfterGap(pieces, k + 1, rest);
    }
  }

  /** Completeness: wherever a well-formed instance of the pattern begins,
      the pass finds exactly that instance, whatever follows it. */
  lemma MatchPrefixComplete(pieces: seq<string>, rest: string)
    requires WellFormed(pieces)
    ensures MatchPrefix(Concat(pieces) + rest) == Some(pieces)
  {
    forall k | 0 <= k < |Pattern|
      ensures Stops(Pattern[k], Concat(pieces[k + 1..]) + rest)
    {
      StopAt(pieces, rest, k);
    }
    MatchElementsComplete(Pattern, pieces, rest);
  }

  /** A match in a line: where it begins, and the pieces it consists of. */
  datatype Match = Match(start: nat, pieces: seq<string>)

  /** The first position from `from` on where the pattern matches. */
  function FindFrom(line: string, from: nat): (r: Option<Match>)
    requires from <= |line|
    ensures r.Some? ==> from <= r.value.start <= |line| && MatchPrefix(line[r.value.start..]) == Some(r.value.pieces)
    decreases |line| - from
  {
    match MatchPrefix(line[from..])
    case Some(pieces) => Some(Match(from, pieces))
    case None => if from == |line| then None else FindFrom(line, from + 1)
  }

  /** Nothing matches before the position found, nor anywhere when nothing
      is found. */
  lemma {:induction false} FindFromLeftmost(line: string, from: nat, j: nat)
    requires from <= j <= |line|
    requires FindFrom(line, from).None? || j < FindFrom(line, from).value.start
    ensures MatchPrefix(line[j..]).None?
    decreases |line| - from
  {
    if j > from {
      FindFromLeftmost(line, from + 1, j);
    }
  }

  /** regexp.FindStringSubmatch: the leftmost match in the line. */
  function FindMatch(line: string): (r: Option<Match>)
    ensures r.Some? ==> r.value.start <= |line| && MatchPrefix(line[r.value.start..]) == Some(r.value.pieces)
    ensures r.Some? ==> forall j :: 0 <= j < r.value.start ==> MatchPrefix(line[j..]).None?
    ensures r.None? ==> forall j :: 0 <= j <= |line| ==> MatchPrefix(line[j..]).None?
  {
    var r := FindFrom(line, 0);
    assert forall j :: 0 <= j <= |line| && (r.None? || j < r.value.start) ==> MatchPrefix(line[j..]).None? by {
      forall j | 0 <= j <= |line| && (r.None? || j < r.value.start)
        ensures MatchPrefix(line[j..]).None?
      {
        FindFromLeftmost(line, 0, j);
      }
    }
    r
  }

  /** A line is acted on if and only if a well-formed instance of the pattern
      occurs in it; the instance reported is the leftmost, and it is there
      in the line. A unit without one of the letters k K M G T P (plain "B",
      say) never counts. */
  lemma FindMatchIffOccurs(line: string, pieces: seq<string>, i: nat)
    ensures FindMatch(line).Some? ==>
              var m := FindMatch(line).value;
              WellFormed(m.pieces) && OccursAt(line, Concat(m.pieces), m.start)
    ensures WellFormed(pieces) && OccursAt(line, Concat(pieces), i) ==>
              FindMatch(line).Some? && FindMatch(line).value.start <= i
  {
    FindMatchSound(line);
    if WellFormed(pieces) && OccursAt(line, Concat(pieces), i) {
      FindMatchComplete(line, pieces, i);
    }
  }

  /** What FindMatch reports is a well-formed instance found in the line. */
  lemma FindMatchSound(line: string)
    ensures FindMatch(line).Some? ==>
              var m := FindMatch(line).value;
              WellFormed(m.pieces) && OccursAt(line, Concat(m.pieces), m.start)
  {
    if FindMatch(line).Some? {
      var m := FindMatch(line).value;
      PrefixOccurs(line, m.start, Concat(m.pieces));
    }
  }

  /** A prefix of the text from `start` on occurs at `start`. */
  lemma PrefixOccurs(line: string, start: nat, r: string)
    requires start <= |line| && r <= line[start..]
    ensures OccursAt(line, r, start)
  {
    assert line[start..start + |r|] == line[start..][..|r|];
  }

  /** A well-formed instance at `i` is found, there or further left. */
  lemma FindMatchComplete(line: string, pieces: seq<string>, i: nat)
    requires WellFormed(pieces) && OccursAt(line, Concat(pieces), i)
    ensures FindMatch(line).Some? && FindMatch(line).value.start <= i
  {
    var r := Concat(pieces);
    assert line[i..] == r + line[i + |r|..];
    MatchPrefixComplete(pieces, line[i + |r|..]);
  }

  // =========================================================================
  // Sizes (parseSize, rclone.go:188-214)
  // =========================================================================

  predicate AllDigits(s: string) {
    forall i :: 0 <= i < |s| ==> IsDigit(s[i])
  }

  /** A decimal number held exactly: `mantissa` / 10^`scale`. */
  datatype Fixed = Fixed(mantissa: nat, scale: nat)

  function Pow10(k: nat): (p: nat)
    ensures p >= 1
  {
    if k == 0 then 1 else 10 * Pow10(k - 1)
  }

  /** The text strconv.ParseFloat accepts among the text over `[0-9.]`:
      digits and points only, at most one point, and at least one digit. */
  predicate NumberText(s: string) {
    && (forall i :: 0 <= i < |s| ==> IsDigit(s[i]) || s[i] == '.')
    && (forall i, j :: 0 <= i < j < |s| && s[i] == '.' ==> s[j] != '.')
    && (exists i :: 0 <= i < |s| && IsDigit(s[i]))
  }

  /** strconv.ParseFloat on text over `[0-9.]`, the only text the pattern
      hands it: a number exactly for NumberText, and a syntax error for
      anything else ("", ".", "1.2.3"). The digits on both sides of the
      point form the mantissa, those after it the scale. */
  function ParseNumber(s: string): (r: Option<Fixed>)
    ensures r.Some? <==> NumberText(s)
  {
    match IndexOf(s, '.')
    case None =>
      NumberWithoutPoint(s);
      if s != [] && AllDigits(s) then Some(Fixed(DecimalValue(s), 0)) else None
    case Some(i) =>
      var whole, frac := s[..i], s[i + 1..];
      NumberWithPoint(s, i);
      if (whole == [] && frac == []) || !AllDigits(whole) || !AllDigits(frac) then None
      else Some(Fixed(DecimalValue(whole + frac), |frac|))
  }

  lemma NumberWithoutPoint(s: string)
    requires '.' !in s
    ensures NumberText(s) <==> s != [] && AllDigits(s)
  {
    if s != [] && AllDigits(s) {
      assert IsDigit(s[0]);
    }
  }

  lemma NumberWithPoint(s: string, i: nat)
    requires i < |s| && s[i] == '.' && '.' !in s[..i]
    ensures NumberText(s) <==>
              && !(s[..i] == [] && s[i + 1..] == [])
              && AllDigits(s[..i]) && AllDigits(s[i + 1..])
  {
    var whole, frac := s[..i], s[i + 1..];
    if NumberText(s) {
      forall k | 0 <= k < |whole| ensures IsDigit(whole[k]) {
        assert whole[k] == s[k] && s[k] in s[..i];
      }
      forall k | 0 <= k < |frac| ensures IsDigit(frac[k]) {
        assert frac[k] == s[i + 1 + k];
      }
      var j :| 0 <= j < |s| && IsDigit(s[j]);
      if j < i {
        assert s[j] == whole[j];
      } else {
        assert j > i && s[j] == frac[j - i - 1];
      }
    }
    if && !(whole == [] && frac == [])
       && AllDigits(whole) && AllDigits(frac)
    {
      forall k | 0 <= k < |s| ensures IsDigit(s[k]) || s[k] == '.' {
        if k < i {
          assert s[k] == whole[k];
        } else if k > i {
          assert s[k] == frac[k - i - 1];
        }
      }
      forall a, b | 0 <= a < b < |s| && s[a] == '.' ensures s[b] != '.' {
        if a == i {
          assert s[b] == frac[b - i - 1];
        }
      }
      if whole != [] {
        assert IsDigit(s[0]) && s[0] == whole[0];
      } else {
        assert IsDigit(s[i + 1]) && s[i + 1] == frac[0];
      }
    }
  }

  /** ParseFloat of a whole number reads its value. */
  lemma ParseNumberOfWhole(w: string)
    requires w != [] && AllDigits(w)
    ensures ParseNumber(w) == Some(Fixed(DecimalValue(w), 0))
  {
    NoPointInDigits(w);
  }

  lemma NoPointInDigits(w: string)
    requires AllDigits(w)
    ensures '.' !in w
  {
  }

  /** The first point of "w.f" is the one after w. */
  lemma PointAfterWhole(w: string, f: string)
    requires AllDigits(w)
    ensures IndexOf(w + "." + f, '.') == Some(|w|)
  {
    var s := w + "." + f;
    assert s[|w|] == '.';
    NoPointInDigits(w);
    assert s[..|w|] == w;
  }

  /** The number "w.f" scaled by 10^|f|: w * 10^|f| + f. */
  function PointValue(w: string, f: string): nat
    requires AllDigits(w) && AllDigits(f)
  {
    DecimalValue(w) * Pow10(|f|) + DecimalValue(f)
  }

  /** ParseFloat of "w.f" reads w + f / 10^|f|: the mantissa is
      w * 10^|f| + f over the scale |f|. */
  lemma {:induction false} ParseNumberOfParts(w: string, f: string)
    requires AllDigits(w) && AllDigits(f) && (w != [] || f != [])
    ensures ParseNumber(w + "." + f) == Some(Fixed(PointValue(w, f), |f|))
  {
    ParseNumberJoined(w, f);
    DecimalValueAppend(w, f);
  }

  lemma ParseNumberJoined(w: string, f: string)
    requires AllDigits(w) && AllDigits(f) && (w != [] || f != [])
    ensures ParseNumber(w + "." + f) == Some(Fixed(DecimalValue(w + f), |f|))
  {
    var s := w + "." + f;
    PointAfterWhole(w, f);
    assert s[..|w|] == w && s[|w| + 1..] == f;
    ParseNumberAt(s, |w|);
  }

  /** ParseNumber of text whose first point is at `i`, with digits on both
      sides and not only the point. */
  lemma ParseNumberAt(s: string, i: nat)
    requires IndexOf(s, '.') == Some(i)
    requires AllDigits(s[..i]) && AllDigits(s[i + 1..]) && |s| > 1
    ensures ParseNumber(s) == Some(Fixed(DecimalValue(s[..i] + s[i + 1..]), |s| - i - 1))
  {
  }

  /** Appending digits shifts the number read so far: the mantissa of
      "w.f" is w * 10^|f| + f, so it stands for w + f / 10^|f|. */
  lemma {:induction false} DecimalValueAppend(w: string, f: string)
    requires AllDigits(w) && AllDigits(f)
    ensures AllDigits(w + f)
    ensures DecimalValue(w + f) == DecimalValue(w) * Pow10(|f|) + DecimalValue(f)
    decreases |f|
  {
    var wf := w + f;
    if f != [] {
      var f0, d := f[..|f| - 1], DigitValue(f[|f| - 1]);
      assert wf[..|wf| - 1] == w + f0;
      assert wf[|wf| - 1] == f[|f| - 1];
      DecimalValueAppend(w, f0);
      assert DecimalValue(wf) == DecimalValue(w + f0) * 10 + d;
      assert DecimalValue(f) == DecimalValue(f0) * 10 + d;
      assert Pow10(|f|) == 10 * Pow10(|f0|);
      ShiftDigit(DecimalValue(w), Pow10(|f0|), DecimalValue(f0), d);
    } else {
      assert wf == w;
    }
  }

  lemma ShiftDigit(a: int, p: int, x: int, d: int)
    ensures (a * p + x) * 10 + d == a * (10 * p) + (x * 10 + d)
  {
  }

  /** The unit after parseSize's normalisation: trimmed, upper-cased, one
      trailing "B" and then one trailing "I" removed. */
  function NormalizeUnit(unit: string): string {
    TrimSuffix(TrimSuffix(ToUpper(TrimSpace(unit)), "B"), "I")
  }

  /** The binary multiplier parseSize picks: by the one letter left after
      normalisation, and 1 for anything unrecognised. */
  function Multiplier(unit: string): (m: nat)
    ensures m >= 1
    ensures var u := NormalizeUnit(unit);
            |u| == 1 && IsPrefixLetter(u[0]) ==> m == Transfers.Pow1024(LetterOrder(u[0]))
    ensures var u := NormalizeUnit(unit);
            !(|u| == 1 && IsPrefixLetter(u[0])) ==> m == 1
  {
    var u := NormalizeUnit(unit);
    if |u| == 1 then
      LetterFactorOf(u[0]);
      LetterFactor(u[0])
    else 1
  }

  /** The letters parseSize gives a factor to. */
  predicate IsPrefixLetter(c: char) {
    c == 'K' || c == 'M' || c == 'G' || c == 'T' || c == 'P'
  }

  /** The factor of an upper-case unit letter is its power of 1024, and
      every other letter stands for 1. */
  lemma LetterFactorOf(c: char)
    ensures IsPrefixLetter(c) ==> LetterFactor(c) == Transfers.Pow1024(LetterOrder(c))
    ensures !IsPrefixLetter(c) ==> LetterFactor(c) == 1
  {
    if IsPrefixLetter(c) {
      LetterFactorIsPower(c);
    }
  }

  function LetterFactor(c: char): (m: nat)
    ensures m >= 1
  {
    if c == 'K' then 1024
    else if c == 'M' then 1024 * 1024
    else if c == 'G' then 1024 * 1024 * 1024
    else if c == 'T' then 1024 * 1024 * 1024 * 1024
    else if c == 'P' then 1024 * 1024 * 1024 * 1024 * 1024
    else 1
  }

  /** parseSize: the value times the unit's multiplier, truncated to whole
      bytes; zero when the value is not a number. */
  function ParseSize(value: string, unit: string): (bytes: nat)
    ensures ParseNumber(value).None? ==> bytes == 0
    ensures ParseNumber(value).Some? ==> FloorOf(bytes, ParseNumber(value).value, Multiplier(unit))
  {
    Scale(ParseNumber(value), Multiplier(unit))
  }

  /** parseSize of "w.f": the floor of (w + f / 10^|f|) times the unit's
      multiplier, stated without division. */
  lemma {:induction false} ParseSizeOfParts(w: string, f: string, unit: string)
    requires AllDigits(w) && AllDigits(f) && (w != [] || f != [])
    ensures FloorOf(ParseSize(w + "." + f, unit), Fixed(PointValue(w, f), |f|), Multiplier(unit))
  {
    ParseNumberOfParts(w, f);
    var bytes := ParseSize(w + "." + f, unit);
    assert FloorOf(bytes, ParseNumber(w + "." + f).value, Multiplier(unit));
  }

  /** Half a kibibyte more: "w.5" with unit "K" is w * 1024 + 512 bytes
      exactly, so "1.5" K is 1536. */
  lemma {:induction false} ParseSizeHalfKibibyte(w: string)
    requires AllDigits(w)
    ensures ParseSize(w + ".5", "K") == DecimalValue(w) * 1024 + 512
  {
    var s := w + ".5";
    assert s == w + "." + "5";
    ParseSizeOfParts(w, "5", "K");
    var bytes := ParseSize(s, "K");
    HalfValue(w);
    KibiMultiplier();
    FloorHalf(bytes, Fixed(PointValue(w, "5"), |"5"|), Multiplier("K"), DecimalValue(w));
  }

  lemma HalfValue(w: string)
    requires AllDigits(w)
    ensures PointValue(w, "5") == DecimalValue(w) * 10 + 5
  {
    assert DecimalValue("5") == 5 && Pow10(|"5"|) == 10;
  }

  lemma KibiMultiplier()
    ensures Multiplier("K") == 1024
  {
    UnitIsBinaryPrefix("K");
    assert Transfers.Pow1024(1) == 1024;
  }

  lemma FloorHalf(bytes: nat, n: Fixed, m: nat, x: nat)
    requires FloorOf(bytes, n, m) && n == Fixed(x * 10 + 5, 1) && m == 1024
    ensures bytes == x * 1024 + 512
  {
    assert Pow10(1) == 10;
  }

  /** `bytes` is the number `f` times `m`, rounded down:
      bytes <= f * m < bytes + 1, multiplied out by 10^scale. */
  predicate FloorOf(bytes: nat, f: Fixed, m: nat) {
    bytes * Pow10(f.scale) <= f.mantissa * m < (bytes + 1) * Pow10(f.scale)
  }

  /** A parsed value times a multiplier, truncated to whole units (the value
      is never negative, so truncation is the floor); zero for no value. */
  function Scale(value: Option<Fixed>, m: nat): (bytes: nat)
    ensures value.None? ==> bytes == 0
    ensures value.Some? ==> FloorOf(bytes, value.value, m)
  {
    match value
    case None => 0
    case Some(f) => FloorDiv(f.mantissa * m, Pow10(f.scale))
  }

  /** Division rounding down, characterised by its bounds. */
  function FloorDiv(a: nat, b: nat): (q: nat)
    requires b >= 1
    ensures q * b <= a < (q + 1) * b
  {
    a / b
  }

  /** The power of 1024 each unit letter stands for. */
  function LetterOrder(c: char): nat
    requires IsUnitLetter(c)
  {
    if c == 'k' || c == 'K' then 1 else if c == 'M' then 2 else if c == 'G' then 3 else if c == 'T' then 4 else 5
  }

  lemma UpperSplit(u: string)
    requires |u| >= 1
    ensures ToUpper(u) == [UpperChar(u[0])] + ToUpper(u[1..])
  {
  }

  lemma UpperUnitTail(tail: string)
    requires tail == [] || tail == "i" || tail == "B" || tail == "b" || tail == "iB" || tail == "ib"
    ensures var t := ToUpper(tail); t == [] || t == "I" || t == "B" || t == "IB"
  {
    if tail == "i" {
      assert ToUpper(tail) == "I";
    } else if tail == "B" || tail == "b" {
      assert ToUpper(tail) == "B";
    } else if tail == "iB" || tail == "ib" {
      assert ToUpper(tail) == "IB";
    }
  }

  /** Cutting "B" and then "I" leaves the letter alone. */
  lemma StripUnitSuffixes(letter: char, t: string)
    requires letter != 'B' && letter != 'I'
    requires t == [] || t == "I" || t == "B" || t == "IB"
    ensures TrimSuffix(TrimSuffix([letter] + t, "B"), "I") == [letter]
  {
    if t == [] {
      assert !HasSuffix([letter], "B");
    } else if t == "I" {
      assert !HasSuffix([letter] + t, "B");
      assert ([letter] + t)[..1] == [letter];
    } else if t == "B" {
      assert ([letter] + t)[..1] == [letter];
      assert !HasSuffix([letter], "I");
    } else {
      assert ([letter] + t)[..2] == [letter, 'I'];
      assert [letter, 'I'][..1] == [letter];
    }
  }

  lemma TrimmedUnit(u: string)
    requires IsUnit(u)
    ensures TrimSpace(u) == u
  {
    TrimSpaceOfTrimmed(u);
  }

  lemma NormalizeTrimmedUnit(u: string)
    requires IsUnit(u) && TrimSpace(u) == u
    ensures NormalizeUnit(u) == [UpperChar(u[0])]
  {
    UpperSplit(u);
    UpperUnitTail(u[1..]);
    StripUnitSuffixes(UpperChar(u[0]), ToUpper(u[1..]));
  }

  /** Normalising a unit the pattern accepts leaves its upper-cased letter. */
  lemma NormalizeUnitOfUnit(u: string)
    requires IsUnit(u)
    ensures NormalizeUnit(u) == [UpperChar(u[0])]
  {
    TrimmedUnit(u);
    NormalizeTrimmedUnit(u);
  }

  lemma LetterFactorIsPower(c: char)
    requires IsUnitLetter(c)
    ensures LetterFactor(UpperChar(c)) == Transfers.Pow1024(LetterOrder(c))
  {
    assert Transfers.Pow1024(1) == 1024;
    assert Transfers.Pow1024(2) == 1024 * 1024;
    assert Transfers.Pow1024(3) == 1024 * 1024 * 1024;
    assert Transfers.Pow1024(4) == 1024 * 1024 * 1024 * 1024;
    assert Transfers.Pow1024(5) == 1024 * 1024 * 1024 * 1024 * 1024;
  }

  /** Every unit the pattern accepts is a binary prefix: K or k is 1024, M is
      1024^2, up to P at 1024^5, with or without "i" and "B" or "b". */
  lemma UnitIsBinaryPrefix(u: string)
    requires IsUnit(u)
    ensures Multiplier(u) == Transfers.Pow1024(LetterOrder(u[0]))
  {
    NormalizeUnitOfUnit(u);
    LetterFactorIsPower(u[0]);
  }

  lemma NormalizeByteUnit(c: char)
    requires c == 'B' || c == 'b'
    ensures NormalizeUnit([c]) == []
  {
    TrimOneLetter(c);
    UpperByteUnit(c);
    CutByteUnit();
  }

  lemma TrimOneLetter(c: char)
    requires !IsSpace(c)
    ensures TrimSpace([c]) == [c]
  {
    TrimSpaceOfTrimmed([c]);
  }

  lemma UpperByteUnit(c: char)
    requires c == 'B' || c == 'b'
    ensures ToUpper([c]) == "B"
  {
    assert ToUpper([c])[0] == 'B';
  }

  lemma CutByteUnit()
    ensures TrimSuffix(TrimSuffix("B", "B"), "I") == []
  {
    assert HasSuffix("B", "B");
    assert !HasSuffix([], "I");
  }

  /** Plain bytes, and no unit at all, multiply by 1. */
  lemma ByteUnits()
    ensures Multiplier("") == 1 && Multiplier("B") == 1 && Multiplier("b") == 1
  {
    NormalizeByteUnit('B');
    NormalizeByteUnit('b');
    assert TrimSpace("") == [];
  }

  /** Whole numbers are read exactly: "n" with any unit is n times the
      multiplier. */
  lemma ParseSizeOfWhole(n: nat, unit: string)
    ensures ParseSize(Decimal(n), unit) == n * Multiplier(unit)
  {
    DecimalRoundTrip(n);
    var s := Decimal(n);
    assert AllDigits(s);
    assert '.' !in s;
    assert ParseNumber(s) == Some(Fixed(n, 0));
  }

  // =========================================================================
  // Applying the lines to the store (rclone.go:166-184)
  // =========================================================================

  /** The numbers a match reports: the percentage, bytes copied, bytes total. */
  datatype Progress = Progress(percent: real, copied: int, total: int)

  function ProgressOf(pieces: seq<string>): Progress
    requires WellFormed(pieces)
  {
    assert Fits(Pattern[PercentGroup], pieces[PercentGroup]);
    Progress(
      DecimalValue(pieces[PercentGroup]) as real,
      ParseSize(pieces[CopiedGroup], pieces[CopiedUnitGroup]),
      ParseSize(pieces[TotalGroup], pieces[TotalUnitGroup]))
  }

  /** What a line reports, if it matches. */
  function LineProgress(line: string): (r: Option<Progress>)
    ensures r.Some? <==> line != [] && FindMatch(line).Some?
  {
    if line == [] then None
    else
      match FindMatch(line)
      case None => None
      case Some(m) => Some(ProgressOf(m.pieces))
  }

  /** A report's effect on the table: the named transfer takes the
      reported numbers; no report, or an unknown transfer, changes nothing. */
  function Report(m: map<string, Transfers.Transfer>, id: string, report: Option<Progress>): map<string, Transfers.Transfer> {
    match report
    case None => m
    case Some(p) => Transfers.Progressed(m, id, p.percent, p.copied, p.total)
  }

  /** A later report overwrites an earlier one completely. */
  lemma ReportOverwrites(m: map<string, Transfers.Transfer>, id: string, first: Option<Progress>, second: Progress)
    ensures Report(Report(m, id, first), id, Some(second)) == Report(m, id, Some(second))
  {
    if id in m && first.Some? {
      var mid := Report(m, id, first);
      assert mid == m[id := mid[id]];
    }
  }

  /** One line's effect on the table: an update of the named transfer when
      the line matches, nothing otherwise. */
  function ApplyLine(m: map<string, Transfers.Transfer>, id: string, line: string): map<string, Transfers.Transfer> {
    Report(m, id, LineProgress(line))
  }

  /** The lines' effects, in stream order. */
  function ApplyLines(m: map<string, Transfers.Transfer>, id: string, lines: seq<string>): map<string, Transfers.Transfer> {
    if lines == [] then m
    else ApplyLine(ApplyLines(m, id, lines[..|lines| - 1]), id, lines[|lines| - 1])
  }

  /** The report of the last matching line, if any. */
  function LastProgress(lines: seq<string>): Option<Progress> {
    if lines == [] then None
    else
      match LineProgress(lines[|lines| - 1])
      case Some(p) => Some(p)
      case None => LastProgress(lines[..|lines| - 1])
  }

  /** The last matching line is the one whose report counts: when line `k`
      matches and none after it does, its report is the last. */
  lemma {:induction false} LastProgressIsLast(lines: seq<string>, k: nat)
    requires k < |lines| && LineProgress(lines[k]).Some?
    requires forall j :: k < j < |lines| ==> LineProgress(lines[j]).None?
    ensures LastProgress(lines) == LineProgress(lines[k])
    decreases |lines|
  {
    if k < |lines| - 1 {
      var init := lines[..|lines| - 1];
      assert init[k] == lines[k];
      forall j | k < j < |init|
        ensures LineProgress(init[j]).None?
      {
        assert init[j] == lines[j];
      }
      LastProgressIsLast(init, k);
    }
  }

  /** Without a matching line there is no report. */
  lemma {:induction false} LastProgressNone(lines: seq<string>)
    requires forall j :: 0 <= j < |lines| ==> LineProgress(lines[j]).None?
    ensures LastProgress(lines).None?
    decreases |lines|
  {
    if lines != [] {
      var init := lines[..|lines| - 1];
      forall j | 0 <= j < |init|
        ensures LineProgress(init[j]).None?
      {
        assert init[j] == lines[j];
      }
      LastProgressNone(init);
    }
  }

  /** Last write wins: after a stream of lines, the transfer shows exactly
      what the last matching line reported, and a stream without matching
      lines changes nothing. Other transfers are never touched. */
  lemma {:induction false} LastWriteWins(m: map<string, Transfers.Transfer>, id: string, lines: seq<string>)
    ensures ApplyLines(m, id, lines) == Report(m, id, LastProgress(lines))
  {
    if lines != [] {
      var init := lines[..|lines| - 1];
      LastWriteWins(m, id, init);
      var last := LineProgress(lines[|lines| - 1]);
      if last.Some? {
        ReportOverwrites(m, id, LastProgress(init), last.value);
      }
    }
  }

  // =========================================================================
  // The scanning loop (parseRcloneOutput, rclone.go:127-185)
  // =========================================================================

  /** parseRcloneOutput over a stream that the reader delivers in `chunks`
      (read boundaries fall anywhere). The table ends up with the effect of
      the stream's lines, in order; since only the concatenation matters,
      the result does not depend on where the reads were cut. The order of
      transfers is untouched. */
  method ParseOutput(chunks: seq<string>, transferID: string, mgr: Transfers.Manager)
    modifies mgr`transfers
    ensures mgr.transfers == ApplyLines(old(mgr.transfers), transferID, Lines(Concat(chunks)))
  {
    var buffer: string := [];
    var k := 0;
    ghost var done: seq<string> := [];
    ghost var start := mgr.transfers;
    assert chunks[0..] == chunks;
    assert [] + Concat(chunks) == Concat(chunks);
    assert [] + Lines(Concat(chunks)) == Lines(Concat(chunks));
    while true
      invariant 0 <= k <= |chunks|
      invariant done + Lines(buffer + Concat(chunks[k..])) == Lines(Concat(chunks))
      invariant mgr.transfers == ApplyLines(start, transferID, done)
      decreases |chunks| - k, |buffer|
    {
      var atEOF := k == |chunks|;
      if buffer != [] || atEOF {
        var r := Split(buffer, atEOF);
        if r.token.Some? {
          buffer, done := HandleToken(buffer, atEOF, Concat(chunks[k..]), start, done, transferID, mgr);
          continue;
        }
        if atEOF {
          assert buffer == [] && chunks[k..] == [];
          assert buffer + Concat(chunks[k..]) == [];
          assert done + Lines([]) == done;
          break;
        }
      }
      ReadChunk(buffer, chunks, k);
      buffer := buffer + chunks[k];
      k := k + 1;
    }
  }

  /** A token extends the lines handled so far by itself, if non-empty; an
      empty token has no effect. */
  lemma ApplyLinesSnoc(m: map<string, Transfers.Transfer>, id: string, done: seq<string>, line: string)
    ensures ApplyLines(m, id, done + NonEmpty(line)) == ApplyLine(ApplyLines(m, id, done), id, line)
  {
    if line == [] {
      assert done + [] == done;
    } else {
      assert (done + [line])[..|done|] == done;
    }
  }

  /** Reading the next chunk moves it from the unread input to the buffer. */
  lemma ReadChunk(buffer: string, chunks: seq<string>, k: nat)
    requires k < |chunks|
    ensures buffer + Concat(chunks[k..]) == (buffer + chunks[k]) + Concat(chunks[k + 1..])
  {
    assert chunks[k..][1..] == chunks[k + 1..];
    AppendAssoc(buffer, chunks[k], Concat(chunks[k + 1..]));
  }

  /** One token from the split function: skipped when empty, handled
      otherwise; the token leaves the buffer and joins the lines handled. */
  method HandleToken(buffer: string, atEOF: bool, ghost unread: string,
                     ghost start: map<string, Transfers.Transfer>, ghost done: seq<string>,
                     transferID: string, mgr: Transfers.Manager)
    returns (rest: string, ghost done': seq<string>)
    requires Split(buffer, atEOF).token.Some?
    requires atEOF ==> unread == []
    requires mgr.transfers == ApplyLines(start, transferID, done)
    modifies mgr`transfers
    ensures |rest| < |buffer|
    ensures done' + Lines(rest + unread) == done + Lines(buffer + unread)
    ensures mgr.transfers == ApplyLines(start, transferID, done')
  {
    var r := Split(buffer, atEOF);
    var line := r.token.value;
    ScanStep(buffer, atEOF, unread);
    rest := buffer[r.advance..];
    AppendAssoc(done, NonEmpty(line), Lines(rest + unread));
    ApplyLinesSnoc(start, transferID, done, line);
    if line != [] {
      HandleLine(line, transferID, mgr);
    }
    done' := done + NonEmpty(line);
  }

  /** The body of the scanning loop for one non-empty line: the numbers of a
      matching line go to UpdateProgress; any other line is ignored. */
  method HandleLine(line: string, transferID: string, mgr: Transfers.Manager)
    modifies mgr`transfers
    ensures mgr.transfers == ApplyLine(old(mgr.transfers), transferID, line)
  {
    var report := LineProgress(line);
    if report.Some? {
      var p := report.value;
      mgr.UpdateProgress(transferID, p.percent, p.copied, p.total);
    }
  }

  // =========================================================================
  // The argument vector (Execute, rclone.go:62-83)
  // =========================================================================

  /** The rclone verbs (rclone.go:17-28); any other text may be passed too. */
  const RcloneCopy: string := "copy"
  const RcloneCopyTo: string := "copyto"
  const RcloneMove: string := "move"
  const RcloneMoveTo: string := "moveto"
  const RcloneSync: string := "sync"

  /** RcloneOptions (rclone.go:30-45), without the cancellation context. */
  datatype RcloneOptions = RcloneOptions(
    command: string,
    source: string,
    destination: string,
    flags: seq<string>,
    statsInterval: string,
    dryRun: bool)

  /** The stats interval Execute asks for: the one set, or "500ms". */
  function StatsInterval(opts: RcloneOptions): (interval: string)
    ensures opts.statsInterval == [] ==> interval == "500ms"
    ensures opts.statsInterval != [] ==> interval == opts.statsInterval
  {
    if opts.statsInterval == "" then "500ms" else opts.statsInterval
  }

  /** The arguments Execute passes to rclone, laid out: the verb, "-v",
      "--stats" with the interval, "--dry-run" exactly when asked for, the
      extra flags in their order, and source and destination last. */
  function ExecuteArgs(opts: RcloneOptions): (args: seq<string>)
    ensures var f := if opts.dryRun then 5 else 4;
            && |args| == f + |opts.flags| + 2
            && args[..4] == [opts.command, "-v", "--stats", StatsInterval(opts)]
            && (opts.dryRun ==> args[4] == "--dry-run")
            && args[f..f + |opts.flags|] == opts.flags
            && args[|args| - 2..] == [opts.source, opts.destination]
  {
    var head := [opts.command, "-v", "--stats", StatsInterval(opts)] + (if opts.dryRun then ["--dry-run"] else []);
    var args := head + opts.flags + [opts.source, opts.destination];
    assert args[..4] == head[..4];
    assert args[|head|..|head| + |opts.flags|] == opts.flags;
    args
  }

  /** Execute's building of the argument vector (rclone.go:61-84). */
  method BuildArgs(opts: RcloneOptions) returns (args: seq<string>)
    ensures args == ExecuteArgs(opts)
  {
    args := [opts.command, "-v"];
    var statsInterval := opts.statsInterval;
    if statsInterval == "" {
      statsInterval := "500ms";
    }
    args := args + ["--stats", statsInterval];
    if opts.dryRun {
      args := args + ["--dry-run"];
    }
    args := args + opts.flags;
    args := args + [opts.source, opts.destination];
  }
}
