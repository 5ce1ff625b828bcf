/** Byte-offset log paging (GetContainerLogs) over a file that grows by appends. */
module Logs {
  import opened Strings

  // ---------- Cursors ----------

  const MAX_INT64 := 9223372036854775807

  predicate IsDigit(c: char) {
    '0' <= c <= '9'
  }

  function DigitValue(c: char): (d: nat)
    requires IsDigit(c)
    ensures d < 10
  {
    c as int - '0' as int
  }

  function Digit(d: nat): (c: char)
    requires d < 10
    ensures IsDigit(c) && DigitValue(c) == d
  {
    ('0' as int + d) as char
  }

  function FormatInt(n: nat): (s: string)
    ensures s != []
  {
    (if n < 10 then [] else FormatInt(n / 10)) + [Digit(n % 10)]
  }

  predicate AllDigits(s: string) {
    forall i :: 0 <= i < |s| ==> IsDigit(s[i])
  }

  function DecimalValue(s: string): nat
    requires AllDigits(s)
  {
    if s == [] then 0 else 10 * DecimalValue(s[..|s| - 1]) + DigitValue(s[|s| - 1])
  }

  datatype Parsed = NoInt | Int(value: int)

  /** strconv.ParseInt(s, 10, 64): an optional sign, digits, and the range of the type. */
  function ParseInt(s: string): Parsed {
    var body := if s != [] && (s[0] == '+' || s[0] == '-') then s[1..] else s;
    if body == [] || !AllDigits(body) then NoInt
    else
      var magnitude: int := DecimalValue(body);
      var v := if s[0] == '-' then -magnitude else magnitude;
      if -MAX_INT64 - 1 <= v <= MAX_INT64 then Int(v) else NoInt
  }

  lemma AppendDigit(s: string, d: nat)
    requires AllDigits(s) && d < 10
    ensures AllDigits(s + [Digit(d)]) && DecimalValue(s + [Digit(d)]) == 10 * DecimalValue(s) + d
  {
    var t := s + [Digit(d)];
    assert t[..|t| - 1] == s && t[|t| - 1] == Digit(d);
  }

  lemma {:induction false} FormatDigits(n: nat)
    ensures AllDigits(FormatInt(n)) && DecimalValue(FormatInt(n)) == n
  {
    if n < 10 {
      AppendDigit([], n);
    } else {
      FormatDigits(n / 10);
      AppendDigit(FormatInt(n / 10), n % 10);
    }
  }

  lemma CursorRoundTrip(n: nat)
    requires n <= MAX_INT64
    ensures ParseInt(FormatInt(n)) == Int(n)
  {
    FormatDigits(n);
    assert IsDigit(FormatInt(n)[0]);
  }

  /** Digits, with a sign or without, in the range of a signed 64-bit number. */
  lemma ParseIntDigits(d: string)
    requires d != [] && AllDigits(d)
    ensures ParseInt(d) == if DecimalValue(d) <= 0x7FFF_FFFF_FFFF_FFFF then Int(DecimalValue(d)) else NoInt
    ensures ParseInt("+" + d) == ParseInt(d)
    ensures ParseInt("-" + d) == if DecimalValue(d) <= 0x8000_0000_0000_0000 then Int(0 - DecimalValue(d)) else NoInt
  {
    assert IsDigit(d[0]) && ("+" + d)[1..] == d && ("-" + d)[1..] == d;
  }

  /** A number, and how it may be written. */
  ghost predicate Written(s: string, d: string) {
    d != [] && AllDigits(d) && (s == d || s == "+" + d || s == "-" + d)
  }

  lemma ParseIntOnlyDigits(s: string)
    requires ParseInt(s).Int?
    ensures exists d :: Written(s, d)
  {
    var body := if s[0] == '+' || s[0] == '-' then s[1..] else s;
    assert s[0] == '+' ==> s == "+" + body;
    assert s[0] == '-' ==> s == "-" + body;
    assert Written(s, body);
  }

  /** Where a cursor points: the start when it is blank. */
  function Offset(cursor: string): Parsed {
    if TrimSpace(cursor) == "" then Int(0) else ParseInt(cursor)
  }

  predicate CursorOk(cursor: string) {
    Offset(cursor).Int? && 0 <= Offset(cursor).value
  }

  lemma WrittenParses(s: string, d: string)
    requires Written(s, d)
    ensures s == "-" + d ==>
      ParseInt(s) == if DecimalValue(d) <= 0x8000_0000_0000_0000 then Int(0 - DecimalValue(d)) else NoInt
    ensures s != "-" + d ==>
      ParseInt(s) == if DecimalValue(d) <= 0x7FFF_FFFF_FFFF_FFFF then Int(DecimalValue(d)) else NoInt
  {
    ParseIntDigits(d);
  }

  /** The number that a good cursor writes: from 0 to 2^63 - 1, and after a minus sign only 0. */
  ghost predicate Writes(cursor: string, d: string) {
    Written(cursor, d) && DecimalValue(d) <= if cursor == "-" + d then 0 else 0x7FFF_FFFF_FFFF_FFFF
  }

  /** A cursor is good when it is blank or writes such a number, and that is where it points. */
  lemma CursorMeans(cursor: string)
    ensures CursorOk(cursor) <==> Blank(cursor) || exists d :: Writes(cursor, d)
    ensures Blank(cursor) ==> Offset(cursor) == Int(0)
    ensures forall d :: !Blank(cursor) && Writes(cursor, d) ==> Offset(cursor) == Int(DecimalValue(d))
  {
    if CursorOk(cursor) && !Blank(cursor) {
      ParseIntOnlyDigits(cursor);
      var d :| Written(cursor, d);
      WrittenParses(cursor, d);
      assert Writes(cursor, d);
    }
    forall d | Writes(cursor, d) ensures ParseInt(cursor) == Int(DecimalValue(d)) {
      WrittenParses(cursor, d);
    }
  }

  // ---------- Lines ----------

  /** strings.TrimRight with both line-end characters. */
  function TrimEnds(s: string): string {
    if s != [] && (s[|s| - 1] == '\r' || s[|s| - 1] == '\n') then TrimEnds(s[..|s| - 1]) else s
  }

  /** How much ReadString('\n') takes: up to and including the first newline, or everything. */
  function LineLength(s: string): (n: nat)
    ensures n <= |s|
    ensures s != [] ==> 0 < n
    ensures forall k :: 0 <= k < n - 1 ==> s[k] != '\n'
    ensures n < |s| ==> s[n - 1] == '\n'
  {
    if s == [] then 0 else if s[0] == '\n' then 1 else 1 + LineLength(s[1..])
  }

  function Lines(s: string): seq<string>
    decreases |s|
  {
    if s == [] then [] else [TrimEnds(s[..LineLength(s)])] + Lines(s[LineLength(s)..])
  }

  predicate EndsLine(s: string) {
    s == [] || s[|s| - 1] == '\n'
  }

  lemma {:induction false} LineLengthConcat(a: string, b: string)
    requires a != []
    ensures LineLength(a + b) ==
      if LineLength(a) < |a| || a[|a| - 1] == '\n' then LineLength(a) else |a| + LineLength(b)
  {
    if a[0] != '\n' {
      assert (a + b)[1..] == a[1..] + b;
      if a[1..] == [] {
        assert (a + b)[1..] == b;
      } else {
        LineLengthConcat(a[1..], b);
      }
    }
  }

  lemma FirstLineInside(a: string, b: string)
    requires a != [] && LineLength(a) < |a|
    ensures Lines(a + b) == [TrimEnds(a[..LineLength(a)])] + Lines(a[LineLength(a)..] + b)
  {
    LineLengthConcat(a, b);
    var n, whole := LineLength(a), a + b;
    assert whole[..n] == a[..n] && whole[n..] == a[n..] + b;
  }

  lemma FirstLineWhole(a: string, b: string)
    requires a != [] && LineLength(a) == |a| && a[|a| - 1] == '\n'
    ensures Lines(a + b) == [TrimEnds(a)] + Lines(b)
  {
    LineLengthConcat(a, b);
    var whole := a + b;
    assert whole[..|a|] == a && whole[|a|..] == b;
  }

  lemma FirstLineCut(a: string, b: string)
    requires a != [] && LineLength(a) == |a| && a[|a| - 1] != '\n' && b != []
    ensures |Lines(a + b)| == |Lines(b)|
  {
    LineLengthConcat(a, b);
    var whole := a + b;
    assert whole[LineLength(whole)..] == b[LineLength(b)..];
  }

  lemma OneLine(line: string)
    requires line != [] && LineLength(line) == |line|
    ensures Lines(line) == [TrimEnds(line)]
  {
    assert line[..|line|] == line && line[|line|..] == [];
  }

  ghost predicate Splits(a: string, b: string) {
    && (EndsLine(a) ==> Lines(a + b) == Lines(a) + Lines(b))
    && |Lines(a)| + |Lines(b)| == |Lines(a + b)| + if EndsLine(a) || b == [] then 0 else 1
  }

  lemma SplitsEmptyFirst(b: string)
    ensures Splits("", b)
  {
    assert "" + b == b;
  }

  lemma SplitsEmptySecond(a: string)
    ensures Splits(a, "")
  {
    assert a + "" == a;
    assert Lines(a) + [] == Lines(a);
  }

  lemma SplitsOneLine(a: string, b: string)
    requires a != [] && b != [] && LineLength(a) == |a|
    ensures Splits(a, b)
  {
    OneLine(a);
    if EndsLine(a) {
      FirstLineWhole(a, b);
    } else {
      FirstLineCut(a, b);
    }
  }

  lemma RestEnds(a: string, n: nat)
    requires n < |a|
    ensures EndsLine(a[n..]) <==> EndsLine(a)
  {
    assert a[n..][|a[n..]| - 1] == a[|a| - 1];
  }

  lemma Prepended(first: seq<string>, a: seq<string>, b: seq<string>, ab: seq<string>)
    ensures ab == a + b ==> first + ab == (first + a) + b
    ensures |first + ab| - |first + a| == |ab| - |a|
  {
  }

  lemma LinesUnfold(a: string)
    requires a != []
    ensures Lines(a) == [TrimEnds(a[..LineLength(a)])] + Lines(a[LineLength(a)..])
  {
  }

  lemma SplitsLater(a: string, b: string)
    requires a != [] && b != [] && LineLength(a) < |a| && Splits(a[LineLength(a)..], b)
    ensures Splits(a, b)
  {
    var n := LineLength(a);
    FirstLineInside(a, b);
    LinesUnfold(a);
    RestEnds(a, n);
    Prepended([TrimEnds(a[..n])], Lines(a[n..]), Lines(b), Lines(a[n..] + b));
  }

  /** Splitting at a line boundary splits the lines; splitting inside a line makes one line more. */
  lemma {:induction false} LinesConcat(a: string, b: string)
    ensures EndsLine(a) ==> Lines(a + b) == Lines(a) + Lines(b)
    ensures |Lines(a)| + |Lines(b)| == |Lines(a + b)| + if EndsLine(a) || b == [] then 0 else 1
    decreases |a|
  {
    if a == [] {
      SplitsEmptyFirst(b);
    } else if b == [] {
      SplitsEmptySecond(a);
    } else if LineLength(a) < |a| {
      LinesConcat(a[LineLength(a)..], b);
      SplitsLater(a, b);
    } else {
      SplitsOneLine(a, b);
    }
  }

  // ---------- Lines and text, there and back ----------

  /** Without a line end inside or a carriage return at the end. */
  predicate Clean(line: string) {
    '\n' !in line && (line != [] ==> line[|line| - 1] != '\r')
  }

  /** Text of these lines, each ended the one way or the other. */
  function Text(lines: seq<string>, crlf: seq<bool>): string
    requires |crlf| == |lines|
  {
    if lines == [] then "" else lines[0] + (if crlf[0] then "\r\n" else "\n") + Text(lines[1..], crlf[1..])
  }

  lemma {:induction false} NoNewlineLength(line: string)
    requires '\n' !in line
    ensures LineLength(line) == |line|
  {
    if line == [] {
    } else {
      assert line[0] in line && forall c :: c in line[1..] ==> c in line;
      NoNewlineLength(line[1..]);
    }
  }

  lemma TrimmedEnd(line: string)
    requires Clean(line)
    ensures TrimEnds(line) == line && TrimEnds(line + "\n") == line && TrimEnds(line + "\r\n") == line
  {
    assert line != [] ==> line[|line| - 1] in line;
    assert (line + "\n")[..|line|] == line;
    assert (line + "\r\n")[..|line| + 1] == line + "\r" && (line + "\r")[..|line|] == line;
  }

  lemma EndedLine(line: string, crlf: bool)
    requires Clean(line)
    ensures Lines(line + if crlf then "\r\n" else "\n") == [line]
  {
    var body := line + if crlf then "\r" else "";
    var whole := line + if crlf then "\r\n" else "\n";
    assert whole == body + "\n";
    NoNewlineLength(body);
    if body == [] {
      assert whole == "\n";
    } else {
      LineLengthConcat(body, "\n");
    }
    OneLine(whole);
    TrimmedEnd(line);
  }

  /** Splitting undoes joining, whichever of the two line ends each line has. */
  lemma {:induction false} LinesOfText(lines: seq<string>, crlf: seq<bool>)
    requires |crlf| == |lines| && forall i :: 0 <= i < |lines| ==> Clean(lines[i])
    ensures Lines(Text(lines, crlf)) == lines
  {
    if lines == [] {
    } else {
      var first := lines[0] + if crlf[0] then "\r\n" else "\n";
      LinesOfText(lines[1..], crlf[1..]);
      EndedLine(lines[0], crlf[0]);
      LinesConcat(first, Text(lines[1..], crlf[1..]));
      assert lines == [lines[0]] + lines[1..];
    }
  }

  /** A last line that is not ended counts as a line. */
  lemma UnendedLine(line: string)
    requires Clean(line) && line != ""
    ensures Lines(line) == [line]
  {
    NoNewlineLength(line);
    OneLine(line);
    TrimmedEnd(line);
  }

  // ---------- One page ----------

  function ClampLimit(limit: int): (r: int)
    ensures 1 <= r <= 1000
  {
    if limit <= 0 then 100 else if limit > 1000 then 1000 else limit
  }

  datatype Reply = InvalidCursor | Page(lines: seq<string>, next: string, hasMore: bool)

  /**
    A page covers the bytes from its cursor to the next one; it stops at a line end with the limit reached, or at the
    end of the file.
   */
  ghost predicate IsChunk(file: string, from: nat, limit: int, lines: seq<string>, end: nat, hasMore: bool) {
    if |file| < from then end == from && lines == [] && !hasMore
    else
      && from <= end <= |file| && lines == Lines(file[from..end]) && |lines| <= limit
      && (hasMore <==> end < |file|)
      && (hasMore ==> from < end && file[end - 1] == '\n' && |lines| == limit)
  }

  /** A page that promises more is full: 100 lines by default, 1000 at most. */
  lemma PageLines(file: string, start: nat, limit: int, lines: seq<string>, end: nat, hasMore: bool)
    requires IsChunk(file, start, ClampLimit(limit), lines, end, hasMore)
    ensures var most := if limit <= 0 then 100 else if 1000 < limit then 1000 else limit;
      |lines| <= most && (hasMore ==> |lines| == most)
  {
  }

  method GetContainerLogs(file: string, cursor: string, limit: int) returns (r: Reply)
    requires |file| <= MAX_INT64
    ensures r.InvalidCursor? <==> !CursorOk(cursor)
    ensures r.Page? ==>
      && ParseInt(r.next).Int? && 0 <= ParseInt(r.next).value
      && IsChunk(file, Offset(cursor).value, ClampLimit(limit), r.lines, ParseInt(r.next).value, r.hasMore)
  {
    var max := limit;
    if max <= 0 {
      max := 100;
    }
    if max > 1000 {
      max := 1000;
    }
    var offset := 0;
    if TrimSpace(cursor) != "" {
      var v := ParseInt(cursor);
      if v.NoInt? || v.value < 0 {
        return InvalidCursor;
      }
      offset := v.value;
    }
    var lines, end, eof := ReadLines(file, offset, max);
    CursorRoundTrip(end);
    if eof {
      return Page(lines, FormatInt(end), false);
    }
    r := Page(lines, FormatInt(end), end < |file|);
  }

  ghost predicate ReadTo(file: string, offset: nat, lines: seq<string>, next: nat) {
    offset <= next <= |file| && lines == Lines(file[offset..next])
  }

  ghost predicate AtLineEnd(file: string, offset: nat, next: nat)
    requires offset <= next <= |file|
  {
    next == offset || file[next - 1] == '\n'
  }

  lemma {:induction false} LineOfPrefix(s: string)
    ensures LineLength(s[..LineLength(s)]) == LineLength(s)
  {
    if s != [] && s[0] != '\n' {
      LineOfPrefix(s[1..]);
      assert s[..LineLength(s)][1..] == s[1..][..LineLength(s[1..])];
    }
  }

  /** ReadString('\n') from a position: where it stops, and whether it met the end of the file first. */
  method ReadString(file: string, at: nat) returns (end: nat, eof: bool)
    requires at <= |file|
    ensures end == at + LineLength(file[at..]) && at <= end <= |file|
    ensures end == at <==> at == |file|
    ensures eof <==> end == at || file[end - 1] != '\n'
  {
    end := at + LineLength(file[at..]);
    eof := end == at || file[end - 1] != '\n';
  }

  lemma FirstLine(file: string, next: nat, end: nat)
    requires next < |file| && end == next + LineLength(file[next..])
    ensures next < end <= |file| && Lines(file[next..end]) == [TrimEnds(file[next..end])]
    ensures file[end - 1] != '\n' ==> end == |file|
  {
    var rest := file[next..];
    assert rest[..end - next] == file[next..end] && rest[end - next - 1] == file[end - 1];
    LineOfPrefix(rest);
    OneLine(file[next..end]);
  }

  /** What one more ReadString adds to the lines read so far. */
  lemma OneMore(file: string, offset: nat, lines: seq<string>, next: nat, end: nat)
    requires ReadTo(file, offset, lines, next) && AtLineEnd(file, offset, next)
    requires next < |file| && end == next + LineLength(file[next..])
    ensures next < end <= |file| && ReadTo(file, offset, lines + [TrimEnds(file[next..end])], end)
    ensures file[end - 1] != '\n' ==> end == |file|
  {
    FirstLine(file, next, end);
    Joins(file, offset, next, end);
  }

  lemma SliceJoin(file: string, i: nat, j: nat, k: nat)
    requires i <= j <= k <= |file|
    ensures file[i..k] == file[i..j] + file[j..k]
    ensures i < j ==> file[i..j][j - i - 1] == file[j - 1]
  {
  }

  lemma Joins(file: string, offset: nat, next: nat, end: nat)
    requires offset <= next <= end <= |file| && AtLineEnd(file, offset, next)
    ensures Lines(file[offset..end]) == Lines(file[offset..next]) + Lines(file[next..end])
  {
    SliceJoin(file, offset, next, end);
    JoinedLines(file[offset..next], file[next..end], file[offset..end]);
  }

  lemma JoinedLines(a: string, b: string, whole: string)
    requires EndsLine(a) && whole == a + b
    ensures Lines(whole) == Lines(a) + Lines(b)
  {
    LinesConcat(a, b);
  }

  /** The read loop; eof tells that ReadString reported the end of the file. */
  method ReadLines(file: string, offset: nat, limit: int) returns (lines: seq<string>, next: nat, eof: bool)
    requires 1 <= limit
    ensures next <= if offset <= |file| then |file| else offset
    ensures IsChunk(file, offset, limit, lines, next, !eof && next < |file|)
  {
    lines, next, eof := [], offset, false;
    if |file| < offset {
      return [], offset, true;
    }
    assert file[offset..offset] == [];
    while |lines| < limit
      invariant ReadTo(file, offset, lines, next) && AtLineEnd(file, offset, next)
      invariant |lines| <= limit && !eof && (lines != [] ==> offset < next)
      decreases limit - |lines|
    {
      var end;
      end, eof := ReadString(file, next);
      if next < end {
        OneMore(file, offset, lines, next, end);
        lines := lines + [TrimEnds(file[next..end])];
        next := end;
      }
      if eof {
        return;
      }
    }
  }

  // ---------- Following the cursor over a growing file ----------

  datatype Visit = Visit(file: string, limit: int, lines: seq<string>, end: nat, hasMore: bool)

  function End(visits: seq<Visit>): nat {
    if visits == [] then 0 else visits[|visits| - 1].end
  }

  /** Requests from the start of the file, each with the cursor of the one before, while the file only grows. */
  ghost predicate IsSession(visits: seq<Visit>) {
    visits == [] || (
      var front, v := visits[..|visits| - 1], visits[|visits| - 1];
      && IsSession(front)
      && (front != [] ==> front[|front| - 1].file <= v.file)
      && IsChunk(v.file, End(front), ClampLimit(v.limit), v.lines, v.end, v.hasMore))
  }

  function Collected(visits: seq<Visit>): seq<string> {
    if visits == [] then [] else Collected(visits[..|visits| - 1]) + visits[|visits| - 1].lines
  }

  /** The bytes each request covered, put together. */
  ghost function Bytes(visits: seq<Visit>): string
    requires IsSession(visits)
  {
    if visits == [] then []
    else
      var front, v := visits[..|visits| - 1], visits[|visits| - 1];
      Bytes(front) + if End(front) <= v.end <= |v.file| then v.file[End(front)..v.end] else []
  }

  /**
    The byte ranges are adjacent and cover the file up to the cursor, and more is promised exactly when more is there.
   */
  lemma {:induction false} SessionTiles(visits: seq<Visit>)
    requires IsSession(visits) && visits != []
    ensures var v := visits[|visits| - 1];
      && v.end <= |v.file| && End(visits[..|visits| - 1]) <= v.end
      && Bytes(visits) == v.file[..v.end]
      && (v.hasMore <==> v.end < |v.file|)
  {
    var front, v := visits[..|visits| - 1], visits[|visits| - 1];
    if front != [] {
      SessionTiles(front);
      assert front[|front| - 1].file[..End(front)] == v.file[..End(front)];
    }
    assert End(front) <= v.end <= |v.file|;
    SliceJoin(v.file, 0, End(front), v.end);
    assert Bytes(front) == v.file[0..End(front)];
  }

  /** A cursor inside a line of a file that has something behind it. */
  predicate InsideLine(file: string, from: nat) {
    0 < from < |file| && file[from - 1] != '\n'
  }

  /** How many requests were made with such a cursor. */
  function Breaks(visits: seq<Visit>): nat {
    if visits == [] then 0
    else
      var front, v := visits[..|visits| - 1], visits[|visits| - 1];
      Breaks(front) + if InsideLine(v.file, End(front)) then 1 else 0
  }

  /** Seen from the bytes: the request goes on inside a line and finds something. */
  lemma InsideLineMeans(v: Visit, from: nat)
    requires from <= |v.file| && IsChunk(v.file, from, ClampLimit(v.limit), v.lines, v.end, v.hasMore)
    ensures InsideLine(v.file, from) <==> !EndsLine(v.file[..from]) && v.file[from..v.end] != []
  {
    if 0 < from {
      assert v.file[..from][from - 1] == v.file[from - 1];
    }
  }

  lemma OnePageMore(before: string, chunk: string, lines: seq<string>, breaks: nat)
    requires |lines| == |Lines(before)| + breaks && (breaks == 0 ==> lines == Lines(before))
    ensures var more := breaks + if EndsLine(before) || chunk == [] then 0 else 1;
      && |lines + Lines(chunk)| == |Lines(before + chunk)| + more
      && (more == 0 ==> lines + Lines(chunk) == Lines(before + chunk))
  {
    LinesConcat(before, chunk);
    if chunk == [] {
      assert before + chunk == before;
    }
  }

  lemma FrontBytes(visits: seq<Visit>)
    requires IsSession(visits) && visits != []
    ensures var front, v := visits[..|visits| - 1], visits[|visits| - 1];
      && End(front) <= v.end <= |v.file| && Bytes(front) == v.file[..End(front)]
      && Bytes(visits) == Bytes(front) + v.file[End(front)..v.end]
  {
    SessionTiles(visits);
    var front, v := visits[..|visits| - 1], visits[|visits| - 1];
    if front != [] {
      SessionTiles(front);
      assert front[|front| - 1].file[..End(front)] == v.file[..End(front)];
    }
  }

  /**
    Every request made inside a line splits that line in two, and nothing else differs from splitting the file at
    once.
   */
  lemma {:induction false} PagesAndLines(visits: seq<Visit>)
    requires IsSession(visits)
    ensures |Collected(visits)| == |Lines(Bytes(visits))| + Breaks(visits)
    ensures Breaks(visits) == 0 ==> Collected(visits) == Lines(Bytes(visits))
  {
    if visits == [] {
    } else {
      var front, v := visits[..|visits| - 1], visits[|visits| - 1];
      PagesAndLines(front);
      FrontBytes(visits);
      InsideLineMeans(v, End(front));
      OnePageMore(Bytes(front), v.file[End(front)..v.end], Collected(front), Breaks(front));
    }
  }

  /** The pages put together are the lines of the file exactly when no request was made with a cursor inside a line. */
  lemma PagesAreTheLines(visits: seq<Visit>)
    requires IsSession(visits)
    ensures Collected(visits) == Lines(Bytes(visits)) <==> Breaks(visits) == 0
  {
    PagesAndLines(visits);
  }

  lemma MoreMeansLineEnd(v: Visit, from: nat)
    requires IsChunk(v.file, from, ClampLimit(v.limit), v.lines, v.end, v.hasMore) && v.hasMore
    ensures 0 < v.end <= |v.file| && EndsLine(v.file[..v.end])
  {
    SliceJoin(v.file, 0, v.end, |v.file|);
  }

  /**
    A page that promises more ends on a line boundary, so only a page that reached the end of an unfinished file can
    break a line.
   */
  lemma MoreEndsLine(visits: seq<Visit>)
    requires IsSession(visits) && visits != [] && visits[|visits| - 1].hasMore
    ensures EndsLine(Bytes(visits))
  {
    SessionTiles(visits);
    MoreMeansLineEnd(visits[|visits| - 1], End(visits[..|visits| - 1]));
  }

  lemma SmallLines()
    ensures Lines("ab") == ["ab"] && Lines("\n") == [""] && Lines("ab\n") == ["ab"]
  {
    assert LineLength("b") == 1 && LineLength("b\n") == 2;
    OneLine("ab");
    OneLine("\n");
    OneLine("ab\n");
    assert "ab\n"[..2] == "ab" && "\n"[..0] == "";
  }

  lemma SessionNext(front: seq<Visit>, v: Visit)
    requires IsSession(front) && (front != [] ==> front[|front| - 1].file <= v.file)
    requires IsChunk(v.file, End(front), ClampLimit(v.limit), v.lines, v.end, v.hasMore)
    ensures IsSession(front + [v]) && Collected(front + [v]) == Collected(front) + v.lines
    ensures Breaks(front + [v]) == Breaks(front) + if InsideLine(v.file, End(front)) then 1 else 0
  {
    var visits := front + [v];
    assert visits[..|visits| - 1] == front && visits[|visits| - 1] == v;
  }

  /** A file read before its first line is finished: the rest of the line comes as a line of its own. */
  lemma BrokenLineWitness() returns (visits: seq<Visit>)
    ensures IsSession(visits) && Breaks(visits) == 1
    ensures Collected(visits) == ["ab", ""] && Bytes(visits) == "ab\n" && Lines(Bytes(visits)) == ["ab"]
  {
    SmallLines();
    var first, second := Visit("ab", 10, ["ab"], 2, false), Visit("ab\n", 10, [""], 3, false);
    assert "ab"[0..2] == "ab" && "ab\n"[2..3] == "\n" && "ab\n"[..3] == "ab\n";
    SessionNext([], first);
    assert [] + [first] == [first] && [] + first.lines == first.lines;
    SessionNext([first], second);
    visits := [first] + [second];
    SessionTiles(visits);
  }
}
