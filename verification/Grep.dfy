/** The streaming line matcher of ece391grep.c.

    A file is read piecewise into a fixed buffer, lines are cut out of it in place, and a partial line
    at the end of the buffer is moved to the front before the next read.  `ReportIsExact` says when that
    prints what a matcher over the whole file would print.
 */
module Grep {
  import opened Bytes

  const BUFSIZE := 1024

  // ----- the whole-file reference -----

  /** The lines of a file; a last line without newline counts, an empty one does not. */
  function Lines(file: seq<byte>): seq<seq<byte>>
    decreases |file|
  {
    if file == [] then []
    else
      var k := NewlineFrom(file, 0);
      if k == |file| then [file] else [file[..k]] + Lines(file[k + 1..])
  }

  /** The lines of a file with every 1024 bytes without a newline taken as a line of their own. */
  function Segments(file: seq<byte>): seq<seq<byte>>
    decreases |file|
  {
    if file == [] then []
    else
      var k := NewlineFrom(file, 0);
      if k >= BUFSIZE then [file[..BUFSIZE]] + Segments(file[BUFSIZE..])
      else if k == |file| then [file]
      else [file[..k]] + Segments(file[k + 1..])
  }

  ghost predicate OccursAt(line: seq<byte>, s: seq<byte>, i: nat) {
    i + |s| <= |line| && line[i..i + |s|] == s
  }

  ghost predicate Contains(line: seq<byte>, s: seq<byte>) {
    exists i :: OccursAt(line, s, i)
  }

  /** The pattern bytes that can start a match: the first byte is compared as a signed char. */
  predicate Searchable(s: seq<byte>) {
    |s| > 0 && s[0] < 128
  }

  function Report(fname: seq<byte>, line: seq<byte>): seq<byte> {
    fname + [COLON] + line + [NEWLINE]
  }

  /** The report of the lines that contain the pattern, in order. */
  ghost function Matches(s: seq<byte>, fname: seq<byte>, lines: seq<seq<byte>>): seq<byte> {
    if lines == [] then []
    else
      (if Searchable(s) && Contains(lines[0], s) then Report(fname, lines[0]) else [])
      + Matches(s, fname, lines[1..])
  }

  // ----- string functions -----

  /** The value of `s[0]` for a C string of (signed) chars. */
  function FirstChar(s: seq<byte>): int {
    if s == [] then NUL else if s[0] < 128 then s[0] else s[0] as int - 256
  }

  /** A NUL-terminated text lies at `off` and ends at `end`. */
  ghost predicate TextAt(data: array<byte>, off: nat, end: nat)
    reads data
  {
    off <= end < data.Length && data[end] == NUL && forall k :: off <= k < end ==> data[k] != NUL
  }

  /** ece391_strncmp of the text at `off` with a whole pattern. */
  method Strncmp(data: array<byte>, off: nat, s: seq<byte>, ghost end: nat) returns (r: int)
    requires TextAt(data, off, end) && |s| > 0 && NUL !in s
    ensures r == 0 <==> OccursAt(data[off..end], s, 0)
  {
    var i := 0;
    while data[off + i] == s[i]
      invariant 0 <= i < |s| && off + i <= end
      invariant forall k :: 0 <= k < i ==> data[off + k] == s[k]
      decreases |s| - i
    {
      if data[off + i] == NUL || i + 1 == |s| {
        assert s[i] != NUL;
        assert data[off..end][0..|s|] == s;
        return 0;
      }
      i := i + 1;
    }
    r := data[off + i] as int - s[i] as int;
  }

  /** What ece391_fdputs writes of the text at `off`. */
  method Fdputs(data: array<byte>, off: nat, ghost end: nat) returns (out: seq<byte>)
    requires TextAt(data, off, end)
    ensures out == data[off..end]
  {
    var len := 0;
    while data[off + len] != NUL
      invariant off + len <= end
      decreases end - off - len
    {
      len := len + 1;
    }
    out := data[off..off + len];
  }

  /** The search loop: prints the line at `lineStart` once if it contains the pattern. */
  method SearchLine(data: array<byte>, lineStart: nat, lineEnd: nat, s: seq<byte>, fname: seq<byte>)
    returns (out: seq<byte>)
    requires TextAt(data, lineStart, lineEnd) && NUL !in s
    ensures out == Matches(s, fname, [data[lineStart..lineEnd]])
  {
    var line := data[lineStart..lineEnd];
    ghost var none: seq<seq<byte>> := [];
    assert [line][1..] == none;
    var check := lineStart;
    out := [];
    while check < lineEnd
      invariant lineStart <= check <= lineEnd
      invariant Searchable(s) ==> forall i :: 0 <= i < check - lineStart ==> !OccursAt(line, s, i)
    {
      if FirstChar(s) == data[check] {
        var r := Strncmp(data, check, s, lineEnd);
        assert OccursAt(data[check..lineEnd], s, 0) <==> OccursAt(line, s, check - lineStart) by {
          Shifted(line, s, check - lineStart);
          assert line[check - lineStart..] == data[check..lineEnd];
        }
        if r == 0 {
          var text := Fdputs(data, lineStart, lineEnd);
          out := fname + [COLON] + text + [NEWLINE];
          return;
        }
      } else if Searchable(s) && OccursAt(line, s, check - lineStart) {
        assert line[check - lineStart..check - lineStart + |s|][0] == s[0];
      }
      check := check + 1;
    }
  }

  lemma {:induction false} Shifted(line: seq<byte>, s: seq<byte>, i: nat)
    requires i <= |line|
    ensures OccursAt(line[i..], s, 0) <==> OccursAt(line, s, i)
  {
    if i + |s| <= |line| {
      assert line[i..][0..|s|] == line[i..i + |s|];
    }
  }

  /** ece391_strcpy of the text at `src` to the front of the same buffer. */
  method MoveToFront(data: array<byte>, src: nat, ghost end: nat)
    requires 0 < src && TextAt(data, src, end)
    modifies data
    ensures data[..end - src] == old(data[src..end])
    ensures forall k :: end - src < k < data.Length ==> data[k] == old(data[k])
  {
    var i := 0;
    data[0] := data[src];
    while data[i] != NUL
      invariant src + i <= end && forall k :: 0 <= k <= i ==> data[k] == old(data[src + k])
      invariant forall k :: i < k < data.Length ==> data[k] == old(data[k])
      decreases end - i
    {
      i := i + 1;
      data[i] := data[src + i];
    }
    assert data[..end - src] == old(data[src..end]);
  }

  /** The scan for the end of the line at `lineStart`. */
  method FindLineEnd(data: array<byte>, lineStart: nat, last: nat) returns (lineEnd: nat)
    requires lineStart <= last < data.Length
    ensures lineStart <= lineEnd <= last && (lineEnd < last ==> data[lineEnd] == NEWLINE)
    ensures forall k :: lineStart <= k < lineEnd ==> data[k] != NEWLINE
  {
    lineEnd := lineStart;
    while lineEnd < last && NEWLINE != data[lineEnd]
      invariant lineStart <= lineEnd <= last && forall k :: lineStart <= k < lineEnd ==> data[k] != NEWLINE
    {
      lineEnd := lineEnd + 1;
    }
  }

  lemma {:induction false} MatchesHead(s: seq<byte>, fname: seq<byte>, line: seq<byte>, rest: seq<seq<byte>>)
    ensures Matches(s, fname, [line] + rest) == Matches(s, fname, [line]) + Matches(s, fname, rest)
  {
    var none: seq<seq<byte>> := [];
    assert ([line] + rest)[1..] == rest && [line][1..] == none;
  }

  /** The first segment of a file, given where its first line ends in what the buffer holds of it. */
  lemma {:induction false} FirstSegment(file: seq<byte>, n: nat, k: nat)
    requires k <= n <= |file| && n <= BUFSIZE && file != [] && (k < n || n == BUFSIZE || n == |file|)
    requires (forall i :: 0 <= i < k ==> file[i] != NEWLINE) && (k < n ==> file[k] == NEWLINE)
    ensures Segments(file) == [file[..k]] + Segments(file[if k < n then k + 1 else n..])
  {
    var j := NewlineFrom(file, 0);
    if k < n {
      NewlineUnique(file, k);
    } else {
      assert j >= k;
      if j < BUFSIZE {
        assert j == n == |file| && file[..n] == file && file[n..] == [];
      }
    }
  }

  // ----- the streaming matcher -----

  /** The buffer holds what lies between `done` and `pos` of the file, from position `at` on. */
  ghost predicate Holds(data: array<byte>, at: nat, last: nat, file: seq<byte>, done: nat, pos: nat)
    reads data
  {
    && data.Length == BUFSIZE + 1 && (data[BUFSIZE] != NEWLINE || |file| <= BUFSIZE)
    && done <= pos <= |file| && at <= last <= BUFSIZE && last - at == pos - done
    && forall k :: at <= k < last ==> data[k] == file[done + k - at]
  }

  /** What is still to be printed when everything before `done` is. */
  ghost function Rest(s: seq<byte>, fname: seq<byte>, file: seq<byte>, done: nat): seq<byte>
    requires done <= |file|
  {
    Matches(s, fname, Segments(file[done..]))
  }

  /** Cuts out and searches the line at `lineStart`; the file is done up to `next` afterwards. */
  method PrintLine(data: array<byte>, lineStart: nat, lineEnd: nat, last: nat, s: seq<byte>, fname: seq<byte>,
                   ghost file: seq<byte>, ghost done: nat, ghost pos: nat)
    returns (out: seq<byte>, ghost next: nat)
    requires Holds(data, lineStart, last, file, done, pos) && NUL !in s && NUL !in file
    requires lineStart <= lineEnd <= last && (lineEnd < last ==> data[lineEnd] == NEWLINE)
    requires forall k :: lineStart <= k < lineEnd ==> data[k] != NEWLINE
    requires lineEnd == last ==> (lineStart == 0 && last == BUFSIZE) || pos == |file|
    modifies data
    ensures next == if lineEnd < last then done + lineEnd - lineStart + 1 else pos
    ensures lineEnd < last ==> Holds(data, lineEnd + 1, last, file, next, pos)
    ensures next <= |file| && (data[BUFSIZE] != NEWLINE || |file| <= BUFSIZE)
    ensures out + Rest(s, fname, file, next) == Rest(s, fname, file, done)
  {
    hide Segments, Matches;
    ghost var k, n := lineEnd - lineStart, last - lineStart;
    ghost var rest := file[done..];
    assert forall i :: 0 <= i < n ==> rest[i] == data[lineStart + i];
    next := if lineEnd < last then done + k + 1 else pos;
    data[lineEnd] := NUL;
    out := SearchLine(data, lineStart, lineEnd, s, fname);
    assert data[lineStart..lineEnd] == rest[..k];
    LineDone(s, fname, rest, n, k);
    assert rest[if k < n then k + 1 else n..] == file[next..];
  }

  /** The first line of what is left of the file, and what is left after it. */
  lemma {:induction false} LineDone(s: seq<byte>, fname: seq<byte>, rest: seq<byte>, n: nat, k: nat)
    requires k <= n <= |rest| && n <= BUFSIZE && (k < n || n == BUFSIZE || n == |rest|)
    requires (forall i :: 0 <= i < k ==> rest[i] != NEWLINE) && (k < n ==> rest[k] == NEWLINE)
    ensures Matches(s, fname, [rest[..k]]) + Matches(s, fname, Segments(rest[if k < n then k + 1 else n..]))
         == Matches(s, fname, Segments(rest))
  {
    if rest == [] {
      EmptyLine(s, fname);
      assert rest[..k] == [];
    } else {
      FirstSegment(rest, n, k);
      MatchesHead(s, fname, rest[..k], Segments(rest[if k < n then k + 1 else n..]));
    }
  }

  lemma {:induction false} EmptyLine(s: seq<byte>, fname: seq<byte>)
    ensures Matches(s, fname, [[]]) == []
  {
    var none: seq<seq<byte>> := [];
    var empty: seq<byte> := [];
    assert [empty][1..] == none;
    assert Searchable(s) ==> !Contains(empty, s);
  }

  /** Moves the partial line at the end of the buffer to its front. */
  method Compact(data: array<byte>, lineStart: nat, last: nat, ghost file: seq<byte>, ghost done: nat, ghost pos: nat)
    returns (left: nat)
    requires Holds(data, lineStart, last, file, done, pos) && NUL !in file && lineStart > 0
    modifies data
    ensures left == last - lineStart && Holds(data, 0, left, file, done, pos)
  {
    data[last] := NUL;
    assert forall k :: lineStart <= k < last ==> data[k] == file[done + k - lineStart] && data[k] != NUL;
    MoveToFront(data, lineStart, last);
    left := last - lineStart;
    assert forall k :: 0 <= k < left ==> data[k] == data[..left][k];
  }

  /** The inner loop: prints the lines of a filled buffer and moves a partial last line to the front. */
  method SearchBuffer(data: array<byte>, filled: nat, cnt: nat, s: seq<byte>, fname: seq<byte>,
                      ghost file: seq<byte>, ghost start: nat, ghost pos: nat)
    returns (last: nat, out: seq<byte>, ghost done: nat)
    requires Holds(data, 0, filled, file, start, pos) && NUL !in s && NUL !in file
    requires filled == BUFSIZE || pos == |file|
    requires cnt == 0 ==> pos == |file|
    modifies data
    ensures Holds(data, 0, last, file, done, pos) && last < BUFSIZE && (cnt == 0 ==> last == 0)
    ensures out + Rest(s, fname, file, done) == Rest(s, fname, file, start)
  {
    hide Rest;
    last, out, done := filled, [], start;
    var lineStart := 0;
    while true
      invariant Holds(data, lineStart, last, file, done, pos) && last == filled
      invariant lineStart < last || lineStart == 0
      invariant out + Rest(s, fname, file, done) == Rest(s, fname, file, start)
      decreases last - lineStart
    {
      var lineEnd := FindLineEnd(data, lineStart, last);
      if NEWLINE != data[lineEnd] && 0 != cnt && lineStart != 0 {
        last := Compact(data, lineStart, lineEnd, file, done, pos);
        return;
      }
      var printed;
      printed, done := PrintLine(data, lineStart, lineEnd, last, s, fname, file, done, pos);
      out := out + printed;
      lineStart := lineEnd + 1;
      if lineStart >= last {
        last := 0;
        return;
      }
    }
  }

  /** A read of at most `n` bytes from a file at position `pos`, which fails if it reaches beyond `readable`. */
  method ReadInto(file: seq<byte>, readable: nat, pos: nat, data: array<byte>, off: nat, n: nat) returns (cnt: int)
    requires pos <= |file| && pos <= readable && n > 0 && off + n <= data.Length
    modifies data
    ensures var wanted := if n <= |file| - pos then n else |file| - pos;
      cnt == if pos + wanted <= readable then wanted else -1
    ensures forall k :: off <= k < off + cnt ==> data[k] == file[pos + k - off]
    ensures forall k :: 0 <= k < data.Length && !(off <= k < off + n) ==> data[k] == old(data[k])
    ensures cnt >= 0 ==> forall k :: off + cnt <= k < data.Length ==> data[k] == old(data[k])
  {
    cnt := 0;
    while cnt < n && pos + cnt < |file|
      invariant 0 <= cnt <= n && pos + cnt <= |file| && pos + cnt <= readable
      invariant forall k :: off <= k < off + cnt ==> data[k] == file[pos + k - off]
      invariant forall k :: 0 <= k < data.Length && !(off <= k < off + cnt) ==> data[k] == old(data[k])
    {
      if pos + cnt >= readable {
        return -1;
      }
      data[off + cnt] := file[pos + cnt];
      cnt := cnt + 1;
    }
  }

  /** What opening the file yields: its bytes, and how many of them lie before the first missing block. */
  datatype Lookup = Missing | Found(contents: seq<byte>, readable: nat)

  /** "file open failed" and a newline. */
  const OPEN_FAILED: seq<byte> := [102, 105, 108, 101, 32, 111, 112, 101, 110, 32, 102, 97, 105, 108, 101, 100, 10]

  /** do_one_file.  The buffer starts with whatever the stack held; only its last byte
      matters, and only for files that do not fit the buffer.  A read that reaches a missing block fails:
      then the report of everything before `done` is printed, which is all but the last 1023 bytes that could
      be read. */
  method DoOneFile(s: seq<byte>, fname: seq<byte>, lookup: Lookup, data: array<byte>)
    returns (r: int, out: seq<byte>, ghost done: nat)
    requires NUL !in s && (lookup.Found? ==> NUL !in lookup.contents)
    requires data.Length == BUFSIZE + 1
    requires lookup.Found? ==> data[BUFSIZE] != NEWLINE || |lookup.contents| <= BUFSIZE
    modifies data
    ensures lookup.Missing? ==> r == -1 && out == OPEN_FAILED
    ensures lookup.Found? ==> (r == 0 <==> |lookup.contents| <= lookup.readable)
    ensures r == 0 ==> out == Matches(s, fname, Segments(lookup.contents))
    ensures r == 0 ==>
      (out == AllMatches(s, fname, Lines(lookup.contents)) <==> Handled(s, Lines(lookup.contents)))
    ensures lookup.Found? && r != 0 ==>
      && r == -1 && done <= lookup.readable < done + BUFSIZE && done <= |lookup.contents|
      && exists printed :: out == printed + READ_FAILED
           && printed + Rest(s, fname, lookup.contents, done) == Matches(s, fname, Segments(lookup.contents))
  {
    hide Rest, Segments, Matches, Lines, AllMatches, Handled;
    done := 0;
    if lookup.Missing? {
      return -1, OPEN_FAILED, done;
    }
    var file := lookup.contents;
    var pos: nat, last: nat := 0, 0;
    out := [];
    AllPrinted(s, fname, file);
    while true
      invariant Holds(data, 0, last, file, done, pos) && last < BUFSIZE
      invariant pos <= lookup.readable
      invariant out + Rest(s, fname, file, done) == Rest(s, fname, file, 0)
      decreases |file| - pos
    {
      var cnt := ReadInto(file, lookup.readable, pos, data, last, BUFSIZE - last);
      if -1 == cnt {
        return -1, out + READ_FAILED, done;
      }
      pos := pos + cnt;
      var printed;
      last, printed, done := SearchBuffer(data, last + cnt, cnt, s, fname, file, done, pos);
      out := out + printed;
      if 0 == cnt {
        break;
      }
    }
    ReportIsExact(s, fname, file);
    return 0, out, done;
  }

  lemma {:induction false} AllPrinted(s: seq<byte>, fname: seq<byte>, file: seq<byte>)
    ensures Rest(s, fname, file, |file|) == [] && Rest(s, fname, file, 0) == Matches(s, fname, Segments(file))
  {
    assert file[|file|..] == [] && file[0..] == file;
  }

  // ----- when the report is the report of the lines -----

  function FirstLine(file: seq<byte>): seq<byte> {
    file[..NewlineFrom(file, 0)]
  }

  /** What follows the first line and its newline. */
  function AfterLine(file: seq<byte>): seq<byte> {
    var k := NewlineFrom(file, 0);
    if k == |file| then [] else file[k + 1..]
  }

  /** A first line of up to 1024 bytes is reported as a line, also when its newline is cut off from it. */
  lemma {:induction false} LineFits(s: seq<byte>, fname: seq<byte>, file: seq<byte>)
    requires file != [] && |FirstLine(file)| <= BUFSIZE
    ensures Matches(s, fname, Segments(file))
         == Matches(s, fname, [FirstLine(file)]) + Matches(s, fname, Segments(AfterLine(file)))
  {
    hide Segments, Matches;
    var k := NewlineFrom(file, 0);
    var n := if |file| <= BUFSIZE then |file| else BUFSIZE;
    LineDone(s, fname, file, n, k);
    if k < n || n == |file| {
      assert file[if k < n then k + 1 else n..] == AfterLine(file);
    } else {
      var cut := file[k..];
      LineDone(s, fname, cut, 1, 0);
      EmptyLine(s, fname);
      assert cut[..0] == [] && cut[1..] == AfterLine(file);
    }
  }

  /** The pieces of a line that does not contain the pattern do not contain it. */
  lemma {:induction false} NoMatchInPieces(s: seq<byte>, fname: seq<byte>, file: seq<byte>)
    requires file != [] && !Contains(FirstLine(file), s)
    ensures Matches(s, fname, Segments(file)) == Matches(s, fname, Segments(AfterLine(file)))
    decreases |file|
  {
    var k := NewlineFrom(file, 0);
    if k <= BUFSIZE {
      LineFits(s, fname, file);
    } else {
      var line, piece, cut := file[..k], file[..BUFSIZE], file[BUFSIZE..];
      NewlineUnique(cut, k - BUFSIZE);
      assert FirstLine(cut) == line[BUFSIZE..] && AfterLine(cut) == AfterLine(file);
      assert piece == line[..BUFSIZE];
      NotInSlice(line, s, 0, BUFSIZE);
      NotInSlice(line, s, BUFSIZE, k);
      assert line[0..BUFSIZE] == piece && line[BUFSIZE..k] == FirstLine(cut);
      NoMatchInPieces(s, fname, cut);
      MatchesHead(s, fname, piece, Segments(cut));
    }
  }

  lemma {:induction false} Reslice(line: seq<byte>, lo: nat, hi: nat, i: nat, j: nat)
    requires lo <= hi <= |line| && i <= j <= hi - lo
    ensures line[lo..hi][i..j] == line[lo + i..lo + j]
  {
    var a, b := line[lo..hi][i..j], line[lo + i..lo + j];
    assert |a| == |b|;
    assert forall k :: 0 <= k < |a| ==> a[k] == line[lo..hi][i + k] == line[lo + (i + k)] == b[k];
    assert a == b;
  }

  lemma {:induction false} NotInSlice(line: seq<byte>, s: seq<byte>, lo: nat, hi: nat)
    requires lo <= hi <= |line| && !Contains(line, s)
    ensures !Contains(line[lo..hi], s)
  {
    forall i: nat ensures !OccursAt(line[lo..hi], s, i) {
      assert !OccursAt(line, s, lo + i);
      if i + |s| <= hi - lo {
        Reslice(line, lo, hi, i, i + |s|);
      }
    }
  }

  predicate Piece(seg: seq<byte>) {
    |seg| <= BUFSIZE && NEWLINE !in seg
  }

  lemma {:induction false} SegmentsArePieces(file: seq<byte>)
    ensures forall i :: 0 <= i < |Segments(file)| ==> Piece(Segments(file)[i])
    decreases |file|
  {
    if file != [] {
      var k := NewlineFrom(file, 0);
      SegmentsArePieces(if k >= BUFSIZE then file[BUFSIZE..] else AfterLine(file));
    }
  }

  /** A report that is not empty starts with the report of one piece. */
  lemma {:induction false} FirstReport(s: seq<byte>, fname: seq<byte>, segs: seq<seq<byte>>)
    returns (seg: seq<byte>, more: seq<byte>)
    requires forall i :: 0 <= i < |segs| ==> Piece(segs[i])
    ensures Piece(seg)
    ensures Matches(s, fname, segs) == [] || Matches(s, fname, segs) == Report(fname, seg) + more
  {
    seg, more := [], [];
    if segs != [] {
      if Searchable(s) && Contains(segs[0], s) {
        seg, more := segs[0], Matches(s, fname, segs[1..]);
      } else {
        seg, more := FirstReport(s, fname, segs[1..]);
      }
    }
  }

  /** The newline after a piece comes where a longer line still goes on. */
  lemma {:induction false} ReportsDiffer(fname: seq<byte>, line: seq<byte>, seg: seq<byte>, a: seq<byte>, b: seq<byte>)
    requires |line| > |seg| && NEWLINE !in line
    ensures Report(fname, line) + a != Report(fname, seg) + b
  {
    var k := |fname| + 1 + |seg|;
    assert (Report(fname, seg) + b)[k] == NEWLINE;
    assert (Report(fname, line) + a)[k] == line[|seg|];
  }

  /** From the first longer line that matches on, the report is not that of the lines. */
  lemma {:induction false} LongMatchLost(s: seq<byte>, fname: seq<byte>, file: seq<byte>)
    requires Searchable(s) && file != [] && |FirstLine(file)| > BUFSIZE && Contains(FirstLine(file), s)
    ensures Matches(s, fname, Segments(file)) != Matches(s, fname, Lines(file))
  {
    SegmentsArePieces(file);
    var seg, more := FirstReport(s, fname, Segments(file));
    var line := FirstLine(file);
    LinesHead(file);
    MatchesHead(s, fname, line, Lines(AfterLine(file)));
    OneMatch(s, fname, line);
    ReportsDiffer(fname, line, seg, Matches(s, fname, Lines(AfterLine(file))), more);
  }

  lemma {:induction false} OneMatch(s: seq<byte>, fname: seq<byte>, line: seq<byte>)
    ensures Matches(s, fname, [line]) == if Searchable(s) && Contains(line, s) then Report(fname, line) else []
  {
    var none: seq<seq<byte>> := [];
    assert [line][1..] == none;
  }

  lemma {:induction false} LinesHead(file: seq<byte>)
    requires file != []
    ensures Lines(file) == [FirstLine(file)] + Lines(AfterLine(file))
  {
    if NewlineFrom(file, 0) == |file| {
      assert file[..|file|] == file;
    }
  }

  /** Every line that contains the pattern fits the buffer. */
  ghost predicate MatchesFit(s: seq<byte>, lines: seq<seq<byte>>) {
    forall i :: 0 <= i < |lines| && Contains(lines[i], s) ==> |lines[i]| <= BUFSIZE
  }

  lemma {:induction false} MatchesFitHead(s: seq<byte>, line: seq<byte>, lines: seq<seq<byte>>)
    ensures MatchesFit(s, [line] + lines) <==> (Contains(line, s) ==> |line| <= BUFSIZE) && MatchesFit(s, lines)
  {
    var all := [line] + lines;
    assert all[0] == line && forall i :: 0 <= i < |lines| ==> all[i + 1] == lines[i];
    if MatchesFit(s, all) {
      forall i | 0 <= i < |lines| && Contains(lines[i], s) ensures |lines[i]| <= BUFSIZE {
        assert Contains(all[i + 1], s);
      }
    }
  }

  /** What is printed is the report of the lines if and only if the lines that match fit the buffer. */
  lemma {:induction false} SegmentsPrintLines(s: seq<byte>, fname: seq<byte>, file: seq<byte>)
    requires Searchable(s)
    ensures Matches(s, fname, Segments(file)) == Matches(s, fname, Lines(file)) <==> MatchesFit(s, Lines(file))
    decreases |file|
  {
    hide Segments, Lines, Matches;
    if file == [] {
      NoLines(s, fname);
    } else {
      var line, rest := FirstLine(file), AfterLine(file);
      LinesHead(file);
      MatchesFitHead(s, line, Lines(rest));
      MatchesHead(s, fname, line, Lines(rest));
      OneMatch(s, fname, line);
      if !Contains(line, s) {
        NoMatchInPieces(s, fname, file);
        SegmentsPrintLines(s, fname, rest);
      } else if |line| <= BUFSIZE {
        LineFits(s, fname, file);
        SegmentsPrintLines(s, fname, rest);
        SamePrefix(Report(fname, line), Matches(s, fname, Segments(rest)), Matches(s, fname, Lines(rest)));
      } else {
        LongMatchLost(s, fname, file);
      }
    }
  }

  lemma {:induction false} SamePrefix(p: seq<byte>, a: seq<byte>, b: seq<byte>)
    ensures p + a == p + b <==> a == b
  {
    assert (p + a)[|p|..] == a && (p + b)[|p|..] == b;
  }

  lemma {:induction false} NoLines(s: seq<byte>, fname: seq<byte>)
    ensures Segments([]) == Lines([]) && MatchesFit(s, Lines([]))
  {
  }

  /** The report of all lines that contain the pattern, whatever its first byte. */
  ghost function AllMatches(s: seq<byte>, fname: seq<byte>, lines: seq<seq<byte>>): seq<byte> {
    if lines == [] then []
    else (if Contains(lines[0], s) then Report(fname, lines[0]) else []) + AllMatches(s, fname, lines[1..])
  }

  /** The matcher is exact if and only if the pattern is not empty and starts with a byte below 128, or
      occurs nowhere. */
  lemma {:induction false} ExactIffSearchable(s: seq<byte>, fname: seq<byte>, lines: seq<seq<byte>>)
    ensures Matches(s, fname, lines) == AllMatches(s, fname, lines)
        <==> Searchable(s) || forall i :: 0 <= i < |lines| ==> !Contains(lines[i], s)
  {
    if lines != [] {
      ExactIffSearchable(s, fname, lines[1..]);
      if !Searchable(s) {
        NothingPrinted(s, fname, lines);
        assert forall i :: 1 <= i < |lines| ==> lines[i] == lines[1..][i - 1];
      }
    }
  }

  lemma {:induction false} NothingPrinted(s: seq<byte>, fname: seq<byte>, lines: seq<seq<byte>>)
    requires !Searchable(s)
    ensures Matches(s, fname, lines) == []
  {
    if lines != [] {
      NothingPrinted(s, fname, lines[1..]);
    }
  }

  /** Every line that contains the pattern fits the buffer, and the pattern can start a match. */
  ghost predicate Handled(s: seq<byte>, lines: seq<seq<byte>>) {
    forall i :: 0 <= i < |lines| && Contains(lines[i], s) ==> Searchable(s) && |lines[i]| <= BUFSIZE
  }

  /** Main result: exactly the lines that contain the pattern are printed, once each and in order, if and
      only if each of them has at most 1024 bytes and the pattern starts with a byte below 128. */
  lemma {:induction false} ReportIsExact(s: seq<byte>, fname: seq<byte>, file: seq<byte>)
    ensures Matches(s, fname, Segments(file)) == AllMatches(s, fname, Lines(file)) <==> Handled(s, Lines(file))
  {
    hide Segments, Lines, Contains;
    ExactIffSearchable(s, fname, Lines(file));
    if Searchable(s) {
      SegmentsPrintLines(s, fname, file);
    } else {
      NothingPrinted(s, fname, Segments(file));
      NothingPrinted(s, fname, Lines(file));
    }
  }

  /** A line of 1025 bytes is printed in two pieces. */
  lemma {:induction false} LongLineFails(fname: seq<byte>)
    ensures var s, file := [97 as byte], seq(BUFSIZE + 1, _ => 97 as byte);
      Matches(s, fname, Segments(file)) != AllMatches(s, fname, Lines(file))
  {
    var s, file := [97 as byte], seq(BUFSIZE + 1, _ => 97 as byte);
    NewlineUnique(file, BUFSIZE + 1);
    assert OccursAt(file, s, 0);
    assert Lines(file) == [file];
    ReportIsExact(s, fname, file);
    assert Contains(Lines(file)[0], s);
  }
}
