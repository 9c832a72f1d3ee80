/** The line reader of the client: a byte buffer that grows, shifts and is refilled from a
    file in chunks of any size. Pointers are offsets into the buffer. */
module LineBuffer {

  const IO_SIZE: nat := 4096

  // ---- what the reader is supposed to return ----

  /** Length of the part before the first newline, or of everything. */
  function LineLength(d: string): (k: nat)
    ensures k <= |d|
    ensures k < |d| ==> d[k] == '\n'
    ensures '\n' !in d[..k]
  {
    if d == [] || d[0] == '\n' then 0 else
      assert d[..1 + LineLength(d[1..])] == [d[0]] + d[1..][..LineLength(d[1..])];
      1 + LineLength(d[1..])
  }

  function StripCr(line: string, binary: bool): string {
    if !binary && |line| > 0 && line[|line| - 1] == '\r' then line[..|line| - 1] else line
  }

  /** The lines of a file: split at newlines, a carriage return removed only in front of a
      real newline and not in binary mode; a last line without newline counts. */
  function Lines(d: string, binary: bool): seq<string>
    decreases |d|
  {
    if d == [] then [] else
      var k := LineLength(d);
      if k < |d| then [StripCr(d[..k], binary)] + Lines(d[k + 1..], binary) else [d]
  }

  /** While a line is being collected: `text` in the buffer and `rest` in the file hold the data
      `d`, plus the newline that was added to an incomplete last line. */
  ghost predicate Held(text: string, rest: string, eof: bool, d: string, added: bool) {
    if added then eof && d != [] && '\n' !in d && text == d + "\n"
    else d == text + (if eof then [] else rest) && (eof && d != [] ==> d[|d| - 1] == '\n')
  }

  function Max(a: nat, b: nat): nat { if a < b then b else a }

  /** Only a line of about half the size limit can be cut. */
  predicate TooLong(length: nat, maxSize: nat) {
    2 * length + 2 * IO_SIZE > maxSize && length > 0
  }

  ghost predicate ShortLines(d: string, maxSize: nat) {
    forall i, j :: 0 <= i <= j <= |d| && TooLong(j - i, maxSize) ==> '\n' in d[i..j]
  }

  /** What one call hands out, given the data `d` still to be returned: `text`, leaving `rest`. */
  ghost predicate Answer(text: string, rest: string, truncated: bool, eof: bool, maxSize: nat,
                         d: string, wasEof: bool, binary: bool) {
    var k := LineLength(d);
    if truncated then
      !eof && !wasEof && d == text + rest && '\n' !in text && TooLong(|text|, maxSize)
    else if k < |d| then
      eof == wasEof && text == (if eof then d[..k] else StripCr(d[..k], binary)) && rest == d[k + 1..]
    else
      eof && !wasEof && d != [] && text == d && rest == []
  }

  function Chomp(line: string, binary: bool): string {
    if |line| > 0 && line[|line| - 1] == '\n' then StripCr(line[..|line| - 1], binary) else line
  }

  /** Part way through the data `d`: `lines` handed out, `rest` left. A buffer made from a
      string counts as being at the end of its file from the start. */
  ghost predicate Progress(d: string, rest: string, lines: seq<string>, cut: bool, eof: bool, maxSize: nat,
                           binary: bool, str: bool) {
    && |rest| <= |d| && d[|d| - |rest|..] == rest && (str ==> eof && binary) && (eof ==> rest == [] || str)
    && (!cut ==> Lines(d, binary) == lines + Lines(rest, binary))
    && (ShortLines(d, maxSize) ==> !cut)
  }

  lemma NotCut(d: string, from: nat, text: string, rest: string, maxSize: nat)
    requires from <= |d| && d[from..] == text + rest && ShortLines(d, maxSize) && TooLong(|text|, maxSize)
    ensures '\n' in text
  {
    assert text == d[from..][..|text|] == d[from..from + |text|];
  }

  lemma AnswerLeaves(text: string, rest: string, truncated: bool, eof: bool, maxSize: nat,
                     was: string, wasEof: bool, binary: bool, str: bool)
    requires Answer(text, rest, truncated, eof, maxSize, was, wasEof, binary)
    requires (str ==> wasEof && binary) && (wasEof ==> was == [] || str)
    ensures |rest| < |was| && was[|was| - |rest|..] == rest && (str ==> eof) && (eof ==> rest == [] || str)
    ensures truncated ==> was == text + rest && '\n' !in text && TooLong(|text|, maxSize)
    ensures !truncated ==> Lines(was, binary) == [text] + Lines(rest, binary)
  {
  }

  lemma ProgressStep(d: string, was: string, lines: seq<string>, cut: bool, wasEof: bool, maxSize: nat, binary: bool,
                     str: bool, text: string, rest: string, truncated: bool, eof: bool)
    requires Progress(d, was, lines, cut, wasEof, maxSize, binary, str)
    requires Answer(text, rest, truncated, eof, maxSize, was, wasEof, binary)
    ensures Progress(d, rest, lines + [text], cut || truncated, eof, maxSize, binary, str)
    ensures |rest| < |was|
  {
    hide ShortLines, Lines, LineLength, Answer, TooLong;
    AnswerLeaves(text, rest, truncated, eof, maxSize, was, wasEof, binary, str);
    if truncated && ShortLines(d, maxSize) {
      NotCut(d, |d| - |was|, text, rest, maxSize);
    }
    assert d[|d| - |was|..][|was| - |rest|..] == d[|d| - |rest|..];
    assert !truncated ==> (lines + [text]) + Lines(rest, binary) == lines + ([text] + Lines(rest, binary));
  }

  lemma ProgressFirst(d: string, maxSize: nat, binary: bool, str: bool)
    requires str ==> binary
    ensures Progress(d, d, [], false, str, maxSize, binary, str)
  {
  }

  lemma ProgressLast(d: string, rest: string, lines: seq<string>, cut: bool, eof: bool, maxSize: nat,
                     binary: bool, str: bool)
    requires Progress(d, rest, lines, cut, eof, maxSize, binary, str)
    ensures ShortLines(d, maxSize) ==> !cut
    ensures rest == [] && !cut ==> lines == Lines(d, binary)
    ensures !cut ==> lines <= Lines(d, binary)
  {
  }

  lemma AnswerMode(text: string, rest: string, truncated: bool, eof: bool, maxSize: nat,
                   was: string, wasEof: bool, binary: bool, str: bool)
    requires Answer(text, rest, truncated, eof, maxSize, was, wasEof, binary) && (str ==> wasEof)
    ensures Answer(text, rest, truncated, eof, maxSize, was, wasEof, binary || str)
    ensures str ==> eof && !truncated
  {
  }

  // ---- cut or not ----

  /** The characters other than newlines, in order. */
  function NoNewlines(d: string): string {
    if d == [] then [] else (if d[0] == '\n' then [] else [d[0]]) + NoNewlines(d[1..])
  }

  function Flat(lines: seq<string>): string {
    if lines == [] then [] else Flat(lines[..|lines| - 1]) + lines[|lines| - 1]
  }

  lemma {:induction false} NoNewlinesJoin(a: string, b: string)
    ensures NoNewlines(a + b) == NoNewlines(a) + NoNewlines(b)
    decreases |a|
  {
    if a == [] {
      assert a + b == b;
    } else {
      assert (a + b)[1..] == a[1..] + b;
      NoNewlinesJoin(a[1..], b);
    }
  }

  lemma {:induction false} NoNewlinesSame(a: string)
    requires '\n' !in a
    ensures NoNewlines(a) == a
    decreases |a|
  {
    if a != [] {
      NoNewlinesSame(a[1..]);
    }
  }

  /** In binary mode a call loses nothing but a newline, also when it cuts a line. */
  lemma AnswerKeeps(text: string, rest: string, truncated: bool, eof: bool, maxSize: nat, was: string, wasEof: bool)
    requires Answer(text, rest, truncated, eof, maxSize, was, wasEof, true)
    ensures NoNewlines(was) == text + NoNewlines(rest)
  {
    var k := LineLength(was);
    hide NoNewlines;
    if truncated {
      NoNewlinesJoin(text, rest);
      NoNewlinesSame(text);
    } else if k < |was| {
      assert text == was[..k];
      assert was == text + (['\n'] + rest);
      NoNewlinesJoin(text, ['\n'] + rest);
      NoNewlinesJoin(['\n'], rest);
      NoNewlinesSame(text);
      OnlyNewline();
    } else {
      NoNewlinesSame(was);
      assert NoNewlines(rest) == [] by { NoNewlinesSame(rest); }
    }
  }

  lemma OnlyNewline()
    ensures NoNewlines(['\n']) == []
  {
    assert ['\n'][1..] == [];
  }

  lemma KeepsStep(d: string, was: string, lines: seq<string>, text: string, rest: string)
    requires NoNewlines(d) == Flat(lines) + NoNewlines(was) && NoNewlines(was) == text + NoNewlines(rest)
    ensures NoNewlines(d) == Flat(lines + [text]) + NoNewlines(rest)
  {
    assert (lines + [text])[..|lines|] == lines;
  }

  /** Every line followed by a newline. */
  function Unlines(lines: seq<string>): string {
    if lines == [] then [] else lines[0] + "\n" + Unlines(lines[1..])
  }

  function WithNewline(d: string): string {
    if d == [] || d[|d| - 1] == '\n' then d else d + "\n"
  }

  lemma SplitAt(d: string, k: nat)
    requires k < |d| && d[k] == '\n'
    ensures d == d[..k] + "\n" + d[k + 1..]
  {
  }

  lemma UnlinesFirst(line: string, lines: seq<string>)
    ensures Unlines([line] + lines) == line + "\n" + Unlines(lines)
  {
    assert ([line] + lines)[1..] == lines;
  }

  /** A complete first line and the rest, joined again. */
  lemma RoundTripLine(d: string, k: nat)
    requires k == LineLength(d) < |d|
    ensures Unlines(Lines(d, true)) == d[..k] + "\n" + Unlines(Lines(d[k + 1..], true))
  {
    hide LineLength, StripCr, Unlines;
    KeepsCr(d[..k]);
    UnlinesFirst(d[..k], Lines(d[k + 1..], true));
  }

  lemma RoundTripLast(d: string)
    requires d != [] && LineLength(d) == |d|
    ensures Unlines(Lines(d, true)) == d + "\n" && d[|d| - 1] != '\n'
  {
    assert d[..|d|] == d && d[|d| - 1] in d;
    var lines := Lines(d, true);
    assert lines == [d] && lines[1..] == [];
  }

  /** Splitting loses nothing: in binary mode the lines give back the data, with a final
      newline if it had none. */
  lemma {:induction false} LinesRoundTrip(d: string)
    ensures Unlines(Lines(d, true)) == WithNewline(d)
    decreases |d|
  {
    hide LineLength, Lines;
    if d == [] {
      assert Lines(d, true) == [] by { NoLines(); }
    } else if LineLength(d) == |d| {
      RoundTripLast(d);
    } else {
      var k := LineLength(d);
      SplitAt(d, k);
      RoundTripLine(d, k);
      LinesRoundTrip(d[k + 1..]);
      RoundTripJoin(d[..k], d[k + 1..]);
    }
  }

  lemma NoLines()
    ensures Lines([], true) == []
  {
  }

  lemma RoundTripJoin(line: string, rest: string)
    ensures WithNewline(line + "\n" + rest) == line + "\n" + WithNewline(rest)
  {
  }

  lemma KeepsCr(line: string)
    ensures StripCr(line, true) == line
  {
  }

  /** No line holds a newline, and text mode differs from binary mode exactly in this: a carriage
      return at the end of a line that ends in a newline is taken off. */
  lemma {:induction false} LinesPlain(d: string, i: nat)
    requires i < |Lines(d, true)|
    ensures |Lines(d, false)| == |Lines(d, true)| && d != [] && '\n' !in Lines(d, true)[i]
    ensures var line := Lines(d, true)[i];
            var ended := i + 1 < |Lines(d, true)| || d[|d| - 1] == '\n';
            Lines(d, false)[i] ==
              if ended && line != [] && line[|line| - 1] == '\r' then line[..|line| - 1] else line
    decreases |d|
  {
    hide LineLength;
    var k := LineLength(d);
    if k < |d| {
      var rest := d[k + 1..];
      if i > 0 {
        LinesPlain(rest, i - 1);
        assert rest[|rest| - 1] == d[|d| - 1];
      } else if |Lines(d, true)| > 1 {
        LinesPlain(rest, 0);
      } else {
        NoMoreLines(rest);
      }
    } else {
      assert d[..k] == d && d[|d| - 1] in d;
    }
  }

  lemma NoMoreLines(d: string)
    requires Lines(d, true) == []
    ensures d == [] && Lines(d, false) == []
  {
  }

  lemma LineOfPrefix(text: string, more: string, k: nat)
    requires k < |text| && text[k] == '\n' && '\n' !in text[..k]
    ensures var d := text + more;
            && LineLength(d) == k && d[..k] == text[..k] && d[..k + 1] == text[..k + 1]
            && d[k + 1..] == text[k + 1..] + more
  {
    var d := text + more;
    assert d[..k] == text[..k] && d[k] == '\n';
  }

  lemma LineOfAdded(d: string, k: nat)
    requires '\n' !in d && k <= |d| && (d + "\n")[k] == '\n'
    ensures k == |d| == LineLength(d) && (d + "\n")[..k] == d && (d + "\n")[k + 1..] == []
  {
  }

  lemma ChompTakes(line: string, binary: bool, n: nat)
    requires n <= |line|
    requires var ends := line != [] && line[|line| - 1] == '\n';
             var cr := ends && |line| > 1 && !binary && line[|line| - 2] == '\r';
             n == |line| - (if cr then 2 else if ends then 1 else 0)
    ensures Chomp(line, binary) == line[..n]
  {
  }

  lemma Join(b: array<char>, i: nat, j: nat, k: nat)
    requires i <= j <= k <= b.Length
    ensures b[i..k] == b[i..j] + b[j..k]
  {
  }

  /** An open file: what has not been read yet. */
  class File {
    var remaining: string
    /** How many reads have failed. */
    ghost var errors: nat

    constructor (content: string)
      ensures remaining == content && errors == 0
    {
      remaining := content;
      errors := 0;
    }

    /** read(2): an error, or any non-zero number of bytes up to `count`; zero only at the end. */
    method Read(count: nat) returns (ok: bool, chunk: string)
      requires count > 0
      modifies this
      ensures !ok ==> remaining == old(remaining) && chunk == []
      ensures ok ==> |chunk| <= count && old(remaining) == chunk + remaining
      ensures ok && chunk == [] ==> old(remaining) == []
      ensures errors == old(errors) + if ok then 0 else 1
    {
      ok := *;
      chunk := [];
      if !ok {
        errors := errors + 1;
      }
      if ok && |remaining| > 0 {
        var n: nat :| 1 <= n <= count && n <= |remaining|;
        chunk := remaining[..n];
        remaining := remaining[n..];
      }
    }
  }

  datatype Found = Found(length: nat) | AtEnd | Failed

  datatype Outcome = Line(text: string) | Eof | ReadError

  method CopyTo(b: array<char>, at: nat, src: string)
    requires at + |src| <= b.Length
    modifies b
    ensures b[..at] == old(b[..at]) && b[at..at + |src|] == src
  {
    forall k | 0 <= k < |src| { b[at + k] := src[k]; }
  }

  /** The last character gives way to a space. */
  function SpaceLast(s: string): string {
    if s == [] then [] else s[..|s| - 1] + " "
  }

  function JoinedBySpaces(strs: seq<string>): string
    requires strs != []
  {
    if |strs| == 1 then strs[0] else JoinedBySpaces(strs[..|strs| - 1]) + " " + strs[|strs| - 1]
  }

  lemma SpaceAfter(strs: seq<string>, str: string)
    requires strs != []
    ensures SpaceLast(JoinedBySpaces(strs) + "\n") + (str + "\n") == JoinedBySpaces(strs + [str]) + "\n"
  {
    assert (strs + [str])[..|strs|] == strs;
    var joined := JoinedBySpaces(strs);
    assert (joined + "\n")[..|joined|] == joined;
  }

  /** A larger copy of the first `length` characters, the last of them replaced by a space. */
  method Enlarge(a: array<char>, length: nat, more: nat) returns (b: array<char>)
    requires length <= a.Length
    ensures fresh(b) && b.Length == length + more && b[..length] == SpaceLast(a[..length])
  {
    b := new char[length + more](_ => '\0');
    CopyTo(b, 0, a[..length]);
    if length > 0 {
      b[length - 1] := ' ';
    }
  }

  class Buffer {
    const file: File
    var buffer: array<char>
    var end: nat
    var startOfLine: nat
    var endOfLine: nat
    var bufread: nat
    var eof: bool
    var maxSize: nat
    var readLength: nat
    var truncated: bool

    ghost predicate Shape()
      reads this
    {
      && startOfLine <= endOfLine <= end < buffer.Length
      && (!eof ==> IO_SIZE <= bufread && end <= bufread < buffer.Length)
    }

    /** Everything not returned yet is in the buffer or in the file; after the end of the
        file the buffer holds complete lines only. */
    ghost predicate Valid()
      reads this, buffer
    {
      && Shape()
      && (eof && endOfLine < end ==> buffer[end - 1] == '\n')
    }

    /** What the next calls will return. */
    ghost function Pending(): string
      requires Shape()
      reads this, buffer, file
    {
      buffer[endOfLine..end] + if eof then [] else file.remaining
    }

    constructor (file: File, maxSize: nat)
      ensures Valid() && fresh(buffer) && this.file == file && !eof && Pending() == file.remaining
      ensures this.maxSize == maxSize
    {
      this.file := file;
      bufread := IO_SIZE;
      this.maxSize := maxSize;
      var b := new char[IO_SIZE + 1];
      b[0] := '\0';
      buffer := b;
      end, startOfLine, endOfLine := 0, 0, 0;
      eof, readLength, truncated := false, 0, false;
    }

    /** Doubles the buffer. The end offset is set as if the line started at offset 0; it is
        right again only after the shift. */
    method Grow(bufbytes: nat)
      requires bufbytes <= bufread && startOfLine + bufbytes <= bufread < buffer.Length
      modifies this`buffer, this`bufread, this`end
      ensures fresh(buffer) && bufread == 2 * old(bufread) && buffer.Length == bufread + 1 && end == bufbytes
      ensures buffer[startOfLine..startOfLine + bufbytes] == old(buffer[startOfLine..startOfLine + bufbytes])
    {
      bufread := bufread * 2;
      var b := new char[bufread + 1];
      forall k | 0 <= k < startOfLine + bufbytes { b[k] := buffer[k]; }
      assert b[startOfLine..startOfLine + bufbytes] == buffer[startOfLine..startOfLine + bufbytes];
      buffer := b;
      end := bufbytes;
    }

    /** Moves the current line to the front. */
    method ShiftDown(bufbytes: nat)
      requires startOfLine + bufbytes < buffer.Length && (startOfLine == 0 ==> end == bufbytes)
      modifies this`end, buffer
      ensures end == bufbytes && buffer[..bufbytes] == old(buffer[startOfLine..startOfLine + bufbytes])
    {
      if startOfLine != 0 {
        forall k | 0 <= k < bufbytes { buffer[k] := buffer[startOfLine + k]; }
        end := bufbytes;
      }
    }

    /** Makes room: grows at most once. False means the size limit forbids it. */
    method MakeRoom() returns (ok: bool, readCount: nat)
      requires Shape() && !eof
      modifies this`buffer, this`bufread, this`end
      ensures buffer == old(buffer) || fresh(buffer)
      ensures !ok ==> unchanged(this) && TooLong(end - startOfLine, maxSize)
      ensures buffer.Length <= Max(old(buffer.Length), maxSize + 1)
      ensures ok ==> var bufbytes := old(end) - startOfLine;
                && IO_SIZE <= readCount <= bufread - bufbytes && bufread < buffer.Length
                && startOfLine + bufbytes <= bufread && (startOfLine == 0 ==> end == bufbytes)
                && buffer[startOfLine..startOfLine + bufbytes] == old(buffer[startOfLine..end])
    {
      var bufbytes := end - startOfLine;
      readCount := (bufread - bufbytes) / IO_SIZE * IO_SIZE;
      if readCount != 0 {
        return true, readCount;
      }
      if bufread * 2 > maxSize {
        return false, 0;
      }
      Grow(bufbytes);
      readCount := (bufread - bufbytes) / IO_SIZE * IO_SIZE;
      ok := true;
    }

    /** Keeps the current line, without newline so far, and reads more behind it. 0 at the end
        of the file or when the buffer may not grow, -1 on a read error. A last line without
        newline gets one. */
    method FillBuffer() returns (n: int)
      requires Shape() && '\n' !in buffer[startOfLine..end]
      modifies this, buffer, file
      ensures buffer == old(buffer) || fresh(buffer)
      ensures maxSize == old(maxSize) && (old(eof) ==> n == 0)
      ensures n == 0 && (old(eof) || !eof) ==>
                unchanged(this) && unchanged(file) && unchanged(old(buffer))
                && (!eof ==> startOfLine < end && TooLong(end - startOfLine, maxSize))
      ensures n == 0 && !old(eof) && eof ==>
                && Shape() && endOfLine == end && old(startOfLine == end) && old(file.remaining) == []
      ensures n > 0 ==> Filled(old(buffer[startOfLine..end]), old(file.remaining))
      ensures n < 0 ==> Broken(old(buffer[startOfLine..end]) + old(file.remaining))
      ensures n < 0 ==> startOfLine == old(startOfLine) && endOfLine == old(endOfLine)
      ensures file.errors == old(file.errors) + if n < 0 then 1 else 0
      ensures buffer.Length <= Max(old(buffer.Length), maxSize + 1)
    {
      hide Filled, Broken;
      if eof {
        return 0;
      }
      ghost var line := buffer[startOfLine..end];
      var bufbytes := end - startOfLine;
      var ok, readCount := MakeRoom();
      if !ok {
        return 0;
      }
      ShiftDown(bufbytes);
      assert buffer[..bufbytes] == line;
      var chunk;
      ok, chunk := file.Read(readCount);
      if !ok {
        StaleOffsets(line + file.remaining);
        return -1;
      }
      n := AddChunk(chunk, bufbytes);
    }

    /** The current line is at the front and followed by new bytes; at the end of the file, by
        a newline only. */
    ghost predicate Filled(line: string, rest: string)
      reads this, buffer, file
    {
      && Shape() && startOfLine == 0 && endOfLine == |line| < end && buffer[..endOfLine] == line
      && (if eof then line != [] && rest == [] && file.remaining == [] && buffer[..end] == line + "\n"
          else buffer[..end] + file.remaining == line + rest && |file.remaining| < |rest|)
    }

    /** After a read error nothing of the data `d` is lost, but the line offsets are stale: the
        next call is possible exactly if they are inside the buffer, and it would go on there. */
    ghost predicate Broken(d: string)
      reads this, buffer, file
    {
      && !eof && end < buffer.Length && d == buffer[..end] + file.remaining && '\n' !in buffer[..end]
      && (Valid() <==> endOfLine <= end)
      && (Valid() ==> Pending() == d[endOfLine..])
    }

    lemma StaleOffsets(d: string)
      requires !eof && startOfLine <= endOfLine && IO_SIZE <= bufread && end <= bufread < buffer.Length
      requires d == buffer[..end] + file.remaining && '\n' !in buffer[..end]
      ensures Broken(d)
    {
      if endOfLine <= end {
        assert d[endOfLine..] == buffer[endOfLine..end] + file.remaining;
      }
    }

    method AddChunk(chunk: string, bufbytes: nat) returns (n: int)
      requires !eof && end == bufbytes && bufbytes + |chunk| <= bufread < buffer.Length
      requires IO_SIZE <= bufread && bufbytes < bufread
      requires '\n' !in buffer[..bufbytes] && (chunk == [] ==> file.remaining == [])
      modifies this`end, this`startOfLine, this`endOfLine, this`eof, buffer
      ensures n >= 0
      ensures n == 0 ==> eof && bufbytes == 0 && chunk == [] && Shape() && endOfLine == end
      ensures n > 0 ==> Filled(old(buffer[..bufbytes]), chunk + file.remaining)
    {
      ghost var line := buffer[..bufbytes];
      CopyTo(buffer, end, chunk);
      n := |chunk|;
      if n == 0 {
        eof := true;
        if bufbytes != 0 && buffer[end - 1] != '\n' {
          n := 1;
          buffer[end] := '\n';
        }
      }
      assert bufbytes > 0 ==> line[bufbytes - 1] in line;
      startOfLine := 0;
      endOfLine := bufbytes;
      end := end + n;
      buffer[end] := '\0';
      assert buffer[..bufbytes] == line;
      assert chunk != [] ==> buffer[..end] == line + chunk;
      assert chunk == [] && n > 0 ==> buffer[..end] == line + "\n";
    }

    method Scan() returns (pos: nat)
      requires Shape()
      ensures endOfLine <= pos <= end && '\n' !in buffer[endOfLine..pos]
      ensures pos < end ==> buffer[pos] == '\n'
    {
      pos := endOfLine;
      while buffer[pos] != '\n' && pos != end
        invariant endOfLine <= pos <= end && '\n' !in buffer[endOfLine..pos]
        decreases end - pos
      {
        assert buffer[endOfLine..pos + 1] == buffer[endOfLine..pos] + [buffer[pos]];
        pos := pos + 1;
      }
    }

    /** The line at startOfLine, `length` bytes of it, was taken from the data `d`. */
    ghost predicate Taken(d: string, length: nat, wasEof: bool)
      reads this, buffer, file
    {
      && Valid() && endOfLine == startOfLine + length + (if eof then 1 else 0) && (truncated ==> endOfLine == end)
      && var line := buffer[startOfLine..startOfLine + length];
         var k := LineLength(d);
         if truncated then
           !eof && !wasEof && length > 0 && d == line + Pending() && '\n' !in line && TooLong(length, maxSize)
         else if k < |d| then
           eof == wasEof && line == (if eof then d[..k] else d[..k + 1]) && Pending() == d[k + 1..]
         else
           eof && !wasEof && d != [] && line == d && Pending() == []
    }

    lemma TakenLine(d: string, added: bool)
      requires Shape() && Held(buffer[startOfLine..end], file.remaining, eof, d, added)
      requires !truncated && startOfLine < endOfLine
      requires buffer[endOfLine - 1] == '\n' && '\n' !in buffer[startOfLine..endOfLine - 1]
      ensures Taken(d, endOfLine - (if eof then 1 else 0) - startOfLine, eof && !added)
      ensures Valid()
    {
      hide LineLength;
      var k := endOfLine - 1 - startOfLine;
      var text := buffer[startOfLine..end];
      assert text[..k] == buffer[startOfLine..endOfLine - 1] && text[k] == '\n';
      assert text[..k + 1] == buffer[startOfLine..endOfLine] && text[k + 1..] == buffer[endOfLine..end];
      if added {
        LineOfAdded(d, k);
        assert buffer[startOfLine..startOfLine + k] == d;
      } else {
        var more := if eof then [] else file.remaining;
        LineOfPrefix(text, more, k);
        assert text + more == d;
        assert eof ==> buffer[startOfLine..startOfLine + k] == d[..k];
        assert !eof ==> buffer[startOfLine..startOfLine + k + 1] == d[..k + 1];
      }
    }

    lemma TakenCut(d: string)
      requires Shape() && Held(buffer[startOfLine..end], file.remaining, eof, d, false)
      requires truncated && !eof && startOfLine < endOfLine == end
      requires '\n' !in buffer[startOfLine..end] && TooLong(end - startOfLine, maxSize)
      ensures Taken(d, end - startOfLine, false)
    {
    }

    lemma HeldFilled(d: string, line: string, rest: string)
      requires Filled(line, rest) && d == line + rest && '\n' !in line
      ensures Held(buffer[startOfLine..end], file.remaining, eof, d, eof) && '\n' !in buffer[startOfLine..endOfLine]
    {
    }

    lemma HeldFirst()
      requires Valid() && startOfLine == endOfLine
      ensures Held(buffer[startOfLine..end], file.remaining, eof, Pending(), false)
    {
    }

    /** FillBuffer in terms of the data still to be returned. */
    method Refill(ghost d: string, ghost added: bool) returns (n: int)
      requires Shape() && Held(buffer[startOfLine..end], file.remaining, eof, d, added)
      requires '\n' !in buffer[startOfLine..end]
      modifies this, buffer, file
      ensures buffer == old(buffer) || fresh(buffer)
      ensures maxSize == old(maxSize)
      ensures n == 0 && eof ==> d == [] && Valid() && Pending() == []
      ensures n == 0 && !eof ==>
                && unchanged(this) && unchanged(file)
                && buffer[startOfLine..end] == old(buffer[startOfLine..end])
                && startOfLine < end && TooLong(end - startOfLine, maxSize)
      ensures n != 0 ==> !old(eof)
      ensures n > 0 ==> Shape() && Held(buffer[startOfLine..end], file.remaining, eof, d, eof)
      ensures n > 0 ==> '\n' !in buffer[startOfLine..endOfLine]
      ensures n > 0 && !eof ==> |file.remaining| < old(|file.remaining|)
      ensures n > 0 && eof ==> |file.remaining| == 0
      ensures n < 0 ==> Broken(d)
      ensures file.errors == old(file.errors) + if n < 0 then 1 else 0
      ensures buffer.Length <= Max(old(buffer.Length), maxSize + 1)
    {
      hide Taken, LineLength, Broken;
      ghost var line, rest := buffer[startOfLine..end], file.remaining;
      n := FillBuffer();
      if n > 0 {
        HeldFilled(d, line, rest);
      }
    }

    /** Ends the line after `pos`: at a newline, or where the full buffer forces a cut. */
    method Take(pos: nat, cut: bool, ghost d: string, ghost added: bool) returns (length: nat)
      requires Shape() && Held(buffer[startOfLine..end], file.remaining, eof, d, added)
      requires startOfLine <= pos < end && '\n' !in buffer[startOfLine..pos]
      requires buffer[pos] == '\n' <==> !cut
      requires cut ==> !eof && !added && pos + 1 == end && TooLong(end - startOfLine, maxSize)
      modifies this`truncated, this`endOfLine
      ensures Valid() && startOfLine + length <= endOfLine
      ensures Taken(d, length, eof && !added)
    {
      hide Taken, Held, LineLength;
      assert buffer[startOfLine..pos + 1] == buffer[startOfLine..pos] + [buffer[pos]];
      truncated := cut;
      endOfLine := pos + 1;
      length := pos + 1 - (if eof then 1 else 0) - startOfLine;
      if cut {
        TakenCut(d);
      } else {
        TakenLine(d, added);
      }
    }

    /** One round of the reader: a line is complete, or more was read and it has to look again. */
    method Attempt(ghost d: string, ghost added: bool) returns (again: bool, r: Found)
      requires Shape() && Held(buffer[startOfLine..end], file.remaining, eof, d, added) && (added ==> eof)
      requires '\n' !in buffer[startOfLine..endOfLine]
      modifies this, buffer, file
      ensures buffer == old(buffer) || fresh(buffer)
      ensures maxSize == old(maxSize)
      ensures again ==> !old(eof) && Shape() && Held(buffer[startOfLine..end], file.remaining, eof, d, eof)
      ensures again ==> '\n' !in buffer[startOfLine..endOfLine]
      ensures again ==> |file.remaining| + (if eof then 0 else 1) < old(|file.remaining| + 1)
      ensures !again && r.Found? ==> Valid() && startOfLine + r.length <= endOfLine
      ensures !again && r.Found? ==> Taken(d, r.length, old(eof) && !added)
      ensures !again && r.AtEnd? ==> Valid() && d == [] && Pending() == []
      ensures !again && r.Failed? ==> !old(eof) && Broken(d)
      ensures file.errors == old(file.errors) + if !again && r.Failed? then 1 else 0
      ensures buffer.Length <= Max(old(buffer.Length), maxSize + 1)
    {
      hide Broken, Taken, Filled, LineLength, Held, TooLong;
      r := AtEnd;
      var pos := Scan();
      Join(buffer, startOfLine, endOfLine, pos);
      if pos < end {
        var length := Take(pos, false, d, added);
        return false, Found(length);
      }
      var n := Refill(d, added);
      if n < 0 {
        return false, Failed;
      } else if n > 0 {
        return true, r;
      } else if eof {
        return false, AtEnd;
      }
      Join(buffer, startOfLine, pos - 1, pos);
      var length := Take(pos - 1, true, d, added);
      return false, Found(length);
    }

    method InternReadLine() returns (r: Found)
      requires Valid()
      modifies this, buffer, file
      ensures buffer == old(buffer) || fresh(buffer)
      ensures maxSize == old(maxSize)
      ensures r.Found? ==> Valid() && startOfLine + r.length <= endOfLine
      ensures r.Found? ==> Taken(old(Pending()), r.length, old(eof))
      ensures r.AtEnd? ==> Valid() && old(Pending()) == [] && Pending() == []
      ensures r.Failed? ==> !old(eof) && Broken(old(Pending()))
      ensures file.errors == old(file.errors) + if r.Failed? then 1 else 0
      ensures buffer.Length <= Max(old(buffer.Length), maxSize + 1)
    {
      hide Taken, Held, Broken;
      startOfLine := endOfLine;
      HeldFirst();
      ghost var d, added := Pending(), false;
      var again := true;
      r := AtEnd;
      while again
        invariant again ==> Shape() && Held(buffer[startOfLine..end], file.remaining, eof, d, added)
        invariant again ==> '\n' !in buffer[startOfLine..endOfLine] && (added ==> eof) && (old(eof) <==> eof && !added)
        invariant !again && r.Found? ==> Valid() && startOfLine + r.length <= endOfLine && Taken(d, r.length, old(eof))
        invariant !again && r.AtEnd? ==> Valid() && d == [] && Pending() == []
        invariant !again && r.Failed? ==> !old(eof) && Broken(d)
        invariant file.errors == old(file.errors) + if !again && r.Failed? then 1 else 0
        invariant buffer.Length <= Max(old(buffer.Length), maxSize + 1)
        invariant buffer == old(buffer) || fresh(buffer)
        invariant maxSize == old(maxSize)
        decreases again, |file.remaining| + if eof then 0 else 1
      {
        again, r := Attempt(d, added);
        added := again && eof;
      }
    }

    lemma Chomped(d: string, length: nat, wasEof: bool, binary: bool)
      requires Valid() && startOfLine + length <= endOfLine && Taken(d, length, wasEof)
      ensures Answer(Chomp(buffer[startOfLine..startOfLine + length], binary), Pending(), truncated, eof, maxSize,
                     d, wasEof, binary)
      ensures startOfLine + |Chomp(buffer[startOfLine..startOfLine + length], binary)| == endOfLine ==> endOfLine == end
    {
      var line := buffer[startOfLine..startOfLine + length];
      var k := LineLength(d);
      if '\n' in line {
        assert !truncated && k < |d| && !eof && line[..k] == d[..k];
      } else {
        assert Chomp(line, binary) == line;
      }
    }

    method ChompedLength(length: nat, binary: bool) returns (outLength: nat)
      requires startOfLine + length <= buffer.Length
      ensures outLength <= length
      ensures buffer[startOfLine..startOfLine + outLength] == Chomp(buffer[startOfLine..startOfLine + length], binary)
    {
      ghost var line := buffer[startOfLine..startOfLine + length];
      outLength := length;
      if outLength > 0 && buffer[startOfLine + outLength - 1] == '\n' {
        assert line[length - 1] == '\n';
        outLength := outLength - 1;
        if outLength > 0 && !binary && buffer[startOfLine + outLength - 1] == '\r' {
          assert line[..length - 1][length - 2] == '\r';
          outLength := outLength - 1;
        }
      }
      ChompTakes(line, binary, outLength);
      assert buffer[startOfLine..startOfLine + outLength] == line[..outLength];
    }

    /** The next line without its newline, and without a carriage return in front of a real
        newline unless in binary mode. A cut line is one the size limit cannot hold. */
    method BatchReadline(binary: bool) returns (r: Outcome)
      requires Valid()
      modifies this, buffer, file
      ensures buffer == old(buffer) || fresh(buffer)
      ensures maxSize == old(maxSize)
      ensures r.Eof? ==> Valid() && old(Pending()) == [] && Pending() == []
      ensures r.ReadError? ==> !old(eof) && Broken(old(Pending()))
      ensures file.errors == old(file.errors) + if r.ReadError? then 1 else 0
      ensures buffer.Length <= Max(old(buffer.Length), maxSize + 1)
      ensures r.Line? ==> |r.text| < buffer.Length
      ensures r.Line? ==>
                && Valid() && readLength == |r.text|
                && Answer(r.text, Pending(), truncated, eof, maxSize, old(Pending()), old(eof), binary)
    {
      hide Answer, Taken, Shape, Broken;
      ghost var d := Pending();
      var found := InternReadLine();
      if found.AtEnd? {
        return Eof;
      }
      if found.Failed? {
        return ReadError;
      }
      var text := Finish(found.length, binary, d, old(eof));
      r := Line(text);
    }

    method Finish(length: nat, binary: bool, ghost d: string, ghost wasEof: bool) returns (text: string)
      requires Valid() && startOfLine + length <= endOfLine && Taken(d, length, wasEof)
      modifies this`readLength, buffer
      ensures Valid() && readLength == |text| < buffer.Length
      ensures Answer(text, Pending(), truncated, eof, maxSize, d, wasEof, binary)
    {
      hide Answer, Chomp, LineLength, Taken;
      Chomped(d, length, wasEof, binary);
      readLength := ChompedLength(length, binary);
      text := buffer[startOfLine..startOfLine + readLength];
      EndText();
    }

    /** The terminating zero never touches what is still to be returned. */
    method EndText()
      requires Valid() && startOfLine + readLength <= endOfLine
      requires startOfLine + readLength == endOfLine ==> endOfLine == end
      modifies buffer
      ensures Valid() && Pending() == old(Pending())
    {
      buffer[startOfLine + readLength] := '\0';
    }

    /** Replaces the contents: the strings given so far, separated by spaces. */
    method InitFromString(str: string)
      requires end <= buffer.Length
      modifies this
      ensures Valid() && eof && startOfLine == endOfLine == 0 && fresh(buffer)
      ensures Pending() == buffer[..end] == SpaceLast(old(buffer[..end])) + (str + "\n")
    {
      ghost var kept := SpaceLast(buffer[..end]);
      var b := Enlarge(buffer, end, |str| + 2);
      CopyTo(b, end, str + "\n");
      Join(b, 0, end, end + |str| + 1);
      buffer, startOfLine, endOfLine := b, 0, 0;
      end := end + |str| + 1;
      eof, maxSize := true, 1;
    }

    /** Given several strings, a new buffer holds them separated by spaces. */
    method InitFromStrings(strs: seq<string>)
      requires end == 0 && strs != []
      modifies this
      ensures Valid() && eof && Pending() == JoinedBySpaces(strs) + "\n"
    {
      assert buffer[..0] == [];
      InitFromString(strs[0]);
      var i := 1;
      assert strs[..1] == [strs[0]];
      hide JoinedBySpaces, SpaceLast;
      while i < |strs|
        invariant 1 <= i <= |strs| && Valid() && eof && startOfLine == endOfLine == 0 && fresh(buffer)
        invariant Pending() == buffer[..end] == JoinedBySpaces(strs[..i]) + "\n"
      {
        SpaceAfter(strs[..i], strs[i]);
        assert strs[..i + 1] == strs[..i] + [strs[i]];
        InitFromString(strs[i]);
        i := i + 1;
      }
      assert strs[..i] == strs;
    }

    /** Reads until the end or an error; `cut` tells whether any line was cut. */
    method ReadAll(binary: bool) returns (ok: bool, cut: bool, lines: seq<string>)
      requires Valid()
      modifies this, buffer, file
      ensures ok <==> file.errors == old(file.errors)
      ensures ok && !cut ==> lines == Lines(old(Pending()), binary || old(eof))
      ensures !cut ==> lines <= Lines(old(Pending()), binary || old(eof))
      ensures ok && (binary || old(eof)) ==> Flat(lines) == NoNewlines(old(Pending()))
      ensures buffer.Length <= Max(old(buffer.Length), old(maxSize) + 1)
      ensures ShortLines(old(Pending()), old(maxSize)) || old(eof) ==> !cut
      ensures old(eof) ==> ok
    {
      hide Progress, Answer, ShortLines;
      assert Flat([]) == NoNewlines([]) == [];
      hide Flat, NoNewlines;
      lines, cut, ok := [], false, true;
      ghost var d, str, bin := Pending(), eof, binary || eof;
      ProgressFirst(d, maxSize, bin, str);
      while true
        invariant Valid() && maxSize == old(maxSize) && file.errors == old(file.errors)
        invariant buffer.Length <= Max(old(buffer.Length), maxSize + 1)
        invariant buffer == old(buffer) || fresh(buffer)
        invariant Progress(d, Pending(), lines, cut, eof, maxSize, bin, str)
        invariant bin ==> NoNewlines(d) == Flat(lines) + NoNewlines(Pending())
        invariant str ==> eof && !cut
        decreases |Pending()|
      {
        ghost var was, wasEof := Pending(), eof;
        var r := BatchReadline(binary);
        match r {
          case Eof =>
            ProgressLast(d, was, lines, cut, wasEof, maxSize, bin, str);
            return;
          case ReadError =>
            ProgressLast(d, was, lines, cut, wasEof, maxSize, bin, str);
            ok := false;
            return;
          case Line(text) =>
            AnswerMode(text, Pending(), truncated, eof, maxSize, was, wasEof, binary, str);
            ProgressStep(d, was, lines, cut, wasEof, maxSize, bin, str, text, Pending(), truncated, eof);
            if bin {
              AnswerKeeps(text, Pending(), truncated, eof, maxSize, was, wasEof);
              KeepsStep(d, was, lines, text, Pending());
            }
            lines := lines + [text];
            cut := cut || truncated;
        }
      }
    }
  }

  /** A file read from start to end: without a read error, and with no line of about half the
      size limit, its lines are returned however the reads are split. */
  method ReadWhole(file: File, maxSize: nat, binary: bool) returns (ok: bool, lines: seq<string>)
    modifies file
    ensures ok <==> file.errors == old(file.errors)
    ensures ok && ShortLines(old(file.remaining), maxSize) ==> lines == Lines(old(file.remaining), binary)
    ensures ShortLines(old(file.remaining), maxSize) ==> lines <= Lines(old(file.remaining), binary)
    ensures ok && binary ==> Flat(lines) == NoNewlines(old(file.remaining))
  {
    var buffer := new Buffer(file, maxSize);
    var cut;
    ok, cut, lines := buffer.ReadAll(binary);
  }
}
