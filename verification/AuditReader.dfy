/** The chunked backwards last-line reader of the audit log
    (`_read_last_hash_from_path` in gpucall/audit.py), over files as byte sequences. */
module AuditReader {
  import opened Wrappers

  newtype Byte = b: int | 0 <= b < 256

  const LF: Byte := 10
  const CR: Byte := 13
  const CHUNK := 8192

  predicate IsSpace(b: Byte) { b == 32 || 9 <= b <= 13 }

  predicate Blank(line: seq<Byte>) {
    forall b | b in line :: IsSpace(b)
  }

  /** `bytes.splitlines`: LF, CR and CRLF end a line; a final break opens no further line. */
  function Lines(s: seq<Byte>): (lines: seq<seq<Byte>>)
    ensures s != [] ==> lines != []
  {
    if s == [] then []
    else
      var rest := Lines(s[1..]);
      if s[0] == LF then [[]] + rest
      else if s[0] == CR then if |s| > 1 && s[1] == LF then rest else [[]] + rest
      else if |s| == 1 then [s]
      else [[s[0]] + rest[0]] + rest[1..]
  }

  function NonBlank(lines: seq<seq<Byte>>): seq<seq<Byte>> {
    if lines == [] then []
    else (if Blank(lines[0]) then [] else [lines[0]]) + NonBlank(lines[1..])
  }

  function LastNonBlank(file: seq<Byte>): Option<seq<Byte>> {
    var lines := NonBlank(Lines(file));
    if lines == [] then None else Some(lines[|lines| - 1])
  }

  /** One more byte in front changes at most the first line of the buffer. */
  lemma PrependByte(b: Byte, buffer: seq<Byte>)
    requires |NonBlank(Lines(buffer))| >= 2
    ensures |NonBlank(Lines([b] + buffer))| >= 2
    ensures LastNonBlank([b] + buffer) == LastNonBlank(buffer)
  {
    var lines := Lines(buffer);
    assert ([b] + buffer)[1..] == buffer;
    if b == LF || (b == CR && buffer[0] != LF) {
      NewFirstLine([], lines);
    } else if b != CR {
      LongerFirstLine(b, lines);
    }
  }

  lemma NewFirstLine(line: seq<Byte>, lines: seq<seq<Byte>>)
    requires Blank(line)
    ensures NonBlank([line] + lines) == NonBlank(lines)
  {
    assert ([line] + lines)[1..] == lines;
  }

  lemma LongerFirstLine(b: Byte, lines: seq<seq<Byte>>)
    requires |NonBlank(lines)| >= 2
    ensures var longer := NonBlank([[b] + lines[0]] + lines[1..]);
      |longer| >= 2 && longer[|longer| - 1] == NonBlank(lines)[|NonBlank(lines)| - 1]
  {
    var first := [b] + lines[0];
    assert ([first] + lines[1..])[1..] == lines[1..];
    if Blank(first) {
      assert forall c | c in lines[0] :: c in first;
    }
  }

  /** A partial first line in the buffer never changes the answer once two non-blank lines are seen. */
  lemma {:induction false} PartialFirstLineIsHarmless(prefix: seq<Byte>, buffer: seq<Byte>)
    requires |NonBlank(Lines(buffer))| >= 2
    ensures |NonBlank(Lines(prefix + buffer))| >= 2
    ensures LastNonBlank(prefix + buffer) == LastNonBlank(buffer)
    decreases |prefix|
  {
    if prefix == [] {
      assert prefix + buffer == buffer;
    } else {
      PartialFirstLineIsHarmless(prefix[1..], buffer);
      PrependByte(prefix[0], prefix[1..] + buffer);
      assert [prefix[0]] + (prefix[1..] + buffer) == prefix + buffer;
    }
  }

  /** For every file, of every length and content, the backwards reader ends and finds the last non-blank line. */
  method ReadLastLine(file: seq<Byte>) returns (last: Option<seq<Byte>>)
    ensures last == LastNonBlank(file)
  {
    // An empty file, which the source tests for first, makes no iteration.
    var position, buffer := |file|, [];
    while position > 0
      invariant 0 <= position <= |file|
      invariant buffer == file[position..]
      invariant position == 0 ==> file == []
    {
      var size := if CHUNK < position then CHUNK else position;
      position := position - size;
      buffer := file[position..position + size] + buffer;
      assert buffer == file[position..];
      var lines := NonBlank(Lines(buffer));
      if |lines| >= 2 || position == 0 {
        assert file[..position] + buffer == file;
        if |lines| >= 2 {
          PartialFirstLineIsHarmless(file[..position], buffer);
        } else {
          assert buffer == file;
        }
        return if lines != [] then Some(lines[|lines| - 1]) else None;
      }
    }
    last := None;
  }

  // ---------------------------------------------------------------- files the trail itself writes

  function Joined(lines: seq<seq<Byte>>): seq<Byte> {
    if lines == [] then [] else lines[0] + [LF] + Joined(lines[1..])
  }

  predicate OneLine(line: seq<Byte>) {
    LF !in line && CR !in line
  }

  /** Event lines are JSON texts: not blank, and without line breaks. */
  predicate Written(lines: seq<seq<Byte>>) {
    forall line | line in lines :: OneLine(line) && !Blank(line)
  }

  predicate Ends(end: seq<Byte>, rest: seq<Byte>) {
    end == [LF] || end == [CR, LF] || (end == [CR] && (rest == [] || rest[0] != LF))
  }

  lemma LineEnd(end: seq<Byte>, rest: seq<Byte>)
    requires Ends(end, rest)
    ensures Lines(end + rest) == [[]] + Lines(rest)
  {
    var s := end + rest;
    if |end| == 2 {
      assert s[1..] == [LF] + rest && s[1..][1..] == rest;
    } else {
      assert s[1..] == rest;
    }
  }

  lemma OneByteMore(b: Byte, s: seq<Byte>)
    requires b != LF && b != CR
    ensures Lines([b] + s) == if s == [] then [[b]] else [[b] + Lines(s)[0]] + Lines(s)[1..]
  {
    assert ([b] + s)[1..] == s && ([b] + s)[0] == b;
    assert s == [] ==> [b] + s == [b];
  }

  /** LF, CRLF, or a CR not followed by LF, ends the line before it. */
  lemma {:induction false} LinesOfOne(line: seq<Byte>, end: seq<Byte>, rest: seq<Byte>)
    requires OneLine(line) && Ends(end, rest)
    ensures Lines(line + end + rest) == [line] + Lines(rest)
    decreases |line|
  {
    if line == [] {
      LineEnd(end, rest);
      assert line + end + rest == end + rest;
    } else {
      LinesOfOne(line[1..], end, rest);
      var later := line[1..] + end + rest;
      OneByteMore(line[0], later);
      assert line + end + rest == [line[0]] + later && |later| >= |end|;
      assert [line[0]] + line[1..] == line;
      hide Lines;
      assert Lines(later)[0] == line[1..] && Lines(later)[1..] == Lines(rest);
    }
  }

  /** The end of the file ends its last line. */
  lemma {:induction false} LastLine(line: seq<Byte>)
    requires OneLine(line) && line != []
    ensures Lines(line) == [line]
  {
    var rest := line[1..];
    if rest != [] {
      LastLine(rest);
    }
    OneByteMore(line[0], rest);
    assert line == [line[0]] + rest;
    assert rest == [] ==> line == [line[0]];
  }

  /** The bytes `bytes.strip` takes away: tab, LF, VT, FF, CR and the space. A line of nothing else is no event. */
  lemma BlankExactly(before: seq<Byte>, b: Byte, after: seq<Byte>)
    ensures b in [9, 10, 11, 12, 13, 32] ==> (Blank(before + [b] + after) <==> Blank(before + after))
    ensures b !in [9, 10, 11, 12, 13, 32] ==> !Blank(before + [b] + after)
    ensures Blank([])
  {
    assert b in before + [b] + after;
    forall c | c in before + after ensures c in before + [b] + after {}
    forall c | c in before + [b] + after ensures c == b || c in before + after {}
  }

  /** Reading lines back from a written file gives the lines that were written. */
  lemma {:induction false} LinesOfJoined(lines: seq<seq<Byte>>)
    requires Written(lines)
    ensures Lines(Joined(lines)) == lines
  {
    if lines != [] {
      LinesOfOne(lines[0], [LF], Joined(lines[1..]));
      LinesOfJoined(lines[1..]);
    }
  }

  lemma {:induction false} NonBlankAll(lines: seq<seq<Byte>>)
    requires Written(lines)
    ensures NonBlank(lines) == lines
  {
    if lines != [] {
      NonBlankAll(lines[1..]);
    }
  }

  /** On a file of event lines the reader returns the last event written. */
  lemma LastLineOfJoined(lines: seq<seq<Byte>>)
    requires Written(lines)
    ensures LastNonBlank(Joined(lines)) == if lines == [] then None else Some(lines[|lines| - 1])
  {
    hide Written, Blank;
    LinesOfJoined(lines);
    NonBlankAll(lines);
  }
}
