/**
 The audit log file, one JSON record a line: reading its tail and pruning records that are past
 the retention period (internal/audit_store.go).
 */
module AuditStore {
  import opened Wrappers
  import opened GoStrings

  const MAX_SCAN := 1_048_576
  const DEFAULT_LIMIT := 200

  // ---------- bufio.Scanner with ScanLines ----------

  datatype Scan = Scan(lines: seq<string>, tooLong: bool)

  function DropCR(s: string): string {
    if s != "" && s[|s| - 1] == '\r' then s[..|s| - 1] else s
  }

  // The scanner stops at the first line that does not fit its buffer.
  function ScanParts(parts: seq<string>): Scan {
    if parts == [] then Scan([], false)
    else if Utf8Length(parts[0]) >= MAX_SCAN then Scan([], true)
    else
      var rest := ScanParts(parts[1..]);
      Scan([DropCR(parts[0])] + rest.lines, rest.tooLong)
  }

  // The text after the last newline is a line only when it is not empty.
  function ScanLines(text: string): Scan {
    var parts := Split(text, '\n');
    ScanParts(if parts[|parts| - 1] == "" then parts[..|parts| - 1] else parts)
  }

  function WriteLines(lines: seq<string>): string {
    if lines == [] then "" else lines[0] + ['\n'] + WriteLines(lines[1..])
  }

  // What the scanner makes of the next line: without its newline and a carriage return before it,
  // unless it has 1048576 bytes or more.
  lemma ScanNextLine(line: string, rest: string)
    requires '\n' !in line
    ensures Utf8Length(line) >= 1048576 ==> ScanLines(line + ['\n'] + rest) == Scan([], true)
    ensures Utf8Length(line) < 1048576 ==>
      ScanLines(line + ['\n'] + rest) ==
        Scan([if line != "" && line[|line| - 1] == '\r' then line[..|line| - 1] else line] + ScanLines(rest).lines, ScanLines(rest).tooLong)
  {
    hide Utf8Length, Split;
    SplitPrefix(line, '\n', rest);
    var parts, more := Split(line + ['\n'] + rest, '\n'), Split(rest, '\n');
    var kept := if more[|more| - 1] == "" then more[..|more| - 1] else more;
    assert (if parts[|parts| - 1] == "" then parts[..|parts| - 1] else parts) == [line] + kept;
    assert ([line] + kept)[1..] == kept;
  }

  // A last line without a newline is a line when there is something on it.
  lemma ScanLastLine(line: string)
    requires '\n' !in line
    ensures line == "" ==> ScanLines(line) == Scan([], false)
    ensures line != "" ==> ScanLines(line) == ScanLines(line + ['\n'])
  {
    hide Utf8Length, Split;
    SplitFree(line, '\n');
    SplitPrefix(line, '\n', "");
    SplitFree("", '\n');
    assert line + ['\n'] + "" == line + ['\n'];
    assert [line][..0] == [] && ([line] + [""])[..1] == [line];
  }

  // ---------- the tail ----------

  function Last(lines: seq<string>, n: nat): seq<string> {
    if |lines| <= n then lines else lines[|lines| - n..]
  }

  lemma LastIs(lines: seq<string>, n: nat)
    ensures Last(lines, n) == if |lines| <= n then lines else lines[|lines| - n..]
  {
  }

  lemma LastGrows(lines: seq<string>, i: nat, n: nat)
    requires i < |lines| && n > 0
    ensures Last(lines[..i + 1], n) == (if i < n then Last(lines[..i], n) else Last(lines[..i], n)[1..]) + [lines[i]]
  {
    assert lines[..i + 1] == lines[..i] + [lines[i]];
  }

  lemma LastOfNothing(n: nat)
    ensures Last([], n) == []
  {
  }

  // copy(ring, ring[1:]) and the new line in the last place
  method ShiftIn(ring: array<string>, line: string)
    requires ring.Length > 0
    modifies ring
    ensures ring[..] == old(ring[..])[1..] + [line]
  {
    for i := 0 to ring.Length - 1
      invariant forall k :: 0 <= k < i ==> ring[k] == old(ring[k + 1])
      invariant forall k :: i <= k < ring.Length ==> ring[k] == old(ring[k])
    {
      ring[i] := ring[i + 1];
    }
    ring[ring.Length - 1] := line;
  }

  // The ring holds exactly the last lines of the file, in order.
  method TailJSONLines(text: string, limit: int) returns (r: Result<seq<string>, string>)
    ensures ScanLines(text).tooLong ==> r == Err("bufio.Scanner: token too long")
    ensures !ScanLines(text).tooLong ==>
      var lines, n := ScanLines(text).lines, if limit > 0 then limit else 200;
      r == Ok(if |lines| <= n then lines else lines[|lines| - n..])
  {
    hide ScanLines, Last;
    var max := if limit <= 0 then DEFAULT_LIMIT else limit;
    var scan := ScanLines(text);
    var ring := new string[max];
    var n := 0;
    LastOfNothing(max);
    for i := 0 to |scan.lines|
      invariant n == (if i < max then i else max) && ring[..n] == Last(scan.lines[..i], max)
    {
      ghost var kept := ring[..n];
      LastGrows(scan.lines, i, max);
      if n < max {
        ring[n] := scan.lines[i];
        n := n + 1;
        assert ring[..n] == kept + [scan.lines[i]];
      } else {
        assert ring[..] == kept;
        ShiftIn(ring, scan.lines[i]);
        assert ring[..n] == ring[..];
      }
    }
    assert scan.lines[..|scan.lines|] == scan.lines;
    if scan.tooLong {
      return Err("bufio.Scanner: token too long");
    }
    LastIs(scan.lines, max);
    return Ok(ring[..n]);
  }

  // ---------- retention ----------

  // What the standard library makes of a line: the Ts of a JSON record, and the two time layouts.
  datatype Parsers = Parsers(record: string -> Option<string>, nano: string -> Option<int>, plain: string -> Option<int>)

  // auditRecordWithinRetention
  function WithinRetention(p: Parsers, stamp: string, cutoff: int): bool {
    var ts := TrimSpace(stamp);
    if ts == "" then true
    else
      var t := if p.nano(ts).Some? then p.nano(ts) else p.plain(ts);
      t.None? || t.value >= cutoff
  }

  predicate Retained(p: Parsers, line: string, cutoff: int) {
    match p.record(line)
    case None => true
    case Some(stamp) => WithinRetention(p, stamp, cutoff)
  }

  // What one line of the file leaves behind
  function Entry(p: Parsers, raw: string, cutoff: int): (r: seq<string>)
    ensures |r| <= 1
  {
    var line := TrimSpace(raw);
    if line != "" && Retained(p, line, cutoff) then [line] else []
  }

  function Keep(p: Parsers, lines: seq<string>, cutoff: int): seq<string> {
    if lines == [] then [] else Entry(p, lines[0], cutoff) + Keep(p, lines[1..], cutoff)
  }

  // The file after pruning; None stands for no file
  function Pruned(p: Parsers, file: Option<string>, cutoff: int): Option<string> {
    if file.None? || file.value == "" || ScanLines(file.value).tooLong then file
    else
      var kept := Keep(p, ScanLines(file.value).lines, cutoff);
      if kept == [] then None else Some(WriteLines(kept))
  }

  method KeepLines(p: Parsers, lines: seq<string>, cutoff: int) returns (kept: seq<string>)
    ensures kept == Keep(p, lines, cutoff)
  {
    hide TrimSpace, WithinRetention;
    kept := [];
    for i := 0 to |lines|
      invariant kept + Keep(p, lines[i..], cutoff) == Keep(p, lines, cutoff)
    {
      KeepStep(p, lines, i, cutoff, kept);
      hide Keep;
      var line := TrimSpace(lines[i]);
      if line == "" {
        continue;
      }
      var r := p.record(line);
      if r.None? {
        kept := kept + [line];
        continue;
      }
      if WithinRetention(p, r.value, cutoff) {
        kept := kept + [line];
      }
    }
  }

  lemma KeepStep(p: Parsers, lines: seq<string>, i: nat, cutoff: int, kept: seq<string>)
    requires i < |lines|
    ensures kept + Keep(p, lines[i..], cutoff) == (kept + Entry(p, lines[i], cutoff)) + Keep(p, lines[i + 1..], cutoff)
    ensures Entry(p, lines[i], cutoff) == [] ==> kept + Entry(p, lines[i], cutoff) == kept
  {
    hide Entry;
    assert lines[i..][1..] == lines[i + 1..];
  }

  method WriteAll(lines: seq<string>) returns (text: string)
    ensures text == WriteLines(lines)
  {
    text := "";
    for i := 0 to |lines|
      invariant text + WriteLines(lines[i..]) == WriteLines(lines)
    {
      assert lines[i..][1..] == lines[i + 1..];
      text := text + (lines[i] + ['\n']);
    }
  }

  class LogFile {
    var file: Option<string>

    constructor (file: Option<string>)
      ensures this.file == file
    {
      this.file := file;
    }

    // PruneAuditLogToRetention
    method Prune(p: Parsers, cutoff: int) returns (ok: bool)
      modifies this
      ensures file == Pruned(p, old(file), cutoff)
      ensures !ok <==> old(file).Some? && ScanLines(old(file).value).tooLong
    {
      hide ScanLines, Keep, WriteLines;
      if file.None? {
        return true;
      }
      if file.value == "" {
        EmptyScan();
        return true;
      }
      var scan := ScanLines(file.value);
      var kept := KeepLines(p, scan.lines, cutoff);
      if scan.tooLong {
        return false;
      }
      if kept == [] {
        file := None;
        return true;
      }
      var tmp := WriteAll(kept);
      file := Some(tmp);
      return true;
    }
  }

  lemma EmptyScan()
    ensures ScanLines("") == Scan([], false)
  {
    assert Split("", '\n') == [""];
  }

  // ---------- what pruning keeps ----------

  function Shifted(at: seq<nat>): (r: seq<nat>)
    ensures |r| == |at| && forall k :: 0 <= k < |at| ==> r[k] == at[k] + 1
    ensures forall i: nat :: i in r <==> i > 0 && i - 1 in at
  {
    if at == [] then [] else [at[0] + 1] + Shifted(at[1..])
  }

  // The positions of the lines that are kept
  function KeptAt(p: Parsers, lines: seq<string>, cutoff: int): seq<nat> {
    if lines == [] then []
    else (if Entry(p, lines[0], cutoff) == [] then [] else [0]) + Shifted(KeptAt(p, lines[1..], cutoff))
  }

  // The kept lines are lines of the file in the same order, nothing added, ...
  lemma {:induction false} KeepIsSubsequence(p: Parsers, lines: seq<string>, cutoff: int)
    ensures var at, kept := KeptAt(p, lines, cutoff), Keep(p, lines, cutoff);
      |at| == |kept| && forall k :: 0 <= k < |at| ==> at[k] < |lines| && kept[k] == TrimSpace(lines[at[k]])
  {
    hide TrimSpace, Retained, Shifted;
    if lines != [] {
      KeepIsSubsequence(p, lines[1..], cutoff);
      var entry, rest := Entry(p, lines[0], cutoff), Shifted(KeptAt(p, lines[1..], cutoff));
      var kept := Keep(p, lines[1..], cutoff);
      assert Keep(p, lines, cutoff) == entry + kept;
      assert forall k :: 0 <= k < |kept| ==> kept[k] == TrimSpace(lines[rest[k]]);
      hide Entry, Keep;
    }
  }

  lemma {:induction false} KeptAtIncreases(p: Parsers, lines: seq<string>, cutoff: int, j: nat, k: nat)
    requires j < k < |KeptAt(p, lines, cutoff)|
    ensures KeptAt(p, lines, cutoff)[j] < KeptAt(p, lines, cutoff)[k]
  {
    hide Entry, Shifted;
    var first := |KeptAt(p, lines, cutoff)| - |KeptAt(p, lines[1..], cutoff)|;
    if j >= first { KeptAtIncreases(p, lines[1..], cutoff, j - first, k - first); }
  }

  // ... and a line is left out exactly when it is blank or a record with a time before the cutoff:
  // lines and times that do not parse stay, and the first layout that parses counts.
  lemma {:induction false} KeptAtIff(p: Parsers, lines: seq<string>, cutoff: int, i: nat)
    requires i < |lines|
    ensures var line := TrimSpace(lines[i]);
      i !in KeptAt(p, lines, cutoff) <==>
        line == "" ||
        (p.record(line).Some? &&
         var ts := TrimSpace(p.record(line).value);
         ts != "" && if p.nano(ts).Some? then p.nano(ts).value < cutoff else p.plain(ts).Some? && p.plain(ts).value < cutoff)
  {
    hide TrimSpace, Shifted;
    if i > 0 {
      hide Entry;
      KeptAtIff(p, lines[1..], cutoff, i - 1);
      assert i in KeptAt(p, lines, cutoff) <==> i in Shifted(KeptAt(p, lines[1..], cutoff));
    }
  }

  // Lines that a file gives back as they were written
  ghost predicate Writable(line: string) {
    line != "" && Trimmed(line) && '\n' !in line && Utf8Length(line) < MAX_SCAN
  }

  lemma {:induction false} SplitWritten(lines: seq<string>)
    requires forall l :: l in lines ==> '\n' !in l
    ensures Split(WriteLines(lines), '\n') == lines + [""]
  {
    if lines != [] {
      SplitWritten(lines[1..]);
      SplitPrefix(lines[0], '\n', WriteLines(lines[1..]));
    }
  }

  lemma {:induction false} ScanWritable(lines: seq<string>)
    requires forall l :: l in lines ==> Writable(l)
    ensures ScanParts(lines) == Scan(lines, false)
  {
    hide Utf8Length;
    if lines != [] {
      ScanWritable(lines[1..]);
      assert Writable(lines[0]);
      assert DropCR(lines[0]) == lines[0];
    }
  }

  // Scanning what was written gives the lines back.
  lemma ScanOfWritten(lines: seq<string>)
    requires forall l :: l in lines ==> Writable(l)
    ensures ScanLines(WriteLines(lines)) == Scan(lines, false)
  {
    hide ScanParts;
    SplitWritten(lines);
    assert (lines + [""])[..|lines|] == lines;
    ScanWritable(lines);
  }

  lemma {:induction false} TrimLeftIsSuffix(s: string) returns (n: nat)
    ensures n <= |s| && TrimLeft(s) == s[n..]
  {
    n := 0;
    if s != "" && IsSpace(s[0]) {
      var m := TrimLeftIsSuffix(s[1..]);
      n := m + 1;
      assert s[1..][m..] == s[n..];
    }
  }

  lemma TrimSpaceIsSlice(s: string) returns (a: string, b: string)
    ensures s == a + TrimSpace(s) + b
  {
    hide TrimLeft, TrimRight, IsSpace;
    var n := TrimLeftIsSuffix(s);
    var t := TrimSpace(s);
    a, b := s[..n], s[n..][|t|..];
    assert t + b == s[n..];
    assert s[..n] + s[n..] == s;
  }

  // Trimming a short line without newlines gives a line that can be written, unless nothing is left.
  lemma TrimmedIsWritable(s: string)
    requires '\n' !in s && Utf8Length(s) < MAX_SCAN && TrimSpace(s) != ""
    ensures Writable(TrimSpace(s))
  {
    hide TrimSpace, Utf8Length;
    var a, b := TrimSpaceIsSlice(s);
    var t := TrimSpace(s);
    Utf8LengthAdds(a, t);
    Utf8LengthAdds(a + t, b);
    assert forall c :: c in t ==> c in a + t + b;
  }

  // Lines as the scanner hands them out
  ghost predicate Scanned(line: string) {
    '\n' !in line && Utf8Length(line) < MAX_SCAN
  }

  lemma {:induction false} ScanPartsAreShort(parts: seq<string>)
    requires forall q :: q in parts ==> '\n' !in q
    ensures forall l :: l in ScanParts(parts).lines ==> Scanned(l)
  {
    if parts != [] && Utf8Length(parts[0]) < MAX_SCAN {
      ScanPartsAreShort(parts[1..]);
      var l := DropCR(parts[0]);
      Utf8LengthAdds(l, parts[0][|l|..]);
      assert l + parts[0][|l|..] == parts[0];
      assert Scanned(l) by { assert parts[0] in parts; }
    }
  }

  lemma ScannedLines(text: string)
    ensures forall l :: l in ScanLines(text).lines ==> Scanned(l)
  {
    hide ScanParts, Scanned;
    JoinSplit(text, '\n');
    var parts := Split(text, '\n');
    ScanPartsAreShort(if parts[|parts| - 1] == "" then parts[..|parts| - 1] else parts);
  }

  lemma {:induction false} KeptAreWritable(p: Parsers, lines: seq<string>, cutoff: int)
    requires forall l :: l in lines ==> Scanned(l)
    ensures forall l :: l in Keep(p, lines, cutoff) ==> Writable(l)
  {
    hide TrimSpace, Retained, Writable, Utf8Length;
    if lines != [] {
      KeptAreWritable(p, lines[1..], cutoff);
      assert Scanned(lines[0]);
      if TrimSpace(lines[0]) != "" { TrimmedIsWritable(lines[0]); }
    }
  }

  function Max(a: int, b: int): int { if a < b then b else a }

  lemma RetainedTwice(p: Parsers, line: string, c: int, d: int)
    ensures Retained(p, line, c) && Retained(p, line, d) <==> Retained(p, line, Max(c, d))
  {
    hide TrimSpace;
  }

  lemma {:induction false} KeepTwice(p: Parsers, lines: seq<string>, c: int, d: int)
    ensures Keep(p, Keep(p, lines, c), d) == Keep(p, lines, Max(c, d))
  {
    hide Retained, TrimSpace, Max;
    if lines != [] {
      KeepTwice(p, lines[1..], c, d);
      var line := TrimSpace(lines[0]);
      RetainedTwice(p, line, c, d);
      var kept := Keep(p, lines, c);
      var rest := Keep(p, lines[1..], c);
      if line != "" && Retained(p, line, c) {
        assert kept == [line] + rest;
        assert kept[0] == line && kept[1..] == rest;
        assert TrimSpace(line) == line;
      } else {
        assert kept == rest;
      }
    }
  }

  // Pruning twice is pruning once at the later cutoff; pruning again at the same one changes nothing.
  lemma PruneTwice(p: Parsers, file: Option<string>, c: int, d: int)
    ensures Pruned(p, Pruned(p, file, c), d) == Pruned(p, file, Max(c, d))
  {
    hide ScanLines, Keep, Max;
    if file.Some? && file.value != "" && !ScanLines(file.value).tooLong {
      var lines := ScanLines(file.value).lines;
      var kept := Keep(p, lines, c);
      KeepTwice(p, lines, c, d);
      if kept == [] {
        KeepNothing(p, d);
      } else {
        ScannedLines(file.value);
        KeptAreWritable(p, lines, c);
        ScanOfWritten(kept);
      }
    }
  }

  lemma KeepNothing(p: Parsers, cutoff: int)
    ensures Keep(p, [], cutoff) == []
  {
  }

  // Reading the pruned file gives exactly the retained lines of the original.
  lemma PrunedReadsBack(p: Parsers, text: string, cutoff: int)
    requires text != "" && !ScanLines(text).tooLong
    ensures var kept := Keep(p, ScanLines(text).lines, cutoff);
      Pruned(p, Some(text), cutoff).None? <==> kept == []
    ensures var kept := Keep(p, ScanLines(text).lines, cutoff);
      kept != [] ==> ScanLines(Pruned(p, Some(text), cutoff).value) == Scan(kept, false)
  {
    hide ScanLines, Keep;
    ScannedLines(text);
    KeptAreWritable(p, ScanLines(text).lines, cutoff);
    var kept := Keep(p, ScanLines(text).lines, cutoff);
    ScanOfWritten(kept);
  }
}
