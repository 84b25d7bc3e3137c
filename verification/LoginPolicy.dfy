/**
 The list of addresses an account may sign in from (internal/dashboard_login_policy.go): its
 tokens, their validation on saving, and the check of a client address.
 */
module LoginPolicy {
  import opened Wrappers
  import opened GoStrings

  // ---------- addresses ----------

  // An address is its 4 or 16 bytes. An IPv4-mapped address is an IPv4 address, as in Go's net.
  type Address = seq<bv8>

  // net.IPNet as net.ParseCIDR gives it: the network number, and the number of leading ones in the mask
  datatype Network = Network(number: Address, ones: nat)

  // The byte of net.CIDRMask where k ones are left
  function MaskByte(k: int): bv8 {
    if k >= 8 then 0xFF else if k <= 0 then 0 else !(0xFF >> k)
  }

  function Masked(x: bv8, k: int): bv8 { x & MaskByte(k) }

  // IPNet.Contains: number and address agree, byte by byte, under the mask.
  predicate Contains(n: Network, ip: Address) {
    |ip| == |n.number| &&
    forall i :: 0 <= i < |ip| ==> Masked(n.number[i], n.ones - 8 * i) == Masked(ip[i], n.ones - 8 * i)
  }

  function Bit(b: bv8, k: nat): bool
    requires k < 8
  {
    b & (0x80 >> k) != 0
  }

  function BitAt(a: Address, j: nat): bool
    requires j < 8 * |a|
  {
    Bit(a[j / 8], j % 8)
  }

  // A CIDR block: the addresses of the network's width that begin with its prefix (RFC 4632, section 3.1)
  predicate InBlock(n: Network, ip: Address) {
    |ip| == |n.number| && forall j: nat :: j < 8 * |ip| && j < n.ones ==> BitAt(ip, j) == BitAt(n.number, j)
  }

  // One more bit of the mask compares one more bit.
  predicate OneMoreBit(x: bv8, y: bv8, k: nat)
    requires k < 8
  {
    Masked(x, k + 1) == Masked(y, k + 1) <==> Masked(x, k) == Masked(y, k) && Bit(x, k) == Bit(y, k)
  }

  lemma MaskGrows0(x: bv8, y: bv8)
    ensures OneMoreBit(x, y, 0)
  {
  }

  lemma MaskGrows1(x: bv8, y: bv8)
    ensures OneMoreBit(x, y, 1)
  {
  }

  lemma MaskGrows2(x: bv8, y: bv8)
    ensures OneMoreBit(x, y, 2)
  {
  }

  lemma MaskGrows3(x: bv8, y: bv8)
    ensures OneMoreBit(x, y, 3)
  {
  }

  lemma MaskGrows4(x: bv8, y: bv8)
    ensures OneMoreBit(x, y, 4)
  {
  }

  lemma MaskGrows5(x: bv8, y: bv8)
    ensures OneMoreBit(x, y, 5)
  {
  }

  lemma MaskGrows6(x: bv8, y: bv8)
    ensures OneMoreBit(x, y, 6)
  {
  }

  lemma MaskGrows7(x: bv8, y: bv8)
    ensures OneMoreBit(x, y, 7)
  {
  }

  lemma MaskGrows(x: bv8, y: bv8, k: nat)
    requires k < 8
    ensures OneMoreBit(x, y, k)
  {
    hide OneMoreBit;
    if k == 0 {
      MaskGrows0(x, y);
    } else if k == 1 {
      MaskGrows1(x, y);
    } else if k == 2 {
      MaskGrows2(x, y);
    } else if k == 3 {
      MaskGrows3(x, y);
    } else if k == 4 {
      MaskGrows4(x, y);
    } else if k == 5 {
      MaskGrows5(x, y);
    } else if k == 6 {
      MaskGrows6(x, y);
    } else if k == 7 {
      MaskGrows7(x, y);
    }
  }

  lemma MaskEnds(x: bv8, k: int)
    ensures k <= 0 ==> Masked(x, k) == 0
    ensures k >= 8 ==> Masked(x, k) == Masked(x, 8) == x
  {
  }

  // Two bytes agree under a mask exactly when their leading bits do.
  lemma {:induction false} ByteAgrees(x: bv8, y: bv8, k: int)
    ensures Masked(x, k) == Masked(y, k) <==> forall j: nat :: j < 8 && j < k ==> Bit(x, j) == Bit(y, j)
    decreases k
  {
    hide Bit, Masked;
    MaskEnds(x, k);
    MaskEnds(y, k);
    if k > 8 {
      ByteAgrees(x, y, 8);
      MaskEnds(x, 8);
      MaskEnds(y, 8);
    } else if k > 0 {
      ByteAgrees(x, y, k - 1);
      MaskGrows(x, y, k - 1);
    }
  }

  ghost predicate ByteInBlock(n: Network, ip: Address, i: nat)
    requires i < |ip| == |n.number|
  {
    forall r: nat :: r < 8 && r < n.ones - 8 * i ==> Bit(n.number[i], r) == Bit(ip[i], r)
  }

  lemma InBlockByBytes(n: Network, ip: Address)
    requires |ip| == |n.number|
    ensures InBlock(n, ip) <==> forall i: nat :: i < |ip| ==> ByteInBlock(n, ip, i)
  {
    hide Bit;
    if InBlock(n, ip) {
      forall i: nat, r: nat | i < |ip| && r < 8 && r < n.ones - 8 * i ensures Bit(n.number[i], r) == Bit(ip[i], r) {
        assert BitAt(ip, 8 * i + r) == BitAt(n.number, 8 * i + r);
      }
    }
    if forall i: nat :: i < |ip| ==> ByteInBlock(n, ip, i) {
      forall j: nat | j < 8 * |ip| && j < n.ones ensures BitAt(ip, j) == BitAt(n.number, j) {
        assert ByteInBlock(n, ip, j / 8) && j % 8 < n.ones - 8 * (j / 8);
      }
    }
  }

  // The masked comparison is the test of the prefix.
  lemma ContainsIsPrefix(n: Network, ip: Address)
    ensures Contains(n, ip) <==> InBlock(n, ip)
  {
    hide Bit, Masked, InBlock;
    if |ip| == |n.number| {
      InBlockByBytes(n, ip);
      forall i: nat | i < |ip|
        ensures Masked(n.number[i], n.ones - 8 * i) == Masked(ip[i], n.ones - 8 * i) <==> ByteInBlock(n, ip, i)
      {
        ByteAgrees(n.number[i], ip[i], n.ones - 8 * i);
      }
    } else {
      assert !InBlock(n, ip) by { DifferentWidth(n, ip); }
    }
  }

  lemma DifferentWidth(n: Network, ip: Address)
    requires |ip| != |n.number|
    ensures !InBlock(n, ip)
  {
  }

  // net.ParseIP and net.ParseCIDR
  datatype Parsers = Parsers(ip: string -> Option<Address>, cidr: string -> Option<Network>)

  // Neither parser accepts a text with the comment sign in it.
  ghost predicate RejectComments(p: Parsers) {
    forall t: string {:trigger p.ip(t)} {:trigger p.cidr(t)} :: '#' in t ==> p.ip(t).None? && p.cidr(t).None?
  }

  // ---------- tokens ----------

  predicate IsSeparator(c: char) { c == ',' || c == ';' || c == ' ' }

  function PieceLength(s: string): (n: nat)
    ensures n <= |s|
    ensures forall c :: c in s[..n] ==> !IsSeparator(c)
    ensures n < |s| ==> IsSeparator(s[n])
  {
    if s == "" || IsSeparator(s[0]) then 0 else 1 + PieceLength(s[1..])
  }

  // strings.FieldsFunc
  function Pieces(s: string): seq<string>
    decreases |s|
  {
    if s == "" then []
    else if IsSeparator(s[0]) then Pieces(s[1..])
    else [s[..PieceLength(s)]] + Pieces(s[PieceLength(s)..])
  }

  // The pieces that are not blank, trimmed
  function Trims(pieces: seq<string>): seq<string> {
    if pieces == [] then []
    else Trims(pieces[..|pieces| - 1]) +
         if TrimSpace(pieces[|pieces| - 1]) == "" then [] else [TrimSpace(pieces[|pieces| - 1])]
  }

  predicate IsComment(line: string) { line != "" && line[0] == '#' }

  function LineTokens(raw: string): seq<string> {
    var line := TrimSpace(raw);
    if line == "" || IsComment(line) then [] else Trims(Pieces(line))
  }

  function LinesTokens(lines: seq<string>): seq<string> {
    if lines == [] then [] else LinesTokens(lines[..|lines| - 1]) + LineTokens(lines[|lines| - 1])
  }

  function Tokens(raw: string): seq<string> {
    if TrimSpace(raw) == "" then [] else LinesTokens(Split(TrimSpace(raw), '\n'))
  }

  // The inner loop: append the tokens of one line
  method AppendPieces(out: seq<string>, pieces: seq<string>) returns (r: seq<string>)
    ensures r == out + Trims(pieces)
  {
    hide TrimSpace;
    r := out;
    for j := 0 to |pieces|
      invariant r == out + Trims(pieces[..j])
    {
      assert pieces[..j + 1][..j] == pieces[..j];
      var q := TrimSpace(pieces[j]);
      if q != "" {
        r := r + [q];
      }
    }
    assert pieces[..|pieces|] == pieces;
  }

  method SplitLoginIPTokens(raw: string) returns (out: seq<string>)
    ensures out == Tokens(raw)
  {
    hide TrimSpace, Split, Pieces, Trims;
    var text := TrimSpace(raw);
    if text == "" {
      return [];
    }
    out := [];
    var lines := Split(text, '\n');
    for i := 0 to |lines|
      invariant out == LinesTokens(lines[..i])
    {
      assert lines[..i + 1][..i] == lines[..i];
      var line := TrimSpace(lines[i]);
      if line == "" || IsComment(line) {
        continue;
      }
      out := AppendPieces(out, Pieces(line));
    }
    assert lines[..|lines|] == lines;
  }

  // ---------- what the tokens of a text are ----------

  // Commas, semicolons and blanks separate, and nothing else does.
  lemma SeparatorsAre(c: char)
    ensures IsSeparator(c) <==> c in ",; "
  {
  }

  // Any one of the three separators ends a piece ...
  lemma {:induction false} PiecesAppend(a: string, c: char, b: string)
    requires IsSeparator(c)
    ensures Pieces(a + [c] + b) == Pieces(a) + Pieces(b)
    decreases |a|
  {
    hide IsSeparator, PieceLength;
    var s := a + [c] + b;
    if a == "" {
      assert s[1..] == b;
    } else if IsSeparator(a[0]) {
      assert s[1..] == a[1..] + [c] + b;
      PiecesAppend(a[1..], c, b);
    } else {
      var n := PieceLength(a);
      PieceLengthAppend(a, c, b);
      PieceIsNotEmpty(a);
      assert s[..n] == a[..n] && s[n..] == a[n..] + [c] + b;
      PiecesAppend(a[n..], c, b);
    }
  }

  lemma PieceIsNotEmpty(s: string)
    requires s != "" && !IsSeparator(s[0])
    ensures PieceLength(s) > 0
  {
  }

  lemma {:induction false} PieceLengthAppend(a: string, c: char, b: string)
    requires IsSeparator(c)
    ensures PieceLength(a + [c] + b) == PieceLength(a)
  {
    hide IsSeparator;
    var s := a + [c] + b;
    if a != "" && !IsSeparator(a[0]) {
      PieceLengthAppend(a[1..], c, b);
      assert s[1..] == a[1..] + [c] + b;
    }
  }

  // ... a text without one is a single piece ...
  lemma OnePiece(s: string)
    requires s != "" && forall c :: c in s ==> !IsSeparator(c)
    ensures Pieces(s) == [s]
  {
    var n := PieceLength(s);
    assert forall i :: 0 <= i < |s| ==> s[i] in s;
    assert s[..n] == s && s[n..] == "";
  }

  lemma {:induction false} LinesTokensAppend(a: seq<string>, b: seq<string>)
    ensures LinesTokens(a + b) == LinesTokens(a) + LinesTokens(b)
  {
    hide LineTokens;
    if b == [] {
      assert a + b == a;
    } else {
      LinesTokensAppend(a, b[..|b| - 1]);
      assert (a + b)[..|a + b| - 1] == a + b[..|b| - 1];
    }
  }

  lemma OneLine(line: string)
    ensures LinesTokens([line]) == LineTokens(line)
    ensures LineTokens("") == []
  {
    hide LineTokens, TrimSpace;
    assert [line][..0] == [];
    assert LinesTokens([]) == [];
    BlankLine();
  }

  // A blank line and a comment have no tokens; the pieces of any other line are its tokens, trimmed.
  lemma LineTokensAre(raw: string)
    ensures var line := TrimSpace(raw);
      LineTokens(raw) == if line == "" || line[0] == '#' then [] else Trims(Pieces(line))
  {
    hide TrimSpace, Pieces, Trims;
  }

  lemma {:induction false} TrimsAppend(a: seq<string>, b: seq<string>)
    ensures Trims(a + b) == Trims(a) + Trims(b)
  {
    hide TrimSpace;
    if b == [] {
      assert a + b == a;
    } else {
      TrimsAppend(a, b[..|b| - 1]);
      assert (a + b)[..|a + b| - 1] == a + b[..|b| - 1];
    }
  }

  lemma TrimsOne(piece: string)
    ensures Trims([piece]) == if TrimSpace(piece) == "" then [] else [TrimSpace(piece)]
  {
    hide TrimSpace;
    assert [piece][..0] == [];
  }

  lemma BlankLine()
    ensures LineTokens("") == []
  {
    hide Pieces;
    assert TrimSpace("") == "";
  }

  lemma SpaceBefore(c: char, line: string)
    requires IsSpace(c)
    ensures LineTokens([c] + line) == LineTokens(line)
  {
    hide Pieces, IsSpace, IsComment;
    assert ([c] + line)[1..] == line;
  }

  lemma SpaceAfter(line: string, c: char)
    requires IsSpace(c)
    ensures LineTokens(line + [c]) == LineTokens(line)
  {
    hide Pieces, IsSpace, IsComment, TrimRight;
    TrimLeftSnoc(line, c);
    var t := TrimLeft(line) + [c];
    assert TrimRight(t) == TrimRight(TrimLeft(line)) by { TrimRightSnoc(TrimLeft(line), c); }
  }

  lemma TrimRightSnoc(s: string, c: char)
    requires IsSpace(c)
    ensures TrimRight(s + [c]) == TrimRight(s)
  {
    assert (s + [c])[..|s|] == s;
  }

  lemma {:induction false} TrimLeftSnoc(s: string, c: char)
    requires IsSpace(c)
    ensures TrimLeft(s + [c]) == if TrimLeft(s) == "" then "" else TrimLeft(s) + [c]
  {
    hide IsSpace;
    if s == "" {
      assert (s + [c])[1..] == "";
      assert TrimLeft("") == "";
    } else if IsSpace(s[0]) {
      TrimLeftSnoc(s[1..], c);
      assert (s + [c])[1..] == s[1..] + [c];
    }
  }

  lemma {:induction false} SplitSnoc(s: string, c: char, sep: char)
    ensures Split(s + [c], sep) == PutLast(Split(s, sep), c, sep)
  {
    if s == "" {
      assert (s + [c])[0] == c && (s + [c])[1..] == "";
      assert Split("", sep) == [""];
      assert Split(s + [c], sep) == PutFirst(c, sep, [""]);
      assert [c] + "" == "" + [c];
      assert PutFirst(c, sep, [""]) == PutLast([""], c, sep);
    } else {
      SplitSnoc(s[1..], c, sep);
      assert (s + [c])[1..] == s[1..] + [c];
      assert Split(s, sep) == PutFirst(s[0], sep, Split(s[1..], sep));
      assert Split(s + [c], sep) == PutFirst(s[0], sep, Split(s[1..] + [c], sep));
      hide Split, PutFirst, PutLast;
      PutSnoc(s[0], sep, Split(s[1..], sep), c);
    }
  }

  // One step of Split: a character in front of the parts of the rest
  function PutFirst(c: char, sep: char, parts: seq<string>): (r: seq<string>)
    requires parts != []
    ensures r != []
  {
    if c == sep then [""] + parts else [[c] + parts[0]] + parts[1..]
  }

  function PutLast(parts: seq<string>, c: char, sep: char): (r: seq<string>)
    requires parts != []
    ensures r != []
  {
    if c == sep then parts + [""] else parts[..|parts| - 1] + [parts[|parts| - 1] + [c]]
  }

  lemma PutSnoc(h: char, sep: char, parts: seq<string>, c: char)
    requires parts != []
    ensures PutFirst(h, sep, PutLast(parts, c, sep)) == PutLast(PutFirst(h, sep, parts), c, sep)
  {
    var n := |parts| - 1;
    var moved := PutLast(parts, c, sep);
    if h == sep {
      var first := [""] + parts;
      if c == sep {
        assert [""] + (parts + [""]) == first + [""];
      } else {
        assert first[..n + 1] == [""] + parts[..n];
        assert [""] + moved == first[..n + 1] + [first[n + 1] + [c]];
      }
    } else {
      var first := [[h] + parts[0]] + parts[1..];
      if c == sep {
        assert [[h] + moved[0]] + moved[1..] == first + [""];
      } else if n == 0 {
        assert [h] + (parts[0] + [c]) == [h] + parts[0] + [c];
        assert moved[1..] == [] && first[..n] == [];
      } else {
        assert moved[1..] == parts[1..n] + [parts[n] + [c]];
        assert first[..n] == [[h] + parts[0]] + parts[1..n];
      }
    }
  }

  lemma {:induction false} TrimLeftTokens(s: string)
    ensures LinesTokens(Split(TrimLeft(s), '\n')) == LinesTokens(Split(s, '\n'))
  {
    hide IsSpace, LinesTokens, LineTokens;
    if s != "" && IsSpace(s[0]) {
      TrimLeftTokens(s[1..]);
      var rest := Split(s[1..], '\n');
      var head := if s[0] == '\n' then [""] else [[s[0]] + rest[0]];
      var tail := if s[0] == '\n' then rest else rest[1..];
      assert Split(s, '\n') == head + tail;
      LinesTokensAppend(head, tail);
      OneLine(head[0]);
      if s[0] != '\n' {
        SpaceBefore(s[0], rest[0]);
        OneLine(rest[0]);
        LinesTokensAppend([rest[0]], rest[1..]);
        assert [rest[0]] + rest[1..] == rest;
      }
    }
  }

  lemma {:induction false} TrimRightTokens(s: string)
    ensures LinesTokens(Split(TrimRight(s), '\n')) == LinesTokens(Split(s, '\n'))
  {
    hide IsSpace, LinesTokens, LineTokens, Split;
    if s != "" && IsSpace(s[|s| - 1]) {
      var t, c := s[..|s| - 1], s[|s| - 1];
      TrimRightTokens(t);
      SplitSnoc(t, c, '\n');
      assert t + [c] == s;
      var parts := Split(t, '\n');
      var front, last := parts[..|parts| - 1], parts[|parts| - 1];
      assert front + [last] == parts;
      if c == '\n' {
        LinesTokensAppend(parts, [""]);
        OneLine("");
      } else {
        LinesTokensAppend(front, [last]);
        LinesTokensAppend(front, [last + [c]]);
        OneLine(last);
        OneLine(last + [c]);
        SpaceAfter(last, c);
      }
    }
  }

  // ... and the tokens of a text are those of its lines, one after the other: the white space
  // around the text, newlines included, makes no difference.
  lemma TokensByLine(lines: seq<string>)
    requires lines != [] && forall l :: l in lines ==> '\n' !in l
    ensures Tokens(Join(lines, '\n')) == LinesTokens(lines)
  {
    hide LinesTokens, LineTokens, TrimLeft, TrimRight, Split;
    var raw := Join(lines, '\n');
    SplitJoin(lines, '\n');
    TrimLeftTokens(raw);
    TrimRightTokens(TrimLeft(raw));
    SplitFree("", '\n');
    OneLine("");
  }

  // ---------- validation and admission ----------

  // What a token stands for; a token that does not parse stands for nothing.
  predicate Denotes(p: Parsers, t: string, ip: Address) {
    if '/' in t then p.cidr(t).Some? && Contains(p.cidr(t).value, ip)
    else p.ip(t) == Some(ip)
  }

  predicate WellFormed(p: Parsers, t: string) {
    if '/' in t then p.cidr(t).Some? else p.ip(t).Some?
  }

  method ValidateAllowedLoginIPsText(p: Parsers, raw: string) returns (r: Result<(), string>)
    ensures r.Ok? <==> forall t :: t in Tokens(raw) ==> WellFormed(p, t)
    ensures r.Err? ==> exists k ::
      0 <= k < |Tokens(raw)| && !WellFormed(p, Tokens(raw)[k]) && (forall j :: 0 <= j < k ==> WellFormed(p, Tokens(raw)[j])) &&
      r.error == (if '/' in Tokens(raw)[k] then "无效的 CIDR: " else "无效的 IP: ") + Tokens(raw)[k]
  {
    hide Tokens;
    var tokens := SplitLoginIPTokens(raw);
    for i := 0 to |tokens|
      invariant forall j :: 0 <= j < i ==> WellFormed(p, tokens[j])
    {
      var t := tokens[i];
      if '/' in t {
        if p.cidr(t).None? {
          assert !WellFormed(p, tokens[i]);
          return Err("无效的 CIDR: " + t);
        }
        continue;
      }
      if p.ip(t).None? {
        assert !WellFormed(p, tokens[i]);
        return Err("无效的 IP: " + t);
      }
    }
    return Ok(());
  }

  predicate Admits(p: Parsers, client: string, tokens: seq<string>) {
    match p.ip(TrimSpace(client))
    case None => false
    case Some(ip) => tokens == [] || exists t :: t in tokens && Denotes(p, t, ip)
  }

  method ClientIPMatchesAllowlist(p: Parsers, client: string, raw: string) returns (r: bool)
    ensures r == Admits(p, client, Tokens(raw))
  {
    hide Tokens, TrimSpace, Contains;
    var parsed := p.ip(TrimSpace(client));
    if parsed.None? {
      return false;
    }
    var ip := parsed.value;
    var tokens := SplitLoginIPTokens(raw);
    if tokens == [] {
      return true;
    }
    for i := 0 to |tokens|
      invariant forall j :: 0 <= j < i ==> !Denotes(p, tokens[j], ip)
    {
      var t := tokens[i];
      if '/' in t {
        var n := p.cidr(t);
        if n.None? {
          continue;
        }
        if Contains(n.value, ip) {
          assert Denotes(p, tokens[i], ip);
          return true;
        }
        continue;
      }
      var x := p.ip(t);
      if x.Some? && x.value == ip {
        assert Denotes(p, tokens[i], ip);
        return true;
      }
    }
    return false;
  }

  // ---------- what a saved list means ----------

  // A client without an address is never admitted, and without tokens every other one is.
  lemma AdmittedAtTheEdges(p: Parsers, client: string, tokens: seq<string>)
    ensures p.ip(TrimSpace(client)).None? ==> !Admits(p, client, tokens)
    ensures p.ip(TrimSpace(client)).Some? ==> Admits(p, client, [])
  {
    hide TrimSpace, Denotes;
  }

  // One more token admits what it stands for, and nothing else: an address for a token without a
  // slash, the addresses of a block for one with a slash.
  lemma OneMoreToken(p: Parsers, client: string, tokens: seq<string>, t: string, ip: Address)
    requires p.ip(TrimSpace(client)) == Some(ip) && tokens != []
    ensures Admits(p, client, tokens + [t]) <==>
      Admits(p, client, tokens) ||
      ('/' !in t && p.ip(t) == Some(ip)) || ('/' in t && p.cidr(t).Some? && InBlock(p.cidr(t).value, ip))
  {
    hide TrimSpace, Contains, InBlock;
    if '/' in t && p.cidr(t).Some? { ContainsIsPrefix(p.cidr(t).value, ip); }
    assert Denotes(p, t, ip) <==>
      ('/' !in t && p.ip(t) == Some(ip)) || ('/' in t && p.cidr(t).Some? && InBlock(p.cidr(t).value, ip));
    hide Denotes;
    var more := tokens + [t];
    assert forall u :: u in more <==> u in tokens || u == t;
  }

  // The block a token stands for: a single address is the block of its full width.
  function Block(p: Parsers, t: string): Option<Network> {
    if '/' in t then p.cidr(t)
    else match p.ip(t) case None => None case Some(a) => Some(Network(a, 8 * |a|))
  }

  function Blocks(p: Parsers, tokens: seq<string>): Option<seq<Network>> {
    if tokens == [] then Some([])
    else match Block(p, tokens[0])
      case None => None
      case Some(n) =>
        match Blocks(p, tokens[1..]) case None => None case Some(rest) => Some([n] + rest)
  }

  lemma FullWidth(a: Address, ip: Address)
    ensures InBlock(Network(a, 8 * |a|), ip) <==> a == ip
  {
    var n := Network(a, 8 * |a|);
    ContainsIsPrefix(n, ip);
    if Contains(n, ip) {
      forall i | 0 <= i < |a| ensures a[i] == ip[i] {
        hide Masked;
        MaskEnds(a[i], n.ones - 8 * i);
        MaskEnds(ip[i], n.ones - 8 * i);
      }
    }
  }

  lemma {:induction false} UnionOfBlocks(p: Parsers, tokens: seq<string>, ip: Address)
    ensures Blocks(p, tokens).Some? <==> forall t :: t in tokens ==> WellFormed(p, t)
    ensures Blocks(p, tokens).Some? ==>
      |Blocks(p, tokens).value| == |tokens| &&
      ((exists t :: t in tokens && Denotes(p, t, ip)) <==> exists n :: n in Blocks(p, tokens).value && InBlock(n, ip))
  {
    hide Contains, InBlock;
    if tokens != [] {
      var t := tokens[0];
      UnionOfBlocks(p, tokens[1..], ip);
      assert forall u :: u in tokens <==> u == t || u in tokens[1..];
      assert WellFormed(p, t) <==> Block(p, t).Some?;
      if Block(p, t).Some? {
        var n := Block(p, t).value;
        assert Denotes(p, t, ip) <==> InBlock(n, ip) by {
          FullWidth(n.number, ip);
          ContainsIsPrefix(n, ip);
        }
        if Blocks(p, tokens).Some? {
          assert forall m :: m in Blocks(p, tokens).value <==> m == n || m in Blocks(p, tokens[1..]).value;
        }
      }
    }
  }

  // Every token of an accepted text stands for a block of addresses, so none is skipped, and an
  // address is admitted exactly when the list is empty or it lies in the union of the blocks.
  lemma AdmittedIff(p: Parsers, client: string, raw: string, ip: Address)
    requires forall t :: t in Tokens(raw) ==> WellFormed(p, t)
    requires p.ip(TrimSpace(client)) == Some(ip)
    ensures var blocks := Blocks(p, Tokens(raw));
      blocks.Some? && |blocks.value| == |Tokens(raw)| &&
      (Admits(p, client, Tokens(raw)) <==> blocks.value == [] || exists n :: n in blocks.value && InBlock(n, ip))
  {
    hide Tokens, TrimSpace, InBlock, Denotes, WellFormed, Blocks;
    UnionOfBlocks(p, Tokens(raw), ip);
  }

  // Order and repetition of the tokens do not matter.
  lemma OnlyTheSetMatters(p: Parsers, client: string, a: seq<string>, b: seq<string>)
    requires forall t :: t in a <==> t in b
    ensures Admits(p, client, a) == Admits(p, client, b)
  {
    hide TrimSpace, Denotes;
    if a != [] { assert a[0] in b; }
    if b != [] { assert b[0] in a; }
  }

  // ---------- splitting again ----------

  ghost predicate Clean(t: string) {
    t != "" && Trimmed(t) && '\n' !in t && forall c :: c in t ==> !IsSeparator(c)
  }

  lemma {:induction false} PiecesAreSlices(s: string)
    ensures forall q :: q in Pieces(s) ==> forall c :: c in q ==> c in s && !IsSeparator(c)
    decreases |s|
  {
    if s == "" {
    } else if IsSeparator(s[0]) {
      PiecesAreSlices(s[1..]);
      assert forall c :: c in s[1..] ==> c in s;
    } else {
      var n := PieceLength(s);
      PiecesAreSlices(s[n..]);
      assert forall c :: c in s[n..] ==> c in s;
      assert forall c :: c in s[..n] ==> c in s;
    }
  }

  lemma {:induction false} TrimSpaceKeepsChars(s: string)
    ensures forall c :: c in TrimSpace(s) ==> c in s
  {
    TrimLeftKeepsChars(s);
  }

  lemma {:induction false} TrimLeftKeepsChars(s: string)
    ensures forall c :: c in TrimLeft(s) ==> c in s
  {
    if s != "" && IsSpace(s[0]) { TrimLeftKeepsChars(s[1..]); }
  }

  lemma {:induction false} TrimsAreClean(pieces: seq<string>)
    requires forall q :: q in pieces ==> forall c :: c in q ==> c != '\n' && !IsSeparator(c)
    ensures forall t :: t in Trims(pieces) ==> Clean(t)
  {
    hide TrimSpace;
    if pieces != [] {
      var front, last := pieces[..|pieces| - 1], pieces[|pieces| - 1];
      assert forall q :: q in front ==> q in pieces;
      TrimsAreClean(front);
      TrimSpaceKeepsChars(last);
      assert last in pieces;
    }
  }

  lemma {:induction false} LinesTokensAreClean(lines: seq<string>)
    requires forall l :: l in lines ==> '\n' !in l
    ensures forall t :: t in LinesTokens(lines) ==> Clean(t)
  {
    hide TrimSpace, Pieces, Trims, Clean;
    if lines != [] {
      var last := lines[|lines| - 1];
      LinesTokensAreClean(lines[..|lines| - 1]);
      TrimSpaceKeepsChars(last);
      PiecesAreSlices(TrimSpace(last));
      assert last in lines;
      assert '\n' !in TrimSpace(last);
      forall q | q in Pieces(TrimSpace(last)) ensures forall c :: c in q ==> c != '\n' && !IsSeparator(c) {
        assert forall c :: c in q ==> c in TrimSpace(last);
      }
      TrimsAreClean(Pieces(TrimSpace(last)));
    }
  }

  lemma TokensAreClean(raw: string)
    ensures forall t :: t in Tokens(raw) ==> Clean(t)
  {
    hide TrimSpace, LinesTokens, Clean;
    JoinSplit(TrimSpace(raw), '\n');
    LinesTokensAreClean(Split(TrimSpace(raw), '\n'));
  }

  function DropComments(tokens: seq<string>): (r: seq<string>)
    ensures |r| <= |tokens|
    ensures r == tokens <==> forall t :: t in tokens ==> !IsComment(t)
  {
    if tokens == [] then []
    else
      var front, last := DropComments(tokens[..|tokens| - 1]), tokens[|tokens| - 1];
      if IsComment(last) then front else front + [last]
  }

  lemma TokenOfItself(t: string)
    requires Clean(t)
    ensures LineTokens(t) == if IsComment(t) then [] else [t]
  {
    hide TrimSpace, Pieces, PieceLength;
    OnePiece(t);
    assert Trims([]) == [];
    assert [t][..0] == [];
  }

  lemma {:induction false} LinesOfTokens(tokens: seq<string>)
    requires forall t :: t in tokens ==> Clean(t)
    ensures LinesTokens(tokens) == DropComments(tokens)
  {
    hide LineTokens, TrimSpace, IsSpace, IsComment;
    if tokens != [] {
      var last := tokens[|tokens| - 1];
      assert Clean(last);
      LinesOfTokens(tokens[..|tokens| - 1]);
      TokenOfItself(last);
    }
  }

  lemma {:induction false} JoinIsTrimmed(tokens: seq<string>)
    requires tokens != [] && forall t :: t in tokens ==> Clean(t)
    ensures var s := Join(tokens, '\n'); s != "" && Trimmed(s)
  {
    hide IsSpace, TrimSpace;
    assert Clean(tokens[0]);
    if |tokens| > 1 {
      JoinIsTrimmed(tokens[1..]);
      var rest := Join(tokens[1..], '\n');
      var s := Join(tokens, '\n');
      assert s[0] == tokens[0][0] && s[|s| - 1] == rest[|rest| - 1];
    }
  }

  // Storing the tokens one a line and splitting again gives the same tokens, except that those
  // beginning with the comment sign are lost; so it is the identity exactly when there are none.
  lemma SplitAgain(raw: string)
    ensures Tokens(Join(Tokens(raw), '\n')) == DropComments(Tokens(raw))
    ensures Tokens(Join(Tokens(raw), '\n')) == Tokens(raw) <==> forall t :: t in Tokens(raw) ==> !IsComment(t)
  {
    hide LinesTokens, TrimSpace, IsSpace;
    var tokens := Tokens(raw);
    TokensAreClean(raw);
    if tokens == [] {
      assert TrimSpace("") == "";
    } else {
      JoinIsTrimmed(tokens);
      SplitJoin(tokens, '\n');
      LinesOfTokens(tokens);
    }
  }

  // For a text the validator accepts it always is.
  lemma SplitAgainValidated(p: Parsers, raw: string)
    requires RejectComments(p) && forall t :: t in Tokens(raw) ==> WellFormed(p, t)
    ensures Tokens(Join(Tokens(raw), '\n')) == Tokens(raw)
  {
    hide Tokens;
    SplitAgain(raw);
    forall t | t in Tokens(raw) ensures !IsComment(t) {
      assert WellFormed(p, t);
    }
  }

  // Without validation a token in the middle of a line can begin with the comment sign, and is lost.
  lemma CommentTokenIsLost()
    ensures Tokens("a,#b") == ["a", "#b"] && Tokens(Join(Tokens("a,#b"), '\n')) == ["a"]
  {
    hide Tokens, Join;
    TwoPieces();
    ShortTexts();
    ExampleTokens("a,#b", "a", "#b");
    SplitAgain("a,#b");
    DropSecond("a", "#b");
  }

  lemma DropSecond(a: string, b: string)
    requires !IsComment(a) && IsComment(b)
    ensures DropComments([a, b]) == [a]
  {
    assert [a, b][..1] == [a] && [a][..0] == [];
  }

  lemma ExampleTokens(raw: string, a: string, b: string)
    requires raw != "" && Trimmed(raw) && '\n' !in raw && !IsComment(raw) && Pieces(raw) == [a, b]
    requires a != "" && Trimmed(a) && b != "" && Trimmed(b)
    ensures Tokens(raw) == [a, b]
  {
    hide Split, TrimSpace, Pieces, Trimmed;
    SplitFree(raw, '\n');
    assert [a, b][..1] == [a] && [a][..0] == [] && [raw][..0] == [];
    assert Trims([]) == [] && Trims([a]) == [a];
    assert Trims([a, b]) == [a, b];
    assert LinesTokens([]) == [];
    assert LinesTokens([raw]) == LineTokens(raw);
  }

  lemma ShortTexts()
    ensures Trimmed("a,#b") && Trimmed("a") && Trimmed("#b")
    ensures !IsComment("a,#b") && !IsComment("a") && IsComment("#b")
  {
  }

  lemma TwoPieces()
    ensures Pieces("a,#b") == ["a", "#b"]
  {
    var raw, a, b := "a,#b", "a", "#b";
    assert raw[..1] == a && raw[1..][1..] == b && b[..2] == b && b[2..] == "";
    assert raw[1] == ',' && PieceLength(raw) == 1;
    OnePiece(b);
    assert Pieces(raw[1..]) == Pieces(b);
  }
}
