/** Results shared by every module. */
module Wrappers {
  datatype Option<+T> = None | Some(value: T)

  datatype Result<+T, +E> = Ok(value: T) | Err(error: E)
}

/**
 The functions of Go's `strings` and `strconv` packages that the modelled code calls.
 A string is a sequence of Unicode scalar values.
 */
module GoStrings {
  import opened Wrappers

  // ---------- white space ----------

  // unicode.IsSpace
  predicate IsSpace(c: char) {
    '\t' <= c <= '\r' || c == ' ' || c == '\U{85}' || c == '\U{A0}' || c == '\U{1680}' ||
    '\U{2000}' <= c <= '\U{200A}' || c == '\U{2028}' || c == '\U{2029}' || c == '\U{202F}' ||
    c == '\U{205F}' || c == '\U{3000}'
  }

  predicate Trimmed(s: string) {
    s == "" || (!IsSpace(s[0]) && !IsSpace(s[|s| - 1]))
  }

  function TrimLeft(s: string): (r: string)
    ensures r == "" || !IsSpace(r[0])
    ensures |r| <= |s|
    ensures Trimmed(s) ==> r == s
    ensures r != "" && !IsSpace(s[|s| - 1]) ==> !IsSpace(r[|r| - 1])
  {
    if s != "" && IsSpace(s[0]) then TrimLeft(s[1..]) else s
  }

  function TrimRight(s: string): (r: string)
    ensures r == "" || !IsSpace(r[|r| - 1])
    ensures r <= s
  {
    if s != "" && IsSpace(s[|s| - 1]) then TrimRight(s[..|s| - 1]) else s
  }

  function TrimSpace(s: string): (r: string)
    ensures Trimmed(r)
    ensures Trimmed(s) ==> r == s
    ensures |r| <= |s|
  {
    TrimRight(TrimLeft(s))
  }

  // The white space of Unicode, by code
  lemma SpacesAre(c: char)
    ensures IsSpace(c) <==> c as int in {
      0x09, 0x0A, 0x0B, 0x0C, 0x0D, 0x20, 0x85, 0xA0, 0x1680, 0x2000, 0x2001, 0x2002, 0x2003, 0x2004, 0x2005,
      0x2006, 0x2007, 0x2008, 0x2009, 0x200A, 0x2028, 0x2029, 0x202F, 0x205F, 0x3000}
  {
  }

  ghost predicate AllSpace(s: string) {
    forall c :: c in s ==> IsSpace(c)
  }

  lemma {:induction false} TrimLeftIs(s: string) returns (a: string)
    ensures s == a + TrimLeft(s) && AllSpace(a)
  {
    hide IsSpace;
    a := "";
    if s != "" && IsSpace(s[0]) {
      var b := TrimLeftIs(s[1..]);
      a := [s[0]] + b;
      assert s == [s[0]] + s[1..];
    }
  }

  lemma {:induction false} TrimRightIs(s: string) returns (b: string)
    ensures s == TrimRight(s) + b && AllSpace(b)
  {
    hide IsSpace;
    b := "";
    if s != "" && IsSpace(s[|s| - 1]) {
      var a := TrimRightIs(s[..|s| - 1]);
      b := a + [s[|s| - 1]];
      assert s == s[..|s| - 1] + [s[|s| - 1]];
    }
  }

  // Trimming takes the white space from both ends, all of it and nothing else.
  lemma TrimSpaceIs(s: string) returns (a: string, b: string)
    ensures s == a + TrimSpace(s) + b && AllSpace(a) && AllSpace(b) && Trimmed(TrimSpace(s))
  {
    hide IsSpace, TrimLeft, TrimRight;
    a := TrimLeftIs(s);
    b := TrimRightIs(TrimLeft(s));
    assert s == a + (TrimSpace(s) + b);
  }

  predicate Blank(s: string) {
    TrimSpace(s) == ""
  }

  predicate HasSpace(s: string) {
    exists i :: 0 <= i < |s| && IsSpace(s[i])
  }

  // The length of the longest space-free prefix.
  function WordLength(s: string): (n: nat)
    ensures n <= |s|
    ensures forall i :: 0 <= i < n ==> !IsSpace(s[i])
    ensures n < |s| ==> IsSpace(s[n])
  {
    if s == "" || IsSpace(s[0]) then 0 else 1 + WordLength(s[1..])
  }

  // strings.Fields
  function Fields(s: string): seq<string>
    decreases |s|
  {
    var t := TrimLeft(s);
    if t == "" then []
    else
      var n := WordLength(t);
      [t[..n]] + Fields(t[n..])
  }

  lemma {:induction false} FieldsAreWords(s: string)
    ensures forall w :: w in Fields(s) ==> w != "" && !HasSpace(w)
    decreases |s|
  {
    var t := TrimLeft(s);
    if t != "" {
      FieldsAreWords(t[WordLength(t)..]);
    }
  }

  lemma FieldsUnfold(s: string)
    requires s != "" && !IsSpace(s[0])
    ensures Fields(s) == [s[..WordLength(s)]] + Fields(s[WordLength(s)..])
    ensures Fields("") == []
  {
  }

  // A trimmed, non-empty text is its own single field exactly when it has no inner space.
  lemma FieldsOfTrimmed(s: string)
    requires Trimmed(s) && s != ""
    ensures Fields(s) == [s] <==> !HasSpace(s)
  {
    hide Fields, WordLength;
    var n := WordLength(s);
    FieldsUnfold(s);
    if n == |s| {
      assert s[..n] == s && s[n..] == "";
      assert Fields(s) == [s];
    } else {
      assert IsSpace(s[n]);
      assert |Fields(s)[0]| == n;
    }
  }

  // Any space ends a field.
  lemma {:induction false} FieldsAppend(a: string, c: char, b: string)
    requires IsSpace(c)
    ensures Fields(a + [c] + b) == Fields(a) + Fields(b)
    decreases |a|
  {
    hide IsSpace, Fields, WordLength;
    var s := a + [c] + b;
    if a == "" {
      assert s[1..] == b;
      FieldsSkip(s);
      NoFields();
    } else if IsSpace(a[0]) {
      FieldsSkip(s);
      FieldsSkip(a);
      assert s[1..] == a[1..] + [c] + b;
      FieldsAppend(a[1..], c, b);
    } else {
      var n := WordLength(a);
      WordLengthAppend(a, c, b);
      FieldsUnfold(s);
      FieldsUnfold(a);
      assert s[..n] == a[..n] && s[n..] == a[n..] + [c] + b;
      FieldsAppend(a[n..], c, b);
    }
  }

  lemma NoFields()
    ensures Fields("") == []
  {
  }

  lemma FieldsSkip(s: string)
    requires s != "" && IsSpace(s[0])
    ensures Fields(s) == Fields(s[1..])
  {
  }

  lemma {:induction false} WordLengthAppend(a: string, c: char, b: string)
    requires IsSpace(c)
    ensures WordLength(a + [c] + b) == WordLength(a)
    ensures a != "" && !IsSpace(a[0]) ==> WordLength(a) > 0
  {
    hide IsSpace;
    if a != "" && !IsSpace(a[0]) {
      WordLengthAppend(a[1..], c, b);
      assert (a + [c] + b)[1..] == a[1..] + [c] + b;
    }
  }

  // ---------- splitting, joining, replacing ----------

  function Split(s: string, sep: char): (parts: seq<string>)
    ensures parts != []
  {
    if s == "" then [""]
    else
      var rest := Split(s[1..], sep);
      if s[0] == sep then [""] + rest else [[s[0]] + rest[0]] + rest[1..]
  }

  function Join(parts: seq<string>, sep: char): string {
    if parts == [] then ""
    else if |parts| == 1 then parts[0]
    else parts[0] + [sep] + Join(parts[1..], sep)
  }

  lemma {:induction false} SplitFree(a: string, sep: char)
    requires sep !in a
    ensures Split(a, sep) == [a]
  {
    if a != "" {
      SplitFree(a[1..], sep);
      assert [a[0]] + a[1..] == a;
    }
  }

  lemma {:induction false} SplitPrefix(a: string, sep: char, b: string)
    requires sep !in a
    ensures Split(a + [sep] + b, sep) == [a] + Split(b, sep)
  {
    var s := a + [sep] + b;
    if a == "" {
      assert s[1..] == b;
    } else {
      SplitPrefix(a[1..], sep, b);
      assert s[1..] == a[1..] + [sep] + b;
      assert [a[0]] + a[1..] == a;
    }
  }

  // Joining separator-free parts and splitting again gives the parts back.
  lemma {:induction false} SplitJoin(parts: seq<string>, sep: char)
    requires parts != []
    requires forall p :: p in parts ==> sep !in p
    ensures Split(Join(parts, sep), sep) == parts
  {
    if |parts| == 1 {
      SplitFree(parts[0], sep);
    } else {
      SplitJoin(parts[1..], sep);
      SplitPrefix(parts[0], sep, Join(parts[1..], sep));
    }
  }

  // Splitting loses nothing, and every part is separator-free.
  lemma {:induction false} JoinSplit(s: string, sep: char)
    ensures Join(Split(s, sep), sep) == s
    ensures forall p :: p in Split(s, sep) ==> sep !in p
  {
    if s != "" {
      JoinSplit(s[1..], sep);
      var rest := Split(s[1..], sep);
      assert s == [s[0]] + s[1..];
      assert rest[0] in rest;
      if s[0] == sep {
        assert ([""] + rest)[1..] == rest;
      } else {
        var parts := [[s[0]] + rest[0]] + rest[1..];
        assert parts[1..] == rest[1..];
        forall p | p in parts ensures sep !in p {
          if p != parts[0] { assert p in rest; }
        }
      }
    }
  }

  // The number of parts: they add up over a separator, and a text has one part exactly when it is
  // separator-free.
  lemma {:induction false} SplitCount(a: string, sep: char, b: string)
    ensures |Split(a + [sep] + b, sep)| == |Split(a, sep)| + |Split(b, sep)|
    ensures |Split(a, sep)| == 1 <==> sep !in a
  {
    var s := a + [sep] + b;
    if a == "" {
      assert s[1..] == b;
    } else {
      SplitCount(a[1..], sep, b);
      assert s[1..] == a[1..] + [sep] + b;
      assert a == [a[0]] + a[1..];
    }
  }

  // Joined parts split into as many parts exactly when every part is separator-free.
  lemma {:induction false} SplitJoinCount(parts: seq<string>, sep: char)
    requires parts != []
    ensures |Split(Join(parts, sep), sep)| >= |parts|
    ensures |Split(Join(parts, sep), sep)| == |parts| <==> forall p :: p in parts ==> sep !in p
  {
    hide Split;
    var rest := parts[1..];
    assert parts == [parts[0]] + rest;
    SplitCount(parts[0], sep, Join(rest, sep));
    if rest != [] {
      SplitJoinCount(rest, sep);
    }
  }

  // Around the separator, a separator-free side is where it is said to be.
  lemma OnlySeparator(s: string, x: string, y: string, sep: char)
    requires s == x + [sep] + y
    ensures |x| < |s| && s[|x|] == sep && s[..|x|] == x && s[|x| + 1..] == y
    ensures sep !in x ==> forall k :: 0 <= k < |x| ==> s[k] != sep
    ensures sep !in y ==> forall k :: |x| < k < |s| ==> s[k] != sep
  {
    assert forall k :: 0 <= k < |x| ==> s[k] == x[k] && x[k] in x;
    assert forall k :: |x| < k < |s| ==> s[k] == y[k - |x| - 1] && y[k - |x| - 1] in y;
  }

  // A separator-free head, or tail, is determined by the whole text.
  lemma HeadUnique(a: string, b: string, x: string, y: string, sep: char)
    requires a + [sep] + x == b + [sep] + y && sep !in a && sep !in b
    ensures a == b && x == y
  {
    var s := a + [sep] + x;
    OnlySeparator(s, a, x, sep);
    OnlySeparator(s, b, y, sep);
    assert |a| == |b|;
  }

  lemma TailUnique(x: string, y: string, a: string, b: string, sep: char)
    requires x + [sep] + a == y + [sep] + b && sep !in a && sep !in b
    ensures a == b && x == y
  {
    var s := x + [sep] + a;
    OnlySeparator(s, x, a, sep);
    OnlySeparator(s, y, b, sep);
    assert |x| == |y|;
  }

  // strings.ReplaceAll for a one-character pattern
  function ReplaceChar(s: string, c: char, with: string): string {
    if s == "" then "" else (if s[0] == c then with else [s[0]]) + ReplaceChar(s[1..], c, with)
  }

  lemma {:induction false} ReplaceCharRemoves(s: string, c: char, with: string, d: char)
    requires d !in with
    requires d == c || d !in s
    ensures d !in ReplaceChar(s, c, with)
  {
    if s != "" {
      ReplaceCharRemoves(s[1..], c, with, d);
    }
  }

  // ---------- case ----------

  lemma {:induction false} ReplaceWithOne(s: string, c: char, d: char)
    ensures |ReplaceChar(s, c, [d])| == |s|
    ensures forall i :: 0 <= i < |s| ==> ReplaceChar(s, c, [d])[i] == if s[i] == c then d else s[i]
  {
    if s != "" { ReplaceWithOne(s[1..], c, d); }
  }

  // unicode.ToLower, exact for every character whose lower case is ASCII; all the code asks of
  // the other characters is that they do not turn into ASCII ones.
  function ToLowerChar(c: char): char {
    if 'A' <= c <= 'Z' then c + 32 as char
    else if c == '\U{130}' then 'i'
    else if c == '\U{212A}' then 'k'
    else c
  }

  function ToLower(s: string): (r: string)
    ensures |r| == |s|
    ensures forall i :: 0 <= i < |s| ==> r[i] == ToLowerChar(s[i])
  {
    if s == "" then "" else [ToLowerChar(s[0])] + ToLower(s[1..])
  }

  // unicode.ToUpper, exact for every character whose upper case is ASCII.
  function ToUpperChar(c: char): char {
    if 'a' <= c <= 'z' then c - 32 as char
    else if c == '\U{131}' then 'I'
    else if c == '\U{17F}' then 'S'
    else c
  }

  function ToUpper(s: string): (r: string)
    ensures |r| == |s|
    ensures forall i :: 0 <= i < |s| ==> r[i] == ToUpperChar(s[i])
  {
    if s == "" then "" else [ToUpperChar(s[0])] + ToUpper(s[1..])
  }

  // Only the letters from A to Z have a case among the ASCII characters.
  lemma CaseOfAscii(c: char)
    requires c < '\U{80}'
    ensures ToLowerChar(c) as int == if 'A' <= c <= 'Z' then c as int + 32 else c as int
    ensures ToUpperChar(c) as int == if 'a' <= c <= 'z' then c as int - 32 else c as int
  {
  }

  // ---------- decimal numbers ----------

  predicate IsDigit(c: char) { '0' <= c <= '9' }

  predicate AllDigits(s: string) {
    forall c :: c in s ==> IsDigit(c)
  }

  function NatToString(n: nat): (s: string)
    ensures s != "" && AllDigits(s)
  {
    var last := [(n % 10 + '0' as int) as char];
    if n < 10 then last else NatToString(n / 10) + last
  }

  // strconv.Itoa and fmt's %d
  function Itoa(n: int): (s: string)
    ensures s != ""
    ensures forall c :: c in s ==> IsDigit(c) || c == '-'
  {
    if n < 0 then "-" + NatToString(-n) else NatToString(n)
  }

  function DigitsValue(s: string): nat
    requires AllDigits(s)
  {
    if s == "" then 0
    else
      assert IsDigit(s[|s| - 1]);
      DigitsValue(s[..|s| - 1]) * 10 + (s[|s| - 1] as int - '0' as int)
  }

  lemma {:induction false} DigitsRoundTrip(n: nat)
    ensures DigitsValue(NatToString(n)) == n
  {
    var s := NatToString(n);
    if n < 10 {
      assert s[..|s| - 1] == "";
    } else {
      DigitsRoundTrip(n / 10);
      assert s[..|s| - 1] == NatToString(n / 10);
    }
  }

  const INT64_MIN: int := -0x8000_0000_0000_0000
  const INT64_MAX: int := 0x7FFF_FFFF_FFFF_FFFF

  // The value of an optionally signed decimal numeral of any size.
  function Numeral(s: string): Option<int> {
    if s == "" then None
    else
      var body := if s[0] == '-' || s[0] == '+' then s[1..] else s;
      if body == "" || !AllDigits(body) then None
      else
        var n: int := DigitsValue(body);
        Some(if s[0] == '-' then -n else n)
  }

  // Decimal notation: a last digit behind the other ones, and a sign before.
  lemma ItoaIsDecimal(n: nat, d: nat)
    requires d < 10
    ensures |Itoa(d)| == 1 && Itoa(d)[0] as int == 0x30 + d
    ensures n > 0 ==> Itoa(10 * n + d) == Itoa(n) + Itoa(d)
    ensures n > 0 ==> Itoa(-(n as int)) == "-" + Itoa(n)
  {
  }

  // strconv.ParseInt(s, 10, 64)
  function ParseInt64(s: string): Option<int> {
    match Numeral(s)
    case None => None
    case Some(n) => if INT64_MIN <= n <= INT64_MAX then Some(n) else None
  }

  lemma NumeralOfItoa(n: int)
    ensures Numeral(Itoa(n)) == Some(n)
  {
    if n < 0 {
      DigitsRoundTrip(-n);
      assert Itoa(n)[1..] == NatToString(-n);
    } else {
      DigitsRoundTrip(n);
      assert Itoa(n)[0] in Itoa(n);
    }
  }

  // The range of 64 bits
  lemma ParseIntInRange(n: int)
    ensures ParseInt64(Itoa(n)) == if -9223372036854775808 <= n <= 9223372036854775807 then Some(n) else None
  {
    hide Numeral;
    NumeralOfItoa(n);
  }

  // A numeral is an optional sign and at least one digit.
  lemma NumeralIs(s: string)
    ensures Numeral(s).Some? <==>
      (s != "" && AllDigits(s)) || (|s| > 1 && (s[0] == '-' || s[0] == '+') && AllDigits(s[1..]))
    ensures |s| > 1 && s[0] == '+' && Numeral(s[1..]).Some? && IsDigit(s[1]) ==> Numeral(s) == Numeral(s[1..])
  {
    if s != "" { assert s[0] in s; }
  }

  lemma ParseIntOfItoa(n: int)
    requires INT64_MIN <= n <= INT64_MAX
    ensures ParseInt64(Itoa(n)) == Some(n)
  {
    NumeralOfItoa(n);
  }

  lemma ItoaInjective(m: int, n: int)
    requires Itoa(m) == Itoa(n)
    ensures m == n
  {
    NumeralOfItoa(m);
    NumeralOfItoa(n);
  }

  // ---------- bytes ----------

  // The bytes of UTF-8 that a character takes
  function Utf8Width(c: char): (n: nat)
    ensures 1 <= n <= 4
  {
    var code := c as int;
    if code < 0x80 then 1 else if code < 0x800 then 2 else if code < 0x10000 then 3 else 4
  }

  // The number of bytes that Go's len counts in a string
  function Utf8Length(s: string): (n: nat)
    ensures |s| <= n <= 4 * |s|
  {
    if s == "" then 0 else Utf8Length(s[..|s| - 1]) + Utf8Width(s[|s| - 1])
  }

  lemma {:induction false} Utf8LengthAdds(a: string, b: string)
    ensures Utf8Length(a + b) == Utf8Length(a) + Utf8Length(b)
  {
    if b == "" {
      assert a + b == a;
    } else {
      Utf8LengthAdds(a, b[..|b| - 1]);
      assert (a + b)[..|a + b| - 1] == a + b[..|b| - 1];
    }
  }

  // The boundaries of UTF-8: one byte up to 7F, two up to 7FF, three up to FFFF, four beyond
  lemma WidthsAre(c: char)
    ensures c as int <= 0x7F <==> Utf8Width(c) == 1
    ensures 0x80 <= c as int <= 0x7FF <==> Utf8Width(c) == 2
    ensures 0x800 <= c as int <= 0xFFFF <==> Utf8Width(c) == 3
  {
  }

  // What decoders show for a byte that is not part of a character
  const REPLACEMENT := '\U{FFFD}'

  function Replacements(n: nat): string { seq(n, _ => REPLACEMENT) }

  // Go's s[:n] as a text: a character that the cut falls into leaves its first bytes, each of which
  // decodes to the replacement character.
  function CutBytes(s: string, n: nat): string {
    if s == "" then ""
    else if Utf8Width(s[0]) <= n then [s[0]] + CutBytes(s[1..], n - Utf8Width(s[0]))
    else Replacements(n)
  }

  // The cut keeps whole characters and fewer than four bytes of one more, n bytes in all.
  lemma {:induction false} CutBytesKeeps(s: string, n: nat) returns (k: nat)
    requires n <= Utf8Length(s)
    ensures k <= |s| && Utf8Length(s[..k]) <= n < Utf8Length(s[..k]) + 4
    ensures CutBytes(s, n) == s[..k] + Replacements(n - Utf8Length(s[..k]))
  {
    hide Utf8Length, Utf8Width, Replacements;
    NoCharacter();
    k := 0;
    if s == "" {
      assert s[..k] == "" && Replacements(0) == "" by { NoReplacement(); }
    } else if Utf8Width(s[0]) <= n {
      var w := Utf8Width(s[0]);
      OneCharacter(s[0]);
      assert [s[0]] + s[1..] == s;
      Utf8LengthAdds([s[0]], s[1..]);
      var j := CutBytesKeeps(s[1..], n - w);
      k := j + 1;
      assert s[..k] == [s[0]] + s[1..][..j];
      Utf8LengthAdds([s[0]], s[1..][..j]);
    } else {
      assert s[..k] == "" && "" + Replacements(n) == Replacements(n);
    }
  }

  lemma NoReplacement()
    ensures Replacements(0) == ""
  {
  }

  lemma NoCharacter()
    ensures Utf8Length("") == 0
  {
  }

  lemma OneCharacter(c: char)
    ensures Utf8Length([c]) == Utf8Width(c)
  {
    assert [c][..0] == "";
  }
}
