/**
 Upload tokens of apps/api/app/core/storage.py: metadata printed as JSON, encoded with the URL-safe
 alphabet of section 5 of RFC 4648 without padding, and signed. The JSON printer and parser, the
 signature and the clock are parameters.
 */
module Base64 {
  import opened Octets
  import opened Wrappers

  newtype Sextet = x: int | 0 <= x < 64

  function CharOf(v: Sextet): char {
    if v < 26 then ('A' as int + v as int) as char
    else if v < 52 then ('a' as int + v as int - 26) as char
    else if v < 62 then ('0' as int + v as int - 52) as char
    else if v == 62 then '-' else '_'
  }

  /** Python's URL-safe decoder also reads the two characters of the standard alphabet. */
  function ValueOf(c: char): Option<Sextet> {
    if 'A' <= c <= 'Z' then Some((c as int - 'A' as int) as Sextet)
    else if 'a' <= c <= 'z' then Some((c as int - 'a' as int + 26) as Sextet)
    else if '0' <= c <= '9' then Some((c as int - '0' as int + 52) as Sextet)
    else if c == '-' || c == '+' then Some(62)
    else if c == '_' || c == '/' then Some(63)
    else None
  }

  lemma CharReadsBack(v: Sextet)
    ensures ValueOf(CharOf(v)) == Some(v)
    ensures CharOf(v) != '=' && CharOf(v) != '.' && CharOf(v) as int < 128
  {
  }

  /** The sextets of up to three bytes; missing bytes count as zero. */
  function Sextets(b: Bytes): (v: seq<Sextet>)
    requires 1 <= |b| <= 3
    ensures |v| == |b| + 1
  {
    var x := b[0] as int;
    var y := if |b| > 1 then b[1] as int else 0;
    var z := if |b| > 2 then b[2] as int else 0;
    [(x / 4) as Sextet, (x % 4 * 16 + y / 16) as Sextet, (y % 16 * 4 + z / 64) as Sextet, (z % 64) as Sextet][..|b| + 1]
  }

  function Chars(v: seq<Sextet>): (s: string)
    ensures |s| == |v| && forall i | 0 <= i < |v| :: s[i] == CharOf(v[i])
  {
    if v == [] then "" else [CharOf(v[0])] + Chars(v[1..])
  }

  function Group(b: Bytes): string
    requires 1 <= |b| <= 3
  {
    Chars(Sextets(b))
  }

  function Equals(n: nat): (s: string)
    ensures |s| == n && forall c | c in s :: c == '='
  {
    if n == 0 then "" else "=" + Equals(n - 1)
  }

  /** `urlsafe_b64encode`. */
  function Encode(b: Bytes): string {
    if b == [] then ""
    else if |b| < 3 then Group(b) + Equals(3 - |b|)
    else Group(b[..3]) + Encode(b[3..])
  }

  /** `rstrip("=")`. */
  function Stripped(s: string): string {
    if s != "" && s[|s| - 1] == '=' then Stripped(s[..|s| - 1]) else s
  }

  /** `-length % 4`, whose remainder is never negative in Python either. */
  function PadLength(length: int): nat {
    -length % 4
  }

  /** The text with its padding restored. */
  function Padded(s: string): string {
    s + Equals(PadLength(|s|))
  }

  /** The byte that a sextet completes behind those of its group. */
  function Completed(pending: seq<Sextet>, v: Sextet): Bytes
    requires |pending| < 4
  {
    if |pending| == 0 then []
    else if |pending| == 1 then [(pending[0] as int * 4 + v as int / 16) as Byte]
    else if |pending| == 2 then [(pending[1] as int % 16 * 16 + v as int / 4) as Byte]
    else [(pending[2] as int % 4 * 64 + v as int) as Byte]
  }

  /**
   The decoder of the standard library from some character on: it skips what is not in the alphabet,
   stops at a complete padding, and fails on an incomplete group.
   */
  function Scan(s: string, pending: seq<Sextet>, pads: nat): Option<Bytes>
    requires |pending| < 4
  {
    if s == "" then if pending == [] then Some([]) else None
    else if s[0] == '=' then
      if |pending| < 2 then Scan(s[1..], pending, pads)
      else if |pending| + pads + 1 >= 4 then Some([])
      else Scan(s[1..], pending, pads + 1)
    else
      var v := ValueOf(s[0]);
      if v.None? then Scan(s[1..], pending, pads)
      else
        var rest := Scan(s[1..], if |pending| == 3 then [] else pending + [v.value], 0);
        if rest.None? then None else Some(Completed(pending, v.value) + rest.value)
  }

  /** `urlsafe_b64decode` of a text; other than ASCII raises. */
  function Decode(s: string): Option<Bytes> {
    if exists c | c in s :: c as int >= 128 then None else Scan(s, [], 0)
  }

  /**
   The encoding of RFC 4648: up to three bytes, filled up with zeros, are one number of 24 bits, whose sextets are
   written one character each, most significant first; four characters in all, padded at the end.
   */
  lemma {:induction false} GroupsAreNumbers(b: Bytes, y: int, z: int, n: int)
    requires 1 <= |b| <= 3
    requires y == (if |b| > 1 then b[1] as int else 0) && z == (if |b| > 2 then b[2] as int else 0)
    requires n == 0x1_0000 * b[0] as int + 0x100 * y + z
    ensures var s := Encode(b);
            && |s| == 4
            && s[0] == CharOf((n / 64 / 64 / 64 % 64) as Sextet) && s[1] == CharOf((n / 64 / 64 % 64) as Sextet)
            && s[2] == (if |b| > 1 then CharOf((n / 64 % 64) as Sextet) else '=')
            && s[3] == (if |b| > 2 then CharOf((n % 64) as Sextet) else '=')
  {
    SextetsOf(b[0] as int, y, z, n);
    assert |b| == 3 ==> b[..3] == b && b[3..] == [];
  }

  lemma By64(q: int, r: int)
    requires 0 <= r < 64
    ensures (64 * q + r) / 64 == q && (64 * q + r) % 64 == r
  {
  }

  lemma {:induction false} SextetsOf(x: int, y: int, z: int, n: int)
    requires 0 <= x < 256 && 0 <= y < 256 && 0 <= z < 256 && n == 0x1_0000 * x + 0x100 * y + z
    ensures n / 64 / 64 / 64 % 64 == x / 4 && n / 64 / 64 % 64 == x % 4 * 16 + y / 16
    ensures n / 64 % 64 == y % 16 * 4 + z / 64 && n % 64 == z % 64
  {
    By64(1024 * x + 4 * y + z / 64, z % 64);
    By64(16 * x + y / 16, y % 16 * 4 + z / 64);
    By64(x / 4, x % 4 * 16 + y / 16);
    By64(0, x / 4);
  }

  /** The URL-safe alphabet: the letters, upper and lower case, the digits, and two more characters. */
  lemma {:induction false} AlphabetRuns()
    ensures CharOf(0) == 'A' && CharOf(25) == 'Z' && CharOf(26) == 'a' && CharOf(51) == 'z'
    ensures CharOf(52) == '0' && CharOf(61) == '9' && CharOf(62) == '-' && CharOf(63) == '_'
    ensures forall v: Sextet | v < 61 && v != 25 && v != 51 :: CharOf(v + 1) as int == CharOf(v) as int + 1
  {
  }

  /** Three bytes are encoded on their own, before the rest. */
  lemma {:induction false} EncodesByGroups(b: Bytes)
    requires |b| >= 3
    ensures Encode(b) == Encode(b[..3]) + Encode(b[3..])
  {
    assert b[..3][..3] == b[..3] && b[..3][3..] == [];
  }

  // ---- Round trip ----

  /** One more character in front of a text that decodes. */
  lemma {:induction false} ScanOne(
      v: Sextet, rest: string, pending: seq<Sextet>, after: Bytes)
    returns (s: string, all: Bytes)
    requires |pending| < 4 && Scan(rest, if |pending| == 3 then [] else pending + [v], 0) == Some(after)
    ensures s == [CharOf(v)] + rest && all == Completed(pending, v) + after
    ensures Scan(s, pending, 0) == Some(all)
  {
    CharReadsBack(v);
    s, all := [CharOf(v)] + rest, Completed(pending, v) + after;
    assert s[1..] == rest;
  }

  /** What the sextets of a group complete is the group. */
  lemma {:induction false} Regrouped(b: Bytes)
    requires 1 <= |b| <= 3
    ensures var v := Sextets(b);
            && Completed([v[0]], v[1]) == [b[0]]
            && (|b| > 1 ==> Completed([v[0], v[1]], v[2]) == [b[1]])
            && (|b| > 2 ==> Completed([v[0], v[1], v[2]], v[3]) == [b[2]])
  {
  }

  /** A whole group decodes to its bytes in front of the rest. */
  lemma {:induction false} ScanGroup(b: Bytes, rest: string, after: Bytes)
    requires |b| == 3 && Scan(rest, [], 0) == Some(after)
    ensures Scan(Group(b) + rest, [], 0) == Some(b + after)
  {
    var v := Sextets(b);
    Regrouped(b);
    var s3, after3 := ScanOne(v[3], rest, [v[0], v[1], v[2]], after);
    assert [v[0], v[1]] + [v[2]] == [v[0], v[1], v[2]];
    var s2, after2 := ScanOne(v[2], s3, [v[0], v[1]], after3);
    assert [v[0]] + [v[1]] == [v[0], v[1]];
    var s1, after1 := ScanOne(v[1], s2, [v[0]], after2);
    assert [] + [v[0]] == [v[0]];
    var s0, after0 := ScanOne(v[0], s1, [], after1);
    GroupOfThree(b, rest, after);
  }

  lemma {:induction false} GroupOfThree(b: Bytes, rest: string, after: Bytes)
    requires |b| == 3
    ensures var v := Sextets(b);
            Group(b) + rest == [CharOf(v[0])] + ([CharOf(v[1])] + ([CharOf(v[2])] + ([CharOf(v[3])] + rest)))
    ensures b + after == [] + ([b[0]] + ([b[1]] + ([b[2]] + after)))
  {
  }

  /** A last group of one or two bytes decodes through its padding. */
  lemma {:induction false} ScanTail(b: Bytes)
    requires 1 <= |b| <= 2
    ensures Scan(Group(b) + Equals(3 - |b|), [], 0) == Some(b)
  {
    var v := Sextets(b);
    Regrouped(b);
    ScanPadding(v[..|b| + 1]);
    var rest, after := Equals(3 - |b|), [];
    if |b| == 2 {
      assert [v[0], v[1]] + [v[2]] == v[..3];
      rest, after := ScanOne(v[2], rest, [v[0], v[1]], after);
    }
    assert [v[0]] + [v[1]] == v[..2] == [v[0], v[1]];
    var s1, after1 := ScanOne(v[1], rest, [v[0]], after);
    assert [] + [v[0]] == [v[0]];
    var s0, after0 := ScanOne(v[0], s1, [], after1);
    assert s0 == Group(b) + Equals(3 - |b|);
    assert after0 == b;
  }

  lemma {:induction false} ScanPadding(pending: seq<Sextet>)
    requires 2 <= |pending| <= 3
    ensures Scan(Equals(4 - |pending|), pending, 0) == Some([])
  {
  }

  lemma {:induction false} EncodedScans(b: Bytes)
    ensures Scan(Encode(b), [], 0) == Some(b)
  {
    if b == [] {
    } else if |b| < 3 {
      ScanTail(b);
    } else {
      EncodedScans(b[3..]);
      ScanGroup(b[..3], Encode(b[3..]), b[3..]);
      assert b == b[..3] + b[3..];
    }
  }

  // ---- Padding ----

  /** The encoding without its padding. */
  function Core(b: Bytes): string {
    if b == [] then "" else if |b| < 3 then Group(b) else Group(b[..3]) + Core(b[3..])
  }

  predicate IsTokenChar(c: char) {
    c != '=' && c != '.' && c as int < 128
  }

  lemma {:induction false} CoreIsText(b: Bytes)
    ensures forall c | c in Core(b) :: IsTokenChar(c)
  {
    if b != [] {
      var v := Sextets(if |b| < 3 then b else b[..3]);
      forall c | c in Chars(v)
        ensures IsTokenChar(c)
      {
        var i :| 0 <= i < |v| && Chars(v)[i] == c;
        CharReadsBack(v[i]);
      }
      if |b| >= 3 { CoreIsText(b[3..]); }
    }
  }

  lemma {:induction false} EncodePadsCore(b: Bytes)
    ensures Encode(b) == Core(b) + Equals(PadLength(|Core(b)|))
  {
    if |b| >= 3 {
      EncodePadsCore(b[3..]);
      SamePadding(|Core(b[3..])|);
      assert |Core(b)| == |Core(b[3..])| + 4;
      var padding := Equals(PadLength(|Core(b)|));
      assert Group(b[..3]) + (Core(b[3..]) + padding) == Group(b[..3]) + Core(b[3..]) + padding;
    } else if b != [] {
      assert PadLength(|Core(b)|) == 3 - |b|;
    }
  }

  lemma SamePadding(n: nat)
    ensures PadLength(n + 4) == PadLength(n)
  {
  }

  lemma {:induction false} StripsPadding(s: string, n: nat)
    requires '=' !in s
    ensures Stripped(s + Equals(n)) == s
  {
    if n == 0 {
      assert s + Equals(0) == s;
    } else {
      EqualsBack(n);
      var padded := s + Equals(n);
      assert padded[..|padded| - 1] == s + Equals(n - 1);
      StripsPadding(s, n - 1);
    }
  }

  lemma {:induction false} EqualsBack(n: nat)
    requires n > 0
    ensures Equals(n)[..n - 1] == Equals(n - 1)
  {
    if n > 1 { EqualsBack(n - 1); }
  }

  /** Stripping the padding and restoring it from the length is the identity on encodings. */
  lemma {:induction false} PaddingReturns(b: Bytes)
    ensures Stripped(Encode(b)) == Core(b)
    ensures Padded(Stripped(Encode(b))) == Encode(b)
  {
    CoreIsText(b);
    EncodePadsCore(b);
    StripsPadding(Core(b), PadLength(|Core(b)|));
  }

  /** Every byte string comes back from its unpadded encoding. */
  lemma {:induction false} UnpaddedRoundTrip(b: Bytes)
    ensures Decode(Padded(Stripped(Encode(b)))) == Some(b)
    ensures forall c | c in Stripped(Encode(b)) :: IsTokenChar(c)
  {
    CoreIsText(b);
    PaddingReturns(b);
    EncodePadsCore(b);
    EncodedScans(b);
  }

  // ---- What else the decoder reads ----

  predicate IsAscii(s: string) {
    forall c | c in s :: c as int < 128
  }

  predicate InAlphabet(c: char) {
    'A' <= c <= 'Z' || 'a' <= c <= 'z' || '0' <= c <= '9' || c in "-_+/"
  }

  /** The character stands for the sextet, in the URL-safe or in the standard alphabet. */
  predicate Writes(c: char, v: Sextet) {
    c == CharOf(v) || (v == 62 && c == '+') || (v == 63 && c == '/')
  }

  lemma {:induction false} WrittenValue(c: char, v: Sextet)
    ensures Writes(c, v) <==> ValueOf(c) == Some(v)
    ensures InAlphabet(c) <==> ValueOf(c).Some?
    ensures Writes(c, v) ==> c != '=' && c as int < 128
  {
  }

  lemma {:induction false} ScanSkips(s: string, c: char, t: string, pending: seq<Sextet>, pads: nat)
    requires !InAlphabet(c) && c != '=' && |pending| < 4
    ensures Scan(s + [c] + t, pending, pads) == Scan(s + t, pending, pads)
    decreases |s|
  {
    if s == "" {
      WrittenValue(c, 0);
      assert s + [c] + t == [c] + t && s + t == t;
    } else {
      assert s + [c] + t == [s[0]] + (s[1..] + [c] + t) && s + t == [s[0]] + (s[1..] + t);
      ScanSkips(s[1..], c, t, pending, pads);
      ScanSkips(s[1..], c, t, pending, pads + 1);
      if ValueOf(s[0]).Some? {
        ScanSkips(s[1..], c, t, if |pending| == 3 then [] else pending + [ValueOf(s[0]).value], 0);
      }
    }
  }

  /** An ASCII character outside both alphabets, other than the padding, is skipped wherever it stands. */
  lemma {:induction false} JunkIsSkipped(s: string, c: char, t: string)
    requires !InAlphabet(c) && c != '=' && c as int < 128
    ensures Decode(s + [c] + t) == Decode(s + t)
  {
    ScanSkips(s, c, t, [], 0);
    forall x: char
      ensures x in s + t ==> x in s + [c] + t
      ensures x in s + [c] + t ==> x in s + t || x == c
    {
    }
  }

  lemma {:induction false} ScanReads(c: char, v: Sextet, t: string, pending: seq<Sextet>)
    requires Writes(c, v) && |pending| < 4
    ensures var rest := Scan(t, if |pending| == 3 then [] else pending + [v], 0);
            Scan([c] + t, pending, 0) == if rest.None? then None else Some(Completed(pending, v) + rest.value)
  {
    WrittenValue(c, v);
    assert ([c] + t)[1..] == t;
  }

  /** Two characters in front of a text: one byte, and what the text gives with both pending. */
  lemma {:induction false} ScanTwo(c: string, v: seq<Sextet>, t: string)
    requires |c| == |v| == 2 && Writes(c[0], v[0]) && Writes(c[1], v[1])
    ensures var rest := Scan(t, v, 0);
            Scan(c + t, [], 0) == if rest.None? then None else Some(Completed([v[0]], v[1]) + rest.value)
  {
    assert [] + [v[0]] == [v[0]] && [v[0]] + [v[1]] == v;
    ScanReads(c[1], v[1], t, [v[0]]);
    ScanReads(c[0], v[0], [c[1]] + t, []);
    assert c + t == [c[0]] + ([c[1]] + t);
    if Scan(t, v, 0).Some? {
      var all := Completed([v[0]], v[1]) + Scan(t, v, 0).value;
      assert [] + all == all;
    }
  }

  lemma {:induction false} ScanThree(c: string, v: seq<Sextet>, t: string)
    requires |c| == |v| == 3 && Writes(c[0], v[0]) && Writes(c[1], v[1]) && Writes(c[2], v[2])
    ensures var rest, first := Scan(t, v, 0), Completed([v[0]], v[1]);
            Scan(c + t, [], 0)
            == if rest.None? then None else Some(first + (Completed([v[0], v[1]], v[2]) + rest.value))
  {
    assert v[..2] == [v[0], v[1]] && v[..2] + [v[2]] == v;
    ScanReads(c[2], v[2], t, v[..2]);
    ScanTwo(c[..2], v[..2], [c[2]] + t);
    assert c + t == c[..2] + ([c[2]] + t);
  }

  lemma {:induction false} ScanFour(c: string, v: seq<Sextet>, t: string) returns (b: Bytes)
    requires |c| == |v| == 4 && forall i | 0 <= i < 4 :: Writes(c[i], v[i])
    ensures b == Completed([v[0]], v[1]) + Completed([v[0], v[1]], v[2]) + Completed(v[..3], v[3])
    ensures Scan(c + t, [], 0) == if Scan(t, [], 0).None? then None else Some(b + Scan(t, [], 0).value)
  {
    var b1, b2, b3 := Completed([v[0]], v[1]), Completed([v[0], v[1]], v[2]), Completed(v[..3], v[3]);
    b := b1 + b2 + b3;
    assert v[..3][..2] == [v[0], v[1]];
    ScanReads(c[3], v[3], t, v[..3]);
    ScanThree(c[..3], v[..3], [c[3]] + t);
    assert c + t == c[..3] + ([c[3]] + t);
    if Scan(t, [], 0).Some? { JoinedFour(b1, b2, b3, Scan(t, [], 0).value); }
  }

  lemma {:induction false} JoinedFour(a: Bytes, b: Bytes, c: Bytes, d: Bytes)
    ensures a + (b + (c + d)) == a + b + c + d
  {
  }

  /** Four characters are read as one number of 24 bits, whose bytes come in front of the rest. */
  lemma {:induction false} DecodesByGroups(c: string, v: seq<Sextet>, t: string) returns (b: Bytes)
    requires |c| == |v| == 4 && (forall i | 0 <= i < 4 :: Writes(c[i], v[i])) && IsAscii(t)
    ensures |b| == 3
    ensures 0x1_0000 * b[0] as int + 0x100 * b[1] as int + b[2] as int
            == 0x4_0000 * v[0] as int + 0x1000 * v[1] as int + 0x40 * v[2] as int + v[3] as int
    ensures Decode(c + t) == if Decode(t).None? then None else Some(b + Decode(t).value)
  {
    b := ScanFour(c, v, t);
    forall x | x in c + t
      ensures x as int < 128
    {
      AsciiText(c, v);
    }
  }

  lemma {:induction false} ScanEnds(v: seq<Sextet>, t: string)
    requires 2 <= |v| <= 3
    ensures Scan(Equals(4 - |v|) + t, v, 0) == Some([])
  {
    var s := Equals(4 - |v|) + t;
    if |v| == 2 {
      assert Equals(2) == "==";
      assert s[1..] == "=" + t;
    } else {
      assert Equals(1) == "=";
    }
  }

  lemma {:induction false} AsciiText(c: string, v: seq<Sextet>)
    requires |c| == |v| && forall i | 0 <= i < |c| :: Writes(c[i], v[i])
    ensures IsAscii(c)
  {
    forall i | 0 <= i < |c|
      ensures c[i] as int < 128
    {
      WrittenValue(c[i], v[i]);
    }
  }

  /** A complete padding ends the text; what follows is not read. */
  lemma {:induction false} PaddingEnds(c: string, v: seq<Sextet>, t: string) returns (b: Bytes)
    requires 2 <= |c| == |v| <= 3 && (forall i | 0 <= i < |c| :: Writes(c[i], v[i])) && IsAscii(t)
    ensures |b| == |c| - 1
    ensures b[0] as int == (0x40 * v[0] as int + v[1] as int) / 0x10
    ensures |c| == 3 ==> 0x100 * b[0] as int + b[1] as int
                         == (0x1000 * v[0] as int + 0x40 * v[1] as int + v[2] as int) / 4
    ensures Decode(c + (Equals(4 - |c|) + t)) == Some(b)
  {
    b := Completed([v[0]], v[1]) + if |c| == 3 then Completed([v[0], v[1]], v[2]) else [];
    AsciiText(c, v);
    ScanEnds(v, t);
    if |c| == 2 {
      assert Equals(2) == "==";
      ScanTwo(c, v, Equals(2) + t);
      assert b + [] == b;
    } else {
      assert Equals(1) == "=";
      ScanThree(c, v, Equals(1) + t);
      assert Completed([v[0]], v[1]) + (Completed([v[0], v[1]], v[2]) + []) == b;
    }
    assert IsAscii(c + (Equals(4 - |c|) + t));
  }

  /** One to three characters without a padding behind them are refused. */
  lemma {:induction false} IncompleteFails(c: string, v: seq<Sextet>)
    requires 1 <= |c| == |v| <= 3 && forall i | 0 <= i < |c| :: Writes(c[i], v[i])
    ensures Decode(c) == None
  {
    assert c + "" == c;
    assert [] + [v[0]] == [v[0]];
    if |c| == 1 { ScanReads(c[0], v[0], "", []); assert [c[0]] + "" == c; }
    else if |c| == 2 { ScanTwo(c, v, ""); }
    else { ScanThree(c, v, ""); }
  }
}

/** The token part of `issue_upload`, `_encode_token` and `verify_upload_token`. */
module UploadToken {
  import opened Octets
  import opened Wrappers
  import opened Base64

  datatype Failure = InvalidUploadToken

  /**
   The JSON printer and parser, the expiry that `int(metadata["expires_at"])` reads, and the hexadecimal
   signature of a text; none stands for an exception that the verifier turns into a refusal.
   */
  datatype Codec<!M(!new)> = Codec(
    dump: M -> Bytes, load: Bytes -> Option<M>, expiry: M -> Option<int>, sign: string -> string)

  /** Reading back what was printed, and signatures without a dot. */
  ghost predicate Sound<M(!new)>(codec: Codec<M>) {
    && (forall m: M :: codec.load(codec.dump(m)) == Some(m))
    && (forall payload: string :: '.' !in codec.sign(payload))
  }

  function Payload<M(!new)>(codec: Codec<M>, metadata: M): string {
    Stripped(Encode(codec.dump(metadata)))
  }

  function EncodeToken<M(!new)>(codec: Codec<M>, metadata: M): string {
    var payload := Payload(codec, metadata);
    payload + "." + codec.sign(payload)
  }

  /** The place of the last dot, if there is one. */
  function LastDot(token: string): (i: Option<nat>)
    ensures i.Some? ==> i.value < |token| && token[i.value] == '.' && '.' !in token[i.value + 1..]
    ensures i.None? ==> '.' !in token
  {
    if token == "" then None
    else if token[|token| - 1] == '.' then Some(|token| - 1)
    else
      var i := LastDot(token[..|token| - 1]);
      assert i.Some? ==> token[i.value + 1..] == token[..|token| - 1][i.value + 1..] + [token[|token| - 1]];
      i
  }

  /** The metadata behind a payload. */
  function ReadPayload<M(!new)>(codec: Codec<M>, payload: string): Option<M> {
    var bytes := Decode(Padded(payload));
    if bytes.None? then None else codec.load(bytes.value)
  }

  /** `verify_upload_token`; `now` is the clock in whole seconds. */
  function VerifyToken<M(!new)>(codec: Codec<M>, token: string, now: int): Result<M, Failure> {
    var dot := LastDot(token);
    if dot.None? then Err(InvalidUploadToken)
    else
      var payload, signature := token[..dot.value], token[dot.value + 1..];
      if signature != codec.sign(payload) then Err(InvalidUploadToken)
      else
        var metadata := ReadPayload(codec, payload);
        if metadata.None? then Err(InvalidUploadToken)
        else
          var expiry := codec.expiry(metadata.value);
          if expiry.None? || expiry.value < now then Err(InvalidUploadToken) else Ok(metadata.value)
  }

  lemma {:induction false} SplitsAtLastDot(payload: string, signature: string)
    requires '.' !in signature
    ensures LastDot(payload + "." + signature) == Some(|payload|)
    ensures (payload + "." + signature)[..|payload|] == payload
    ensures (payload + "." + signature)[|payload| + 1..] == signature
  {
    var token := payload + "." + signature;
    var i := LastDot(token);
    assert token[|payload|] == '.';
  }

  /** Unless it has expired, verifying an issued token gives back the metadata it was made of. */
  lemma {:induction false} TokenRoundTrip<M(!new)>(codec: Codec<M>, metadata: M, now: int)
    requires Sound(codec)
    ensures VerifyToken(codec, EncodeToken(codec, metadata), now)
            == if codec.expiry(metadata).Some? && codec.expiry(metadata).value >= now then Ok(metadata)
               else Err(InvalidUploadToken)
  {
    var payload := Payload(codec, metadata);
    UnpaddedRoundTrip(codec.dump(metadata));
    SplitsAtLastDot(payload, codec.sign(payload));
  }

  /**
   A token is accepted exactly when it is a payload, a dot and the payload's own signature, and the
   payload reads as unexpired metadata.
   */
  lemma {:induction false} AcceptedTokens<M(!new)>(codec: Codec<M>, token: string, metadata: M, now: int)
    requires forall payload: string :: '.' !in codec.sign(payload)
    ensures VerifyToken(codec, token, now) == Ok(metadata) <==>
            exists payload: string :: Carries(codec, token, payload, metadata, now)
  {
    if VerifyToken(codec, token, now) == Ok(metadata) {
      var i := LastDot(token).value;
      assert token == token[..i] + "." + token[i + 1..];
      assert Carries(codec, token, token[..i], metadata, now);
    }
    if exists payload: string :: Carries(codec, token, payload, metadata, now) {
      var payload: string :| Carries(codec, token, payload, metadata, now);
      SplitsAtLastDot(payload, codec.sign(payload));
    }
  }

  predicate Carries<M(!new, ==)>(codec: Codec<M>, token: string, payload: string, metadata: M, now: int) {
    && token == payload + "." + codec.sign(payload)
    && ReadPayload(codec, payload) == Some(metadata)
    && codec.expiry(metadata).Some? && codec.expiry(metadata).value >= now
  }

  /** Different metadata have different tokens. */
  lemma {:induction false} TokensDistinct<M(!new)>(codec: Codec<M>, a: M, b: M)
    requires Sound(codec) && EncodeToken(codec, a) == EncodeToken(codec, b)
    ensures a == b
  {
    var payload, other := Payload(codec, a), Payload(codec, b);
    UnpaddedRoundTrip(codec.dump(a));
    UnpaddedRoundTrip(codec.dump(b));
    SplitsAtLastDot(payload, codec.sign(payload));
    SplitsAtLastDot(other, codec.sign(other));
    assert payload == other;
    assert codec.load(codec.dump(a)) == codec.load(codec.dump(b));
  }

  /** The `expires_at` of a token issued at a time in seconds: ten minutes later, in whole seconds. */
  function ExpiryAt(issued: real): int {
    (issued + 600.0).Floor
  }

  /**
   A token is good for its ten minutes and the rest of their last second: it verifies at every time up
   to 600 seconds after it was issued, and never from 601 seconds on.
   */
  lemma {:induction false} IssuedLifetime<M(!new)>(codec: Codec<M>, metadata: M, issued: real, at: real)
    requires Sound(codec) && codec.expiry(metadata) == Some(ExpiryAt(issued))
    ensures VerifyToken(codec, EncodeToken(codec, metadata), at.Floor).Ok? <==> at < (ExpiryAt(issued) + 1) as real
    ensures at <= issued + 600.0 ==> VerifyToken(codec, EncodeToken(codec, metadata), at.Floor) == Ok(metadata)
    ensures at >= issued + 601.0 ==>
            VerifyToken(codec, EncodeToken(codec, metadata), at.Floor) == Err(InvalidUploadToken)
  {
    TokenRoundTrip(codec, metadata, at.Floor);
  }
}
