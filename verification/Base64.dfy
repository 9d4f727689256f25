/** Base64 with both alphabets, optional line breaks, and a decoder liberal about padding. */
module Base64 {

  type Byte = x: int | 0 <= x < 256
  type Sextet = x: int | 0 <= x < 64

  datatype Error = InvalidData | OutOfRange

  datatype Result<+T> = Ok(value: T) | Err(error: Error)

  // ---- Alphabet -------------------------------------------------------------------------------------------------------

  function CharOf(v: Sextet, url: bool): char {
    if v < 26 then ('A' as int + v) as char
    else if v < 52 then ('a' as int + v - 26) as char
    else if v < 62 then ('0' as int + v - 52) as char
    else if v == 62 then (if url then '-' else '+')
    else if url then '_' else '/'
  }

  predicate Letter(c: char) {
    'A' <= c <= 'Z' || 'a' <= c <= 'z' || '0' <= c <= '9' || c == '+' || c == '-' || c == '/' || c == '_'
  }

  predicate Pad(c: char) { c == '=' || c == '.' }

  /** pos_of_char accepts both alphabets. */
  function ValueOf(c: char): (v: Sextet)
    requires Letter(c)
  {
    if 'A' <= c <= 'Z' then c as int - 'A' as int
    else if 'a' <= c <= 'z' then c as int - 'a' as int + 26
    else if '0' <= c <= '9' then c as int - '0' as int + 52
    else if c == '+' || c == '-' then 62
    else 63
  }

  lemma CharValue(v: Sextet, url: bool)
    ensures var c := CharOf(v, url); Letter(c) && ValueOf(c) == v && !Pad(c) && c != '\n'
  {
  }

  // ---- Encoding ---------------------------------------------------------------------------------------------------------

  function PadChar(url: bool): char { if url then '.' else '=' }

  function EncodeChunk(x: seq<Byte>, url: bool): (s: string)
    requires 1 <= |x| <= 3
    ensures |s| == 4
  {
    var a, p := CharOf(x[0] / 4, url), PadChar(url);
    if |x| == 1 then [a, CharOf(x[0] % 4 * 16, url), p, p]
    else
      var b := CharOf(x[0] % 4 * 16 + x[1] / 16, url);
      if |x| == 2 then [a, b, CharOf(x[1] % 16 * 4, url), p]
      else [a, b, CharOf(x[1] % 16 * 4 + x[2] / 64, url), CharOf(x[2] % 64, url)]
  }

  function Encode(x: seq<Byte>, url: bool): string {
    if x == [] then ""
    else if |x| <= 3 then EncodeChunk(x, url)
    else EncodeChunk(x[..3], url) + Encode(x[3..], url)
  }

  function Group<T>(x: seq<T>, n: nat): seq<T> { if |x| <= n then x else x[..n] }

  function Beyond<T>(x: seq<T>, n: nat): (r: seq<T>)
    ensures |r| == if |x| <= n then 0 else |x| - n
  {
    if |x| <= n then [] else x[n..]
  }

  /** One round of the encoder, for the group of bytes at `pos`. */
  method EncodeGroup(x: seq<Byte>, pos: nat, url: bool) returns (out: string)
    requires pos < |x|
    ensures out == EncodeChunk(Group(x[pos..], 3), url)
  {
    ghost var g := Group(x[pos..], 3);
    out := [CharOf(x[pos] / 4, url)];
    if pos + 1 < |x| {
      out := out + [CharOf(x[pos] % 4 * 16 + x[pos + 1] / 16, url)];
      if pos + 2 < |x| {
        assert g == [x[pos], x[pos + 1], x[pos + 2]];
        out := out + [CharOf(x[pos + 1] % 16 * 4 + x[pos + 2] / 64, url), CharOf(x[pos + 2] % 64, url)];
      } else {
        assert g == [x[pos], x[pos + 1]];
        out := out + [CharOf(x[pos + 1] % 16 * 4, url), PadChar(url)];
      }
    } else {
      assert g == [x[pos]];
      out := out + [CharOf(x[pos] % 4 * 16, url), PadChar(url), PadChar(url)];
    }
  }

  /** The 32-bit loop counter. */
  function Next(pos: nat): nat { (pos + 3) % 0x1_0000_0000 }

  /** The encoder's loop counts in 32 bits; below 4 GiB of input it never wraps. */
  method EncodeBytes(x: seq<Byte>, url: bool) returns (ret: string)
    requires |x| < 0x1_0000_0000
    ensures ret == Encode(x, url)
  {
    ret := "";
    var pos: nat := 0;
    ghost var rounds: nat := 0;
    assert Beyond(x, 0) == x && "" + Encode(x, url) == Encode(x, url);
    hide *;
    while pos < |x|
      invariant pos == 3 * rounds && ret + Encode(Beyond(x, pos), url) == Encode(x, url)
      decreases |x| - pos
    {
      ghost var rest := x[pos..];
      var out := EncodeGroup(x, pos, url);
      BeyondStep(x, pos, 3);
      EncodeStep(rest, url);
      assert ret + (out + Encode(Beyond(rest, 3), url)) == ret + out + Encode(Beyond(rest, 3), url);
      ret := ret + out;
      NextExact(rounds, |x|);
      pos, rounds := Next(pos), rounds + 1;
    }
    EncodeNothing(Beyond(x, pos), url);
    assert ret + "" == ret;
  }

  lemma NextExact(rounds: nat, length: nat)
    requires length < 0x1_0000_0000 && 3 * rounds < length
    ensures Next(3 * rounds) == 3 * rounds + 3
  {
  }

  lemma EncodeNothing(x: seq<Byte>, url: bool)
    requires x == []
    ensures Encode(x, url) == ""
  {
  }

  lemma BeyondStep<T>(x: seq<T>, pos: nat, n: nat)
    requires pos < |x|
    ensures Beyond(x, pos) == x[pos..] && Beyond(x[pos..], n) == Beyond(x, pos + n)
  {
  }

  lemma EncodeStep(x: seq<Byte>, url: bool)
    requires x != []
    ensures Encode(x, url) == EncodeChunk(Group(x, 3), url) + Encode(Beyond(x, 3), url)
  {
    if |x| <= 3 { assert EncodeChunk(x, url) + "" == EncodeChunk(x, url); }
  }

  /** The position after n rounds of the 32-bit counter. */
  function Position(n: nat): nat { if n == 0 then 0 else Next(Position(n - 1)) }

  lemma {:induction false} PositionExact(n: nat)
    requires 3 * n < 0x1_0000_0000
    ensures Position(n) == 3 * n
  {
    if n > 0 { PositionExact(n - 1); }
  }

  lemma PositionBelow(n: nat)
    ensures Position(n) < 0x1_0000_0000
  {
    hide Position;
    if n > 0 { NextBelow(n); } else { assert Position(0) == 0 by { NoRounds(); } }
  }

  lemma NoRounds()
    ensures Position(0) == 0
  {
  }

  lemma NextBelow(n: nat)
    requires n > 0
    ensures Position(n) < 0x1_0000_0000
  {
    assert Position(n) == Next(Position(n - 1));
  }

  /** The encoder's loop ends exactly for inputs below 4 GiB. */
  lemma EncoderEnds(length: nat)
    ensures (exists n :: Position(n) >= length) <==> length < 0x1_0000_0000
  {
    hide Position;
    if n :| Position(n) >= length { PositionBelow(n); }
    if length < 0x1_0000_0000 {
      PositionExact(0x1_0000_0000 / 3);
      assert Position(0x1_0000_0000 / 3) >= length;
    }
  }

  // ---- Decoding ---------------------------------------------------------------------------------------------------------

  /** One chunk of up to four characters. Without padding it may be two or three characters long. */
  function DecodeChunk(c: string): (r: Result<seq<Byte>>)
    requires 1 <= |c| <= 4
  {
    if |c| == 1 then Err(OutOfRange)
    else if !Letter(c[1]) || !Letter(c[0]) then Err(InvalidData)
    else
      var v0, v1 := ValueOf(c[0]), ValueOf(c[1]);
      var b0 := v0 * 4 + v1 / 16;
      if |c| < 3 || Pad(c[2]) then Ok([b0])
      else if !Letter(c[2]) then Err(InvalidData)
      else
        var v2 := ValueOf(c[2]);
        var b1 := v1 % 16 * 16 + v2 / 4;
        if |c| < 4 || Pad(c[3]) then Ok([b0, b1])
        else if !Letter(c[3]) then Err(InvalidData)
        else Ok([b0, b1, v2 % 4 * 64 + ValueOf(c[3])])
  }

  function Join(a: Result<seq<Byte>>, b: Result<seq<Byte>>): Result<seq<Byte>> {
    if a.Err? then a else if b.Err? then b else Ok(a.value + b.value)
  }

  function Decode(s: string): Result<seq<Byte>> {
    if s == "" then Ok([])
    else if |s| <= 4 then DecodeChunk(s)
    else Join(DecodeChunk(s[..4]), Decode(s[4..]))
  }

  function WithoutBreaks(s: string): (r: string)
    ensures '\n' !in r
  {
    if s == "" then "" else (if s[0] == '\n' then "" else [s[0]]) + WithoutBreaks(s[1..])
  }

  function DecodeText(s: string, removeLinebreaks: bool): Result<seq<Byte>> {
    Decode(if removeLinebreaks then WithoutBreaks(s) else s)
  }

  /** One round of the decoder. */
  method DecodeGroup(s: string, pos: nat) returns (r: Result<seq<Byte>>)
    requires pos < |s|
    ensures r == DecodeChunk(Group(s[pos..], 4))
  {
    ghost var c := Group(s[pos..], 4);
    assert forall i :: 0 <= i < |c| ==> c[i] == s[pos + i];
    hide Letter, Pad;
    if pos + 1 >= |s| { return Err(OutOfRange); }
    if !Letter(s[pos + 1]) || !Letter(s[pos]) { return Err(InvalidData); }
    var v1 := ValueOf(s[pos + 1]);
    var out: seq<Byte> := [ValueOf(s[pos]) * 4 + v1 / 16];
    if pos + 2 < |s| && !Pad(s[pos + 2]) {
      if !Letter(s[pos + 2]) { return Err(InvalidData); }
      var v2 := ValueOf(s[pos + 2]);
      out := out + [v1 % 16 * 16 + v2 / 4];
      if pos + 3 < |s| && !Pad(s[pos + 3]) {
        if !Letter(s[pos + 3]) { return Err(InvalidData); }
        out := out + [v2 % 4 * 64 + ValueOf(s[pos + 3])];
        assert out == [out[0], out[1], out[2]];
      } else {
        assert out == [out[0], out[1]];
      }
    }
    return Ok(out);
  }

  method DecodeChars(s: string) returns (r: Result<seq<Byte>>)
    ensures r == Decode(s)
  {
    hide DecodeChunk;
    var ret: seq<Byte> := [];
    var pos := 0;
    JoinNothing(Decode(s));
    while pos < |s|
      invariant Decode(s) == Join(Ok(ret), Decode(Beyond(s, pos)))
      decreases |s| - pos
    {
      ghost var rest := s[pos..];
      r := DecodeGroup(s, pos);
      BeyondStep(s, pos, 4);
      StepDecode(rest);
      if r.Err? { return; }
      JoinAssoc(Ok(ret), r, Decode(Beyond(rest, 4)));
      ret := ret + r.value;
      pos := pos + 4;
    }
    assert ret + [] == ret;
    return Ok(ret);
  }

  lemma JoinNothing(b: Result<seq<Byte>>)
    ensures Join(Ok([]), b) == b
  {
    if b.Ok? { assert [] + b.value == b.value; }
  }

  lemma JoinAssoc(a: Result<seq<Byte>>, b: Result<seq<Byte>>, c: Result<seq<Byte>>)
    ensures Join(a, Join(b, c)) == Join(Join(a, b), c)
  {
    if a.Ok? && b.Ok? && c.Ok? { assert a.value + (b.value + c.value) == a.value + b.value + c.value; }
  }

  lemma StepDecode(s: string)
    requires s != ""
    ensures Decode(s) == Join(DecodeChunk(Group(s, 4)), Decode(Beyond(s, 4)))
  {
    if |s| <= 4 && DecodeChunk(s).Ok? { assert DecodeChunk(s).value + [] == DecodeChunk(s).value; }
  }

  // ---- Round trips --------------------------------------------------------------------------------------------------------

  /** Three bytes as four sextets and back. */
  lemma Packing(a: Byte, b: Byte, c: Byte)
    ensures var v1, v2 := a % 4 * 16 + b / 16, b % 16 * 4 + c / 64;
      && 0 <= v1 < 64 && 0 <= v2 < 64
      && a / 4 * 4 + v1 / 16 == a && v1 % 16 * 16 + v2 / 4 == b && v2 % 4 * 64 + c % 64 == c
  {
  }

  /** Four characters with known values, the last ones possibly padding. */
  lemma ChunkDecoded(s: string, v0: Sextet, v1: Sextet, v2: Sextet, v3: Sextet, n: nat)
    requires |s| == 4 && 1 <= n <= 3
    requires Letter(s[0]) && ValueOf(s[0]) == v0 && Letter(s[1]) && ValueOf(s[1]) == v1
    requires if n == 1 then Pad(s[2]) else Letter(s[2]) && !Pad(s[2]) && ValueOf(s[2]) == v2
    requires n == 2 ==> Pad(s[3])
    requires n == 3 ==> Letter(s[3]) && !Pad(s[3]) && ValueOf(s[3]) == v3
    ensures var out: seq<Byte> := [v0 * 4 + v1 / 16, v1 % 16 * 16 + v2 / 4, v2 % 4 * 64 + v3];
      DecodeChunk(s) == Ok(out[..n])
  {
    hide Letter, Pad, ValueOf;
    var out: seq<Byte> := [v0 * 4 + v1 / 16, v1 % 16 * 16 + v2 / 4, v2 % 4 * 64 + v3];
    assert out[..1] == [out[0]] && out[..2] == [out[0], out[1]] && out[..3] == out;
  }

  lemma ChunkRoundTrip(x: seq<Byte>, url: bool)
    requires 1 <= |x| <= 3
    ensures DecodeChunk(EncodeChunk(x, url)) == Ok(x)
  {
    var a, b, c: Byte := x[0], if |x| > 1 then x[1] else 0, if |x| > 2 then x[2] else 0;
    var v0, v1, v2, v3 := Sextets(a, b, c);
    ChunkChars(x, url, v0, v1, v2, v3);
    hide EncodeChunk, ValueOf, Letter, Pad, DecodeChunk;
    ChunkDecoded(EncodeChunk(x, url), v0, v1, v2, v3, |x|);
    assert x == [a, b, c][..|x|];
  }

  lemma Sextets(a: Byte, b: Byte, c: Byte) returns (v0: Sextet, v1: Sextet, v2: Sextet, v3: Sextet)
    ensures v0 == a / 4 && v1 == a % 4 * 16 + b / 16 && v2 == b % 16 * 4 + c / 64 && v3 == c % 64
    ensures v0 * 4 + v1 / 16 == a && v1 % 16 * 16 + v2 / 4 == b && v2 % 4 * 64 + v3 == c
  {
    Packing(a, b, c);
    v0, v1, v2, v3 := a / 4, a % 4 * 16 + b / 16, b % 16 * 4 + c / 64, c % 64;
  }

  lemma ChunkChars(x: seq<Byte>, url: bool, v0: Sextet, v1: Sextet, v2: Sextet, v3: Sextet)
    requires 1 <= |x| <= 3
    requires v0 == x[0] / 4 && v1 == x[0] % 4 * 16 + if |x| > 1 then x[1] / 16 else 0
    requires |x| > 1 ==> v2 == x[1] % 16 * 4 + if |x| > 2 then x[2] / 64 else 0
    requires |x| > 2 ==> v3 == x[2] % 64
    ensures var s := EncodeChunk(x, url);
      && Letter(s[0]) && ValueOf(s[0]) == v0 && Letter(s[1]) && ValueOf(s[1]) == v1
      && (if |x| == 1 then Pad(s[2]) else Letter(s[2]) && !Pad(s[2]) && ValueOf(s[2]) == v2)
      && (|x| == 2 ==> Pad(s[3]))
      && (|x| == 3 ==> Letter(s[3]) && !Pad(s[3]) && ValueOf(s[3]) == v3)
  {
    CharValue(v0, url);
    CharValue(v1, url);
    CharValue(v2, url);
    CharValue(v3, url);
    assert Pad(PadChar(url));
    hide CharOf, ValueOf, Letter, Pad, PadChar;
    if |x| == 1 {
      assert v1 == x[0] % 4 * 16;
    } else if |x| == 2 {
      assert v2 == x[1] % 16 * 4;
    }
  }

  /** Decoding works chunk by chunk, so texts of whole chunks can be put one after the other. */
  lemma {:induction false} DecodeConcat(a: string, b: string)
    requires |a| % 4 == 0
    ensures Decode(a + b) == Join(Decode(a), Decode(b))
    decreases |a|
  {
    if a == "" {
      assert a + b == b;
      JoinNothing(Decode(b));
    } else {
      assert Group(a + b, 4) == Group(a, 4) && Beyond(a + b, 4) == Beyond(a, 4) + b;
      StepDecode(a);
      StepDecode(a + b);
      DecodeConcat(Beyond(a, 4), b);
      hide DecodeChunk, Decode;
      JoinAssoc(DecodeChunk(Group(a, 4)), Decode(Beyond(a, 4)), Decode(b));
    }
  }

  lemma {:induction false} EncodeLength(x: seq<Byte>, url: bool)
    ensures |Encode(x, url)| == (|x| + 2) / 3 * 4
  {
    if |x| > 3 { EncodeLength(x[3..], url); }
  }

  lemma {:induction false} RoundTrip(x: seq<Byte>, url: bool)
    ensures Decode(Encode(x, url)) == Ok(x)
    decreases |x|
  {
    if x != [] {
      var g, rest := Group(x, 3), Beyond(x, 3);
      ChunkRoundTrip(g, url);
      RoundTrip(rest, url);
      EncodeStep(x, url);
      var c := EncodeChunk(g, url);
      assert Decode(c) == DecodeChunk(c);
      hide EncodeChunk, DecodeChunk, Encode, Decode;
      DecodeConcat(c, Encode(rest, url));
      assert x == g + rest;
    }
  }

  /** Encoded texts, in either alphabet each, decode as one text to the bytes put together. */
  lemma ConcatRoundTrip(x: seq<Byte>, y: seq<Byte>, u: bool, v: bool)
    ensures Decode(Encode(x, u) + Encode(y, v)) == Ok(x + y)
  {
    hide Encode, Decode;
    EncodeLength(x, u);
    RoundTrip(x, u);
    RoundTrip(y, v);
    DecodeConcat(Encode(x, u), Encode(y, v));
  }

  // ---- What the decoder accepts ---------------------------------------------------------------------------------------------

  predicate AcceptableAt(s: string, i: nat)
    requires i < |s|
  {
    Letter(s[i]) || (i % 4 == 2 && Pad(s[i])) || (i % 4 == 3 && (Pad(s[i]) || Pad(s[i - 1])))
  }

  /** Position by position: two letters, a letter or padding, and after padding anything. */
  predicate Acceptable(s: string) { |s| % 4 != 1 && forall i :: 0 <= i < |s| ==> AcceptableAt(s, i) }

  lemma {:induction false} AcceptsExactly(s: string)
    ensures Decode(s).Ok? <==> Acceptable(s)
    ensures Decode(s).Err? && Decode(s).error == OutOfRange ==> |s| % 4 == 1
    decreases |s|
  {
    if s != "" {
      var a, b := Group(s, 4), Beyond(s, 4);
      StepDecode(s);
      ChunkAccepts(a);
      AcceptsExactly(b);
      hide DecodeChunk, AcceptableAt, Decode;
      AcceptSplit(s);
    }
  }

  lemma ChunkAccepts(c: string)
    requires 1 <= |c| <= 4
    ensures DecodeChunk(c).Ok? <==> Acceptable(c)
    ensures DecodeChunk(c).Err? && DecodeChunk(c).error == OutOfRange ==> |c| == 1
  {
    assert |c| > 0 ==> (AcceptableAt(c, 0) <==> Letter(c[0]));
    assert |c| > 1 ==> (AcceptableAt(c, 1) <==> Letter(c[1]));
    assert |c| > 2 ==> (AcceptableAt(c, 2) <==> Letter(c[2]) || Pad(c[2]));
    assert |c| > 3 ==> (AcceptableAt(c, 3) <==> Letter(c[3]) || Pad(c[3]) || Pad(c[2]));
    hide ValueOf, AcceptableAt;
  }

  /** The decoder runs out of range exactly where one character is left over after acceptable ones. */
  lemma {:induction false} RunsOutExactly(s: string)
    ensures Decode(s) == Err(OutOfRange) <==> |s| % 4 == 1 && Acceptable(s[..|s| - 1])
    decreases |s|
  {
    if |s| > 4 {
      var a, b, front := Group(s, 4), Beyond(s, 4), s[..|s| - 1];
      StepDecode(s);
      ChunkAccepts(a);
      AcceptSplit(front);
      assert Group(front, 4) == a && Beyond(front, 4) == b[..|b| - 1];
      hide DecodeChunk, Acceptable, Decode;
      RunsOutExactly(b);
    } else if s != "" {
      ChunkAccepts(s);
      OneLeft(s);
      hide DecodeChunk, AcceptableAt;
    }
  }

  lemma OneLeft(s: string)
    requires 1 <= |s| <= 4
    ensures |s| == 1 ==> DecodeChunk(s) == Err(OutOfRange) && Acceptable(s[..|s| - 1])
  {
  }

  lemma AcceptSplit(s: string)
    requires s != ""
    ensures Acceptable(s) <==> Acceptable(Group(s, 4)) && Acceptable(Beyond(s, 4))
  {
    var a, b := Group(s, 4), Beyond(s, 4);
    assert forall i :: 0 <= i < |a| ==> AcceptableAt(a, i) == AcceptableAt(s, i);
    forall i: nat | i < |b| ensures AcceptableAt(b, i) == AcceptableAt(s, i + 4) {
      assert b[i] == s[i + 4];
    }
    hide AcceptableAt;
    if Acceptable(a) && Acceptable(b) {
      forall i: nat | i < |s| ensures AcceptableAt(s, i) {
        if i >= 4 { assert AcceptableAt(b, i - 4); } else { assert AcceptableAt(a, i); }
      }
    }
  }

  // ---- Line breaks -----------------------------------------------------------------------------------------------------------

  /** A line break after every `d` characters, none at the end. */
  function Broken(s: string, d: nat): string
    requires d > 0
  {
    if |s| <= d then s else s[..d] + "\n" + Broken(s[d..], d)
  }

  method InsertLinebreaks(str: string, distance: nat) returns (s: string)
    requires distance > 0
    ensures s == Broken(str, distance)
  {
    if str == "" { return ""; }
    s := str;
    var pos := distance;
    ghost var done, rest := "", str;
    while pos < |s|
      invariant s == done + rest && pos == |done| + distance
      invariant done + Broken(rest, distance) == Broken(str, distance)
      decreases |rest|
    {
      assert s[..pos] == done + rest[..distance] && s[pos..] == rest[distance..];
      s := s[..pos] + "\n" + s[pos..];
      done, rest := done + (rest[..distance] + "\n"), rest[distance..];
      pos := pos + distance + 1;
    }
  }

  lemma {:induction false} BrokenBack(s: string, d: nat)
    requires d > 0 && '\n' !in s
    ensures WithoutBreaks(Broken(s, d)) == s
    decreases |s|
  {
    if |s| <= d {
      NoBreaks(s);
    } else {
      var a, b := s[..d], s[d..];
      BrokenBack(b, d);
      BreakGone(a, Broken(b, d));
      assert s == a + b;
    }
  }

  lemma BreakGone(a: string, b: string)
    requires '\n' !in a
    ensures WithoutBreaks(a + "\n" + b) == a + WithoutBreaks(b)
  {
    BreaksConcat(a + "\n", b);
    BreaksConcat(a, "\n");
    NoBreaks(a);
    assert WithoutBreaks("\n") == "" + WithoutBreaks("") == "";
    assert a + "" == a;
  }

  lemma {:induction false} NoBreaks(s: string)
    requires '\n' !in s
    ensures WithoutBreaks(s) == s
  {
    if s != "" { NoBreaks(s[1..]); }
  }

  lemma {:induction false} BreaksConcat(a: string, b: string)
    ensures WithoutBreaks(a + b) == WithoutBreaks(a) + WithoutBreaks(b)
  {
    if a == "" {
      assert a + b == b && "" + WithoutBreaks(b) == WithoutBreaks(b);
    } else {
      var head := if a[0] == '\n' then "" else [a[0]];
      assert (a + b)[1..] == a[1..] + b;
      assert WithoutBreaks(a + b) == head + WithoutBreaks(a[1..] + b);
      assert WithoutBreaks(a) == head + WithoutBreaks(a[1..]);
      hide WithoutBreaks;
      BreaksConcat(a[1..], b);
      assert head + (WithoutBreaks(a[1..]) + WithoutBreaks(b)) == (head + WithoutBreaks(a[1..])) + WithoutBreaks(b);
    }
  }

  lemma {:induction false} EncodedPlain(x: seq<Byte>, url: bool)
    ensures '\n' !in Encode(x, url)
  {
    if x != [] {
      var c := if |x| <= 3 then x else x[..3];
      ChunkPlain(c, url);
      if |x| > 3 { EncodedPlain(x[3..], url); }
    }
  }

  lemma ChunkPlain(x: seq<Byte>, url: bool)
    requires 1 <= |x| <= 3
    ensures '\n' !in EncodeChunk(x, url)
  {
    forall v: Sextet ensures CharOf(v, url) != '\n' { CharValue(v, url); }
    hide CharOf;
  }

  /** The breaks stand at every (d+1)-th position and nowhere else, so every line but the last has d
      characters. */
  lemma {:induction false} BreakPositions(s: string, d: nat, line: nat, column: nat)
    requires d > 0 && '\n' !in s && column <= d && line * (d + 1) + column < |Broken(s, d)|
    ensures Broken(s, d)[line * (d + 1) + column] == '\n' <==> column == d
    decreases line
  {
    var i := line * (d + 1) + column;
    if line == 0 {
      assert i == column;
      if |s| > d { assert Broken(s, d)[i] == if i < d then s[i] else '\n'; }
    } else {
      assert (line - 1) * (d + 1) == line * (d + 1) - (d + 1) >= 0;
      assert |s| > d;
      assert Broken(s, d)[i] == Broken(s[d..], d)[i - (d + 1)];
      BreakPositions(s[d..], d, line - 1, column);
    }
  }

  /** PEM and MIME text, with its line breaks removed, decodes to what was encoded. */
  lemma BrokenRoundTrip(x: seq<Byte>, d: nat)
    requires d == 64 || d == 76
    ensures DecodeText(Broken(Encode(x, false), d), true) == Ok(x)
  {
    EncodedPlain(x, false);
    BrokenBack(Encode(x, false), d);
    RoundTrip(x, false);
  }

  method EncodeLines(x: seq<Byte>, d: nat) returns (s: string)
    requires |x| < 0x1_0000_0000 && d > 0
    ensures s == Broken(Encode(x, false), d)
  {
    var plain := EncodeBytes(x, false);
    s := InsertLinebreaks(plain, d);
  }

  // ---- The tables of the standard -------------------------------------------------------------------------------------------

  const UPPER := "ABCDEFGHIJKLMNOPQRSTUVWXYZ"
  const LOWER := "abcdefghijklmnopqrstuvwxyz"
  const DIGITS := "0123456789"

  lemma UpperAt(v: nat)
    requires v < 26
    ensures UPPER[v] == ('A' as int + v) as char
  {
  }

  lemma LowerAt(v: nat)
    requires v < 26
    ensures LOWER[v] == ('a' as int + v) as char
  {
  }

  lemma DigitAt(v: nat)
    requires v < 10
    ensures DIGITS[v] == ('0' as int + v) as char
  {
  }

  /** RFC 4648, Table 1 and Table 2; the second pads with '.' here. */
  function Alphabet(url: bool): (a: string)
    ensures |a| == 64
  {
    UPPER + LOWER + DIGITS + if url then "-_" else "+/"
  }

  function TableAt(v: Sextet, url: bool): char { Alphabet(url)[v] }

  lemma CharTable(v: Sextet, url: bool)
    ensures CharOf(v, url) == TableAt(v, url) && PadChar(url) == if url then '.' else '='
  {
    if v < 26 { UpperAt(v); } else if v < 52 { LowerAt(v - 26); } else if v < 62 { DigitAt(v - 52); }
    PartAt(UPPER, LOWER, DIGITS, if url then "-_" else "+/", v);
    hide UPPER, LOWER, DIGITS;
  }

  lemma PartAt(a: string, b: string, c: string, d: string, v: nat)
    requires |a| == 26 && |b| == 26 && |c| == 10 && |d| == 2 && v < 64
    ensures (a + b + c + d)[v] == if v < 26 then a[v] else if v < 52 then b[v - 26] else if v < 62 then c[v - 52] else d[v - 62]
  {
  }

  lemma Divided(n: nat, d: nat, q: nat, r: nat)
    requires d > 0 && n == q * d + r && r < d
    ensures n / d == q && n % d == r
  {
    var p := n / d;
    assert n == p * d + n % d;
    if p < q { Gap(p, q, d); }
    if q < p { Gap(q, p, d); }
  }

  lemma Gap(p: nat, q: nat, d: nat)
    requires p < q
    ensures p * d + d <= q * d
  {
    assert q * d == p * d + (q - p) * d;
    assert (q - p) * d == d + (q - p - 1) * d;
  }

  /** Six bits of a number of 24, the highest first. */
  ghost function Six(n: nat, k: nat): Sextet {
    if k == 0 then n / 262144 % 64 else if k == 1 then n / 4096 % 64 else if k == 2 then n / 64 % 64 else n % 64
  }

  lemma SixBits(a: nat, b: nat, c: nat)
    requires a < 256 && b < 256 && c < 256
    ensures var n := 65536 * a + 256 * b + c;
      && Six(n, 0) == a / 4 && Six(n, 1) == a % 4 * 16 + b / 16
      && Six(n, 2) == b % 16 * 4 + c / 64 && Six(n, 3) == c % 64
  {
    var n := 65536 * a + 256 * b + c;
    Divided(n, 262144, a / 4, a % 4 * 65536 + 256 * b + c);
    Divided(n, 4096, 16 * a + b / 16, b % 16 * 256 + c);
    Divided(16 * a + b / 16, 64, a / 4, a % 4 * 16 + b / 16);
    Divided(n, 64, 1024 * a + 4 * b + c / 64, c % 64);
    Divided(1024 * a + 4 * b + c / 64, 64, 16 * a + b / 16, b % 16 * 4 + c / 64);
  }

  /** The bytes of a group as one number of 24 bits, zeros for what is missing. */
  ghost function Joint(x: seq<Byte>): nat
    requires 1 <= |x| <= 3
  {
    65536 * (x[0] as int) + (if |x| > 1 then 256 * (x[1] as int) else 0) + if |x| > 2 then x[2] as int else 0
  }

  /** A group is encoded as section 4 of RFC 4648 says: six bits of its number a character, from the highest,
      and padding where there are no bits of the input. */
  lemma GroupBits(x: seq<Byte>, url: bool)
    requires 1 <= |x| <= 3
    ensures var n, s, pad := Joint(x), EncodeChunk(x, url), if url then '.' else '=';
      && s[0] == TableAt(Six(n, 0), url) && s[1] == TableAt(Six(n, 1), url)
      && s[2] == (if |x| > 1 then TableAt(Six(n, 2), url) else pad)
      && s[3] == if |x| > 2 then TableAt(Six(n, 3), url) else pad
  {
    hide *;
    ChunkSextets(x, url);
    CharTable(Six(Joint(x), 0), url);
    CharTable(Six(Joint(x), 1), url);
    CharTable(Six(Joint(x), 2), url);
    CharTable(Six(Joint(x), 3), url);
  }

  lemma ChunkSextets(x: seq<Byte>, url: bool)
    requires 1 <= |x| <= 3
    ensures var n, s := Joint(x), EncodeChunk(x, url);
      && s[0] == CharOf(Six(n, 0), url) && s[1] == CharOf(Six(n, 1), url)
      && s[2] == (if |x| > 1 then CharOf(Six(n, 2), url) else PadChar(url))
      && s[3] == if |x| > 2 then CharOf(Six(n, 3), url) else PadChar(url)
  {
    SixBits(x[0], if |x| > 1 then x[1] else 0, if |x| > 2 then x[2] else 0);
    hide CharOf, PadChar, Six;
  }

  /** The decoder's characters are those of the two tables, and its padding is either one. */
  lemma LetterTable(c: char)
    ensures Letter(c) <==> c in UPPER || c in LOWER || c in DIGITS || c in "+/-_"
    ensures Pad(c) <==> c in "=."
  {
    if 'A' <= c <= 'Z' { UpperAt(c as int - 'A' as int); }
    if 'a' <= c <= 'z' { LowerAt(c as int - 'a' as int); }
    if '0' <= c <= '9' { DigitAt(c as int - '0' as int); }
    InUpper(c);
    InLower(c);
    InDigits(c);
    hide UPPER, LOWER, DIGITS;
  }

  lemma InUpper(c: char)
    ensures c in UPPER ==> 'A' <= c <= 'Z'
  {
  }

  lemma InLower(c: char)
    ensures c in LOWER ==> 'a' <= c <= 'z'
  {
  }

  lemma InDigits(c: char)
    ensures c in DIGITS ==> '0' <= c <= '9'
  {
  }

  lemma ValueTable(c: char)
    requires Letter(c)
    ensures c == TableAt(ValueOf(c), false) || c == TableAt(ValueOf(c), true)
  {
    CharTable(ValueOf(c), false);
    CharTable(ValueOf(c), true);
    hide TableAt;
  }

  /** How many characters of a group carry bits: up to the padding, or all there are. */
  function Significant(c: string): (k: nat)
    requires 2 <= |c| <= 4
    ensures 2 <= k <= |c|
  {
    if |c| == 2 || Pad(c[2]) then 2 else if |c| == 3 || Pad(c[3]) then 3 else 4
  }

  predicate Lettered(c: string)
    requires 2 <= |c| <= 4
  {
    Letter(c[0]) && Letter(c[1]) && (Significant(c) > 2 ==> Letter(c[2])) && (Significant(c) > 3 ==> Letter(c[3]))
  }

  /** The characters of a group as one number of 24 bits, zeros for what is missing. */
  ghost function Read(c: string): nat
    requires 2 <= |c| <= 4 && Lettered(c)
  {
    262144 * ValueOf(c[0]) as int + 4096 * ValueOf(c[1]) as int
    + (if Significant(c) > 2 then 64 * ValueOf(c[2]) as int else 0) + if Significant(c) > 3 then ValueOf(c[3]) as int else 0
  }

  lemma ThreeBytes(a: nat, b: nat, c: nat, d: nat)
    requires a < 64 && b < 64 && c < 64 && d < 64
    ensures var n := 262144 * a + 4096 * b + 64 * c + d;
      n / 65536 == a * 4 + b / 16 && n / 256 % 256 == b % 16 * 16 + c / 4 && n % 256 == c % 4 * 64 + d
  {
    var n := 262144 * a + 4096 * b + 64 * c + d;
    Divided(n, 65536, a * 4 + b / 16, b % 16 * 4096 + 64 * c + d);
    Divided(n, 256, 1024 * a + 16 * b + c / 4, c % 4 * 64 + d);
    Divided(1024 * a + 16 * b + c / 4, 256, 4 * a + b / 16, b % 16 * 16 + c / 4);
  }

  /** Whatever follows its significant characters, and whatever bits are left over, a group is decoded to the
      whole bytes of its number: one less than it has significant characters. */
  lemma DecodedBits(c: string)
    requires 2 <= |c| <= 4 && Lettered(c)
    ensures var n, k := Read(c), Significant(c); var r := DecodeChunk(c);
      && r.Ok? && |r.value| == k - 1 && r.value[0] == n / 65536
      && (k > 2 ==> r.value[1] == n / 256 % 256) && (k > 3 ==> r.value[2] == n % 256)
  {
    var k := Significant(c);
    ThreeBytes(ValueOf(c[0]), ValueOf(c[1]), if k > 2 then ValueOf(c[2]) else 0, if k > 3 then ValueOf(c[3]) else 0);
    hide Letter, Pad, ValueOf;
  }
}
