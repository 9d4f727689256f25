/** The CRC as the PNG Specification, section 5.5, defines it: the complement of the remainder of a long
    division of the message by one polynomial, lowest bit of each byte first, with a register preset to
    ones. */
module CrcDivision {
  import opened Crc32

  // ---- Long division of bit sequences, highest power first -----------------------------------------------

  /** x^32 + x^26 + x^23 + x^22 + x^16 + x^12 + x^11 + x^10 + x^8 + x^7 + x^5 + x^4 + x^2 + x + 1 */
  const EXPONENTS: set<int> := {32, 26, 23, 22, 16, 12, 11, 10, 8, 7, 5, 4, 2, 1, 0}

  function Generator(): (g: seq<bool>)
    ensures |g| == 33 && forall i :: 0 <= i < 33 ==> g[i] == (32 - i in EXPONENTS)
  {
    seq(33, i requires 0 <= i < 33 => 32 - i in EXPONENTS)
  }

  /** Adds `a` to the highest terms of `m`. */
  function Mix(a: seq<bool>, m: seq<bool>): (r: seq<bool>)
    requires |a| <= |m|
    ensures |r| == |m| && forall i :: 0 <= i < |m| ==> r[i] == if i < |a| then a[i] != m[i] else m[i]
  {
    seq(|m|, i requires 0 <= i < |m| => if i < |a| then a[i] != m[i] else m[i])
  }

  /** Takes the generator off if the highest term is there, and drops that term. */
  function Reduce(p: seq<bool>): (r: seq<bool>)
    requires |p| > 32
    ensures |r| == |p| - 1
  {
    (if p[0] then Mix(Generator(), p) else p)[1..]
  }

  /** What is left of `p` once all terms of power 32 and above are gone. */
  function Remainder(p: seq<bool>): (r: seq<bool>)
    requires |p| >= 32
    ensures |r| == 32
    decreases |p|
  {
    if |p| == 32 then p else Remainder(Reduce(p))
  }

  function Zeros(n: nat): (z: seq<bool>)
    ensures |z| == n && forall i :: 0 <= i < n ==> !z[i]
  {
    seq(n, i => false)
  }

  function Ones(n: nat): (z: seq<bool>)
    ensures |z| == n && forall i :: 0 <= i < n ==> z[i]
  {
    seq(n, i => true)
  }

  function Low(x: bv32): bool { x & 1 == 1 }

  /** The lowest `n` bits, lowest first. */
  function Bits(x: bv32, n: nat): (r: seq<bool>)
    ensures |r| == n
  {
    if n == 0 then [] else [Low(x)] + Bits(Half(x), n - 1)
  }

  function MessageBits(bytes: seq<bv8>): seq<bool> {
    if bytes == [] then [] else Bits(bytes[0] as bv32, 8) + MessageBits(bytes[1..])
  }

  // ---- Bits of words ---------------------------------------------------------------------------------------

  lemma XorBits(x: bv32, y: bv32)
    ensures Low(Xor(x, y)) == (Low(x) != Low(y)) && Half(Xor(x, y)) == Xor(Half(x), Half(y))
  {
  }

  lemma {:induction false} BitsXor(x: bv32, y: bv32, n: nat)
    ensures Bits(Xor(x, y), n) == Mix(Bits(x, n), Bits(y, n))
    decreases n
  {
    hide Low, Half, Xor;
    if n > 0 {
      XorBits(x, y);
      BitsXor(Half(x), Half(y), n - 1);
    }
  }

  lemma {:induction false} BitsSplit(x: bv32, n: nat, m: nat)
    ensures Bits(x, n + m) == Bits(x, n) + Bits(Down(x, n), m)
    decreases n
  {
    hide Low, Half;
    if n > 0 {
      BitsSplit(Half(x), n - 1, m);
      DownFirst(x, n);
    }
  }

  lemma {:induction false} DownFirst(x: bv32, n: nat)
    requires n > 0
    ensures Down(x, n) == Down(Half(x), n - 1)
  {
    hide Half;
    if n > 1 { DownFirst(x, n - 1); }
  }

  lemma {:induction false} NoBits(n: nat)
    ensures Bits(0, n) == Zeros(n)
  {
    if n > 0 {
      HalfZero();
      hide Low, Half;
      NoBits(n - 1);
    }
  }

  lemma HalfZero()
    ensures Half(0) == 0 && !Low(0)
  {
  }

  lemma {:induction false} DownDown(x: bv32, n: nat, m: nat)
    ensures Down(x, n + m) == Down(Down(x, n), m)
  {
    hide Half;
    if m > 0 { DownDown(x, n, m - 1); }
  }

  function Octet(x: bv32): bv32 { x >> 8 }

  lemma DownByte(x: bv32)
    ensures Down(x, 8) == Octet(x)
  {
    Halves(x);
    DownSteps(x);
    hide Half, Down;
  }

  lemma DownWord(x: bv32)
    ensures Down(x, 32) == 0
  {
    AllOut(x);
    hide Down, Octet;
    DownByte(x);
    DownByte(Octet(x));
    DownByte(Octet(Octet(x)));
    DownByte(Octet(Octet(Octet(x))));
    DownDown(x, 8, 8);
    DownDown(x, 16, 8);
    DownDown(x, 24, 8);
  }

  lemma AllOut(x: bv32)
    ensures Octet(Octet(Octet(Octet(x)))) == 0
  {
  }

  function Word(b: bv8): bv32 { b as bv32 }

  lemma ByteOut(b: bv8)
    ensures Octet(Word(b)) == 0
  {
  }

  lemma ByteBits(b: bv8)
    ensures Bits(Word(b), 32) == Bits(Word(b), 8) + Zeros(24)
  {
    hide Bits, Down, Octet, Word;
    BitsSplit(Word(b), 8, 24);
    DownByte(Word(b));
    ByteOut(b);
    NoBits(24);
  }

  /** Shifting a word drops its lowest bit and brings in none. */
  lemma HalfBits(x: bv32)
    ensures Bits(Half(x), 32) == Bits(x, 32)[1..] + [false]
  {
    assert Bits(x, 32)[1..] == Bits(Half(x), 31);
    hide Bits, Down, Half;
    BitsSplit(Half(x), 31, 1);
    DownFirst(x, 32);
    DownWord(x);
    NoBits(1);
  }

  lemma OneBit(x: bv32, n: nat, low: bool, half: bv32)
    requires Low(x) == low && Half(x) == half
    ensures Bits(x, n + 1) == [low] + Bits(half, n)
  {
    hide Low, Half;
  }

  // ---- The polynomial of the source is the generator -----------------------------------------------------

  lemma Eight(x0: bv32, x1: bv32, x2: bv32, x3: bv32, x4: bv32, x5: bv32, x6: bv32, x7: bv32, x8: bv32)
    requires Half(x0) == x1 && Half(x1) == x2 && Half(x2) == x3 && Half(x3) == x4
    requires Half(x4) == x5 && Half(x5) == x6 && Half(x6) == x7 && Half(x7) == x8
    ensures Bits(x0, 8) == [Low(x0), Low(x1), Low(x2), Low(x3), Low(x4), Low(x5), Low(x6), Low(x7)]
    ensures Down(x0, 8) == x8
  {
    hide *;
    EightDown(x0, x1, x2, x3, x4, x5, x6, x7, x8);
    FourBits(x0, x1, x2, x3, x4, 4);
    FourBits(x4, x5, x6, x7, x8, 0);
    JoinEight(Low(x0), Low(x1), Low(x2), Low(x3), Low(x4), Low(x5), Low(x6), Low(x7), Bits(x8, 0));
  }

  lemma EightDown(x0: bv32, x1: bv32, x2: bv32, x3: bv32, x4: bv32, x5: bv32, x6: bv32, x7: bv32, x8: bv32)
    requires Half(x0) == x1 && Half(x1) == x2 && Half(x2) == x3 && Half(x3) == x4
    requires Half(x4) == x5 && Half(x5) == x6 && Half(x6) == x7 && Half(x7) == x8
    ensures Down(x0, 8) == x8
  {
    hide *;
    DownSteps(x0);
  }

  lemma FourBits(x0: bv32, x1: bv32, x2: bv32, x3: bv32, x4: bv32, n: nat)
    requires Half(x0) == x1 && Half(x1) == x2 && Half(x2) == x3 && Half(x3) == x4
    ensures Bits(x0, n + 4) == [Low(x0), Low(x1), Low(x2), Low(x3)] + Bits(x4, n)
  {
    hide *;
    TwoBits(x0, x1, x2, n + 2);
    TwoBits(x2, x3, x4, n);
    JoinFour(Low(x0), Low(x1), Low(x2), Low(x3), Bits(x4, n));
  }

  lemma JoinFour(a: bool, b: bool, c: bool, d: bool, e: seq<bool>)
    ensures [a, b] + ([c, d] + e) == [a, b, c, d] + e
  {
  }

  lemma JoinEight(a: bool, b: bool, c: bool, d: bool, e: bool, f: bool, g: bool, h: bool, t: seq<bool>)
    requires t == []
    ensures [a, b, c, d] + ([e, f, g, h] + t) == [a, b, c, d, e, f, g, h]
  {
  }

  lemma TwoBits(x0: bv32, x1: bv32, x2: bv32, n: nat)
    requires Half(x0) == x1 && Half(x1) == x2
    ensures Bits(x0, n + 2) == [Low(x0), Low(x1)] + Bits(x2, n)
  {
    hide *;
    OneBit(x1, n, Low(x1), x2);
    OneBit(x0, n + 1, Low(x0), x1);
    assert [Low(x0)] + ([Low(x1)] + Bits(x2, n)) == [Low(x0), Low(x1)] + Bits(x2, n);
  }

  lemma Part0()
    ensures Bits(0xedb88320, 8) == [false, false, false, false, false, true, false, false]
    ensures Down(0xedb88320, 8) == 0xedb883
  {
    Eight(0xedb88320, 0x76dc4190, 0x3b6e20c8, 0x1db71064, 0xedb8832, 0x76dc419, 0x3b6e20c, 0x1db7106, 0xedb883);
  }

  lemma Part1()
    ensures Bits(0xedb883, 8) == [true, true, false, false, false, false, false, true]
    ensures Down(0xedb883, 8) == 0xedb8
  {
    Eight(0xedb883, 0x76dc41, 0x3b6e20, 0x1db710, 0xedb88, 0x76dc4, 0x3b6e2, 0x1db71, 0xedb8);
  }

  lemma Part2()
    ensures Bits(0xedb8, 8) == [false, false, false, true, true, true, false, true]
    ensures Down(0xedb8, 8) == 0xed
  {
    Eight(0xedb8, 0x76dc, 0x3b6e, 0x1db7, 0xedb, 0x76d, 0x3b6, 0x1db, 0xed);
  }

  lemma Part3()
    ensures Bits(0xed, 8) == [true, false, true, true, false, true, true, true]
    ensures Down(0xed, 8) == 0x0
  {
    Eight(0xed, 0x76, 0x3b, 0x1d, 0xe, 0x7, 0x3, 0x1, 0x0);
  }

  /** The constant of the source has exactly the terms of the generator below the highest, reflected. */
  lemma PolynomialBits()
    ensures Bits(POLYNOMIAL, 32) == Generator()[1..]
  {
    Part0();
    Part1();
    Part2();
    Part3();
    hide Bits, Down;
    BitsSplit(0xedb88320, 8, 24);
    BitsSplit(0xedb883, 8, 16);
    BitsSplit(0xedb8, 8, 8);
    assert Bits(POLYNOMIAL, 32) ==
      Bits(0xedb88320, 8) + (Bits(0xedb883, 8) + (Bits(0xedb8, 8) + Bits(0xed, 8)));
  }

  // ---- One step of the register is one step of the division ----------------------------------------------

  /** A register on top of the message bits still to come. */
  function Load(s: bv32, m: seq<bool>): seq<bool>
    requires |m| >= 32
  {
    Mix(Bits(s, 32), m)
  }

  lemma StepBits(s: bv32)
    ensures var b, t := Bits(s, 32), Bits(Step(s), 32); var shifted := b[1..] + [false];
      t == if b[0] then Mix(Generator()[1..], shifted) else shifted
  {
    StepLow(s);
    HalfBits(s);
    PolynomialBits();
    assert Bits(s, 32)[0] == Low(s);
    hide Bits, Low, Half, Step, Generator;
    if Low(s) { BitsXor(POLYNOMIAL, Half(s), 32); }
  }

  lemma StepLow(s: bv32)
    ensures Step(s) == if Low(s) then Xor(POLYNOMIAL, Half(s)) else Half(s)
  {
    StepIs(s);
    hide Step;
    Swap(s >> 1);
  }

  lemma Swap(x: bv32)
    ensures x ^ POLYNOMIAL == POLYNOMIAL ^ x
  {
  }

  lemma ReduceLoad(s: bv32, m: seq<bool>)
    requires |m| > 32 && !m[0]
    ensures Reduce(Load(s, m)) == Load(Step(s), m[1..])
  {
    StepBits(s);
    hide Bits, Step;
    var p, q := Load(s, m), Load(Step(s), m[1..]);
    var r := Reduce(p);
    forall i | 0 <= i < |r| ensures r[i] == q[i] {
      assert p[i + 1] == if i + 1 < 32 then Bits(s, 32)[i + 1] != m[i + 1] else m[i + 1];
      assert i < 32 ==> Generator()[1..][i] == Generator()[i + 1];
    }
  }

  lemma {:induction false} StepsFirst(s: bv32, n: nat)
    requires n > 0
    ensures Steps(s, n) == Steps(Step(s), n - 1)
  {
    hide Step;
    if n > 1 { StepsFirst(s, n - 1); }
  }

  lemma {:induction false} ReduceZeros(s: bv32, n: nat, m: seq<bool>)
    requires |m| >= 32
    ensures Remainder(Load(s, Zeros(n) + m)) == Remainder(Load(Steps(s, n), m))
    decreases n
  {
    if n == 0 {
      assert Zeros(0) + m == m;
    } else {
      hide Step, Reduce, Load;
      var all := Zeros(n) + m;
      assert all[1..] == Zeros(n - 1) + m && !all[0];
      ReduceLoad(s, all);
      LoadLength(s, all);
      StepsFirst(s, n);
      ReduceZeros(Step(s), n - 1, m);
    }
  }

  lemma LoadLength(s: bv32, m: seq<bool>)
    requires |m| >= 32
    ensures |Load(s, m)| == |m|
  {
  }

  /** Adding a byte to the register is reading its bits from the message. */
  lemma ByteLoads(s: bv32, b: bv8, m: seq<bool>)
    requires |m| >= 32
    ensures Load(s, Bits(Word(b), 8) + m) == Load(Xor(s, Word(b)), Zeros(8) + m)
  {
    BitsXor(s, Word(b), 32);
    ByteBits(b);
    hide Bits, Xor, Word;
    var x, y := Load(s, Bits(Word(b), 8) + m), Load(Xor(s, Word(b)), Zeros(8) + m);
    forall i | 0 <= i < |x| ensures x[i] == y[i] {
      if i < 32 { assert Bits(Word(b), 32)[i] == if i < 8 then Bits(Word(b), 8)[i] else false; }
    }
  }

  lemma UpdateFirst(s: bv32, bytes: seq<bv8>)
    requires bytes != []
    ensures UpdateAll(s, bytes) == UpdateAll(Steps(Xor(s, Word(bytes[0])), 8), bytes[1..])
  {
    hide Steps, Xor;
    assert bytes == [bytes[0]] + bytes[1..] && [bytes[0]][..0] == [];
    UpdateConcat(s, [bytes[0]], bytes[1..]);
    assert UpdateAll(s, [bytes[0]]) == Update(s, bytes[0]);
  }

  lemma {:induction false} BytesDivided(s: bv32, bytes: seq<bv8>)
    ensures Remainder(Load(s, MessageBits(bytes) + Zeros(32))) == Bits(UpdateAll(s, bytes), 32)
    decreases |bytes|
  {
    hide Bits, Steps, Xor, Load, Remainder, Word;
    if bytes == [] {
      assert [] + Zeros(32) == Zeros(32);
      ZerosLeft(s);
    } else {
      var b, rest := bytes[0], MessageBits(bytes[1..]) + Zeros(32);
      MessageFirst(bytes);
      ByteLoads(s, b, rest);
      ReduceZeros(Xor(s, Word(b)), 8, rest);
      UpdateFirst(s, bytes);
      BytesDivided(Steps(Xor(s, Word(b)), 8), bytes[1..]);
    }
  }

  lemma ZerosLeft(s: bv32)
    ensures Remainder(Load(s, Zeros(32))) == Bits(s, 32)
  {
    hide Bits;
  }

  lemma MessageFirst(bytes: seq<bv8>)
    requires bytes != []
    ensures MessageBits(bytes) + Zeros(32) == Bits(Word(bytes[0]), 8) + (MessageBits(bytes[1..]) + Zeros(32))
  {
    hide Bits;
  }

  lemma {:induction false} OnesSplit(x: bv32)
    requires Bits(x, 8) == Ones(8) && Bits(Down(x, 8), 24) == Ones(24)
    ensures Bits(x, 32) == Ones(32)
  {
    BitsSplit(x, 8, 24);
    hide Bits, Down;
  }

  lemma PresetBits()
    ensures Bits(0xffff_ffff, 32) == Ones(32)
  {
    Eight(0xffff_ffff, 0x7fff_ffff, 0x3fff_ffff, 0x1fff_ffff, 0xfff_ffff, 0x7ff_ffff, 0x3ff_ffff, 0x1ff_ffff, 0xff_ffff);
    Eight(0xff_ffff, 0x7f_ffff, 0x3f_ffff, 0x1f_ffff, 0xf_ffff, 0x7_ffff, 0x3_ffff, 0x1_ffff, 0xffff);
    Eight(0xffff, 0x7fff, 0x3fff, 0x1fff, 0xfff, 0x7ff, 0x3ff, 0x1ff, 0xff);
    Eight(0xff, 0x7f, 0x3f, 0x1f, 0xf, 0x7, 0x3, 0x1, 0x0);
    var eight := [true, true, true, true, true, true, true, true];
    assert Ones(8) == eight && Ones(16) == eight + eight && Ones(24) == eight + (eight + eight);
    assert Low(0xffff_ffff) && Low(0x7fff_ffff) && Low(0x3fff_ffff) && Low(0x1fff_ffff);
    hide Bits, Down, Half;
    BitsSplit(0xffff, 8, 8);
    BitsSplit(0xff_ffff, 8, 16);
    OnesSplit(0xffff_ffff);
  }

  lemma Complement(x: bv32)
    ensures x ^ 0xffff_ffff == Xor(0xffff_ffff, x)
  {
  }

  /** The CRC of a text is the complement of what is left when its bits, lowest of each byte first and
      followed by 32 zeros, with the first 32 inverted, are divided by the generator; the highest term of
      the remainder is the lowest bit of the CRC. */
  lemma CrcIsRemainder(bytes: seq<bv8>)
    ensures var r := Remainder(Mix(Ones(32), MessageBits(bytes) + Zeros(32)));
      Bits(CRC(bytes), 32) == seq(32, i requires 0 <= i < 32 => !r[i])
  {
    var s, all := UpdateAll(0xffff_ffff, bytes), MessageBits(bytes) + Zeros(32);
    Complement(s);
    assert CRC(bytes) == Xor(0xffff_ffff, s);
    hide *;
    PresetBits();
    BytesDivided(0xffff_ffff, bytes);
    BitsXor(0xffff_ffff, s, 32);
    PresetLoad(all);
    Inverted(Bits(s, 32));
  }

  lemma PresetLoad(all: seq<bool>)
    requires |all| >= 32 && Bits(0xffff_ffff, 32) == Ones(32)
    ensures Load(0xffff_ffff, all) == Mix(Ones(32), all)
  {
    hide Bits;
  }

  lemma Inverted(r: seq<bool>)
    requires |r| == 32
    ensures Mix(Ones(32), r) == seq(32, i requires 0 <= i < 32 => !r[i])
  {
  }

  // ---- A known value ----------------------------------------------------------------------------------------

  lemma EightSteps(x0: bv32, x1: bv32, x2: bv32, x3: bv32, x4: bv32, x5: bv32, x6: bv32, x7: bv32, x8: bv32)
    requires Step(x0) == x1 && Step(x1) == x2 && Step(x2) == x3 && Step(x3) == x4
    requires Step(x4) == x5 && Step(x5) == x6 && Step(x6) == x7 && Step(x7) == x8
    ensures Steps(x0, 8) == x8
  {
    hide Step;
    assert Steps(x0, 1) == x1;
    assert Steps(x0, 2) == x2;
    assert Steps(x0, 3) == x3;
    assert Steps(x0, 4) == x4;
    assert Steps(x0, 5) == x5;
    assert Steps(x0, 6) == x6;
    assert Steps(x0, 7) == x7;
  }

  lemma Known0()
    ensures Update(0xffffffff, 0x49) == 0x22fde946
  {
    EightSteps(0xffffffb6, 0x7fffffdb, 0xd2477ccd, 0x849b3d46, 0x424d9ea3, 0xcc9e4c71, 0x8bf7a518, 0x45fbd28c, 0x22fde946);
  }

  lemma Known1()
    ensures Update(0x22fde946, 0x45) == 0x992bac53
  {
    EightSteps(0x22fde903, 0xfcc677a1, 0x93dbb8f0, 0x49eddc78, 0x24f6ee3c, 0x127b771e, 0x93dbb8f, 0xe9265ee7, 0x992bac53);
  }

  lemma Known2()
    ensures Update(0x992bac53, 0x4e) == 0x639f4775
  {
    EightSteps(0x992bac1d, 0xa12d552e, 0x5096aa97, 0xc5f3d66b, 0x8f416815, 0xaa18372a, 0x550c1b95, 0xc73e8eea, 0x639f4775);
  }

  lemma Known3()
    ensures Update(0x639f4775, 0x44) == 0x51bd9f7d
  {
    EightSteps(0x639f4731, 0xdc7720b8, 0x6e3b905c, 0x371dc82e, 0x1b8ee417, 0xe07ff12b, 0x9d877bb5, 0xa37b3efa, 0x51bd9f7d);
  }

  /** The checksum every PNG ends with: that of the type IEND. */
  lemma EndChunk()
    ensures CRC([0x49, 0x45, 0x4e, 0x44]) == 0xae42_6082
  {
    Known0();
    Known1();
    Known2();
    Known3();
    hide Update;
    FourUpdates(0xffff_ffff, 0x49, 0x45, 0x4e, 0x44);
  }
}
