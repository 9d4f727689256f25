/** The CRC-32 of PNG chunks, bit by bit: its update is a bijection of the state, and so no change
    confined to four neighbouring bytes goes unnoticed. */
module Crc32 {

  const POLYNOMIAL: bv32 := 0xedb88320

  /** One bit: shift right, and fold the bit shifted out back in. */
  function Step(crc: bv32): bv32 { (crc >> 1) ^ (POLYNOMIAL & (0 - (crc & 1))) }

  function Steps(crc: bv32, n: nat): bv32 { if n == 0 then crc else Step(Steps(crc, n - 1)) }

  function Xor(x: bv32, y: bv32): bv32 { x ^ y }

  function Update(crc: bv32, b: bv8): bv32 { Steps(Xor(crc, b as bv32), 8) }

  function UpdateAll(crc: bv32, bytes: seq<bv8>): bv32 {
    if bytes == [] then crc else Update(UpdateAll(crc, bytes[..|bytes| - 1]), bytes[|bytes| - 1])
  }

  function CRC(bytes: seq<bv8>): bv32 { UpdateAll(0xffff_ffff, bytes) ^ 0xffff_ffff }

  /** The inner loop over the bits of one byte. */
  method UpdateByte(crc: bv32, b: bv8) returns (r: bv32)
    ensures r == Update(crc, b)
  {
    ghost var start := crc ^ (b as bv32);
    r := crc ^ (b as bv32);
    for bit := 0 to 8
      invariant r == Steps(start, bit)
    {
      r := (r >> 1) ^ (POLYNOMIAL & (0 - (r & 1)));
    }
  }

  method ComputeCRC(bytes: seq<bv8>) returns (r: bv32)
    ensures r == CRC(bytes)
  {
    hide Update;
    var crc: bv32 := 0xffff_ffff;
    for i := 0 to |bytes|
      invariant crc == UpdateAll(0xffff_ffff, bytes[..i])
    {
      assert bytes[..i + 1][..i] == bytes[..i];
      crc := UpdateByte(crc, bytes[i]);
    }
    assert bytes[..|bytes|] == bytes;
    return crc ^ 0xffff_ffff;
  }

  // ---- The update is a bijection ----------------------------------------------------------------------------------------

  /** The state before a step can be read off the state after it: the polynomial has its top bit set. */
  function Unstep(crc: bv32): bv32 {
    if crc & 0x8000_0000 != 0 then ((crc ^ POLYNOMIAL) << 1) | 1 else crc << 1
  }

  lemma StepIs(crc: bv32)
    ensures Step(crc) == if crc & 1 == 1 then (crc >> 1) ^ POLYNOMIAL else crc >> 1
  {
    if crc & 1 == 1 {
      assert POLYNOMIAL & (0 - 1) == POLYNOMIAL;
    } else {
      assert crc & 1 == 0 && POLYNOMIAL & (0 - 0) == 0;
    }
  }

  lemma StepBack(crc: bv32)
    ensures Unstep(Step(crc)) == crc
  {
    StepIs(crc);
    hide Step;
  }

  lemma BackStep(crc: bv32)
    ensures Step(Unstep(crc)) == crc
  {
    var u := Unstep(crc);
    StepIs(u);
    hide Step;
    if crc & 0x8000_0000 != 0 {
      TopBit(crc);
    } else {
      NoTopBit(crc);
    }
  }

  lemma TopBit(crc: bv32)
    requires crc & 0x8000_0000 != 0
    ensures var u := ((crc ^ POLYNOMIAL) << 1) | 1;
      u & 1 == 1 && (u >> 1) ^ POLYNOMIAL == crc
  {
  }

  lemma NoTopBit(crc: bv32)
    requires crc & 0x8000_0000 == 0
    ensures (crc << 1) & 1 != 1 && (crc << 1) >> 1 == crc
  {
  }

  function Unsteps(crc: bv32, n: nat): bv32
    decreases n
  {
    if n == 0 then crc else Unsteps(Unstep(crc), n - 1)
  }

  lemma {:induction false} StepsInverse(crc: bv32, n: nat)
    ensures Unsteps(Steps(crc, n), n) == crc
  {
    if n > 0 {
      StepBack(Steps(crc, n - 1));
      StepsInverse(crc, n - 1);
    }
  }

  lemma {:induction false} UnstepsInverse(crc: bv32, n: nat)
    ensures Steps(Unsteps(crc, n), n) == crc
    decreases n
  {
    if n > 0 {
      UnstepsInverse(Unstep(crc), n - 1);
      BackStep(crc);
    }
  }

  lemma XorCancel(x: bv32, y: bv32, w: bv32)
    ensures Xor(x, w) == Xor(y, w) ==> x == y
    ensures Xor(Xor(x, w), w) == x
  {
  }

  /** For each byte the update maps different states to different states... */
  lemma UpdateInjective(crc: bv32, other: bv32, b: bv8)
    requires Update(crc, b) == Update(other, b)
    ensures crc == other
  {
    hide Steps, Unsteps, Xor;
    var w := b as bv32;
    StepsInverse(Xor(crc, w), 8);
    StepsInverse(Xor(other, w), 8);
    XorCancel(crc, other, w);
  }

  /** ...and reaches every state. */
  lemma UpdateSurjective(crc: bv32, b: bv8) returns (before: bv32)
    ensures Update(before, b) == crc
  {
    hide Steps, Unsteps, Xor;
    var w := b as bv32;
    var x := Unsteps(crc, 8);
    UnstepsInverse(crc, 8);
    XorCancel(x, x, w);
    before := Xor(x, w);
  }

  lemma {:induction false} UpdateAllInjective(crc: bv32, other: bv32, bytes: seq<bv8>)
    requires UpdateAll(crc, bytes) == UpdateAll(other, bytes)
    ensures crc == other
  {
    if bytes != [] {
      var n := |bytes| - 1;
      UpdateInjective(UpdateAll(crc, bytes[..n]), UpdateAll(other, bytes[..n]), bytes[n]);
      UpdateAllInjective(crc, other, bytes[..n]);
    }
  }

  lemma {:induction false} UpdateConcat(crc: bv32, a: seq<bv8>, b: seq<bv8>)
    ensures UpdateAll(crc, a + b) == UpdateAll(UpdateAll(crc, a), b)
  {
    if b == [] {
      assert a + b == a;
    } else {
      var n := |b| - 1;
      assert (a + b)[..|a + b| - 1] == a + b[..n];
      UpdateConcat(crc, a, b[..n]);
    }
  }

  // ---- Four bytes at once ------------------------------------------------------------------------------------------------

  function Half(y: bv32): bv32 { y >> 1 }

  function Down(y: bv32, n: nat): bv32 { if n == 0 then y else Half(Down(y, n - 1)) }

  predicate Even(y: bv32) { y & 1 == 0 }

  lemma StepHigh(x: bv32, y: bv32)
    requires Even(y)
    ensures Step(Xor(x, y)) == Xor(Step(x), Half(y))
  {
    StepIs(x);
    StepIs(x ^ y);
    hide Step;
    XorHalf(x, y);
  }

  lemma XorHalf(x: bv32, y: bv32)
    requires y & 1 == 0
    ensures (x ^ y) & 1 == x & 1 && (x ^ y) >> 1 == (x >> 1) ^ (y >> 1)
    ensures ((x >> 1) ^ (y >> 1)) ^ POLYNOMIAL == ((x >> 1) ^ POLYNOMIAL) ^ (y >> 1)
  {
  }

  /** Bits above the lowest n only move down during n steps. */
  lemma {:induction false} StepsHigh(x: bv32, y: bv32, n: nat)
    requires forall i :: 0 <= i < n ==> Even(Down(y, i))
    ensures Steps(Xor(x, y), n) == Xor(Steps(x, n), Down(y, n))
  {
    hide Step, Xor, Even, Half;
    if n > 0 {
      StepsHigh(x, y, n - 1);
      StepHigh(Steps(x, n - 1), Down(y, n - 1));
    }
  }

  /** A byte as the third, second or first byte of a word. */
  function Raised(b: bv8, k: nat): bv32
    requires k <= 3
  {
    if k == 0 then b as bv32 else if k == 1 then (b as bv32) << 8 else if k == 2 then (b as bv32) << 16 else (b as bv32) << 24
  }

  lemma Halves(y: bv32)
    ensures Half(y) == y >> 1 && Half(y >> 1) == y >> 2 && Half(y >> 2) == y >> 3 && Half(y >> 3) == y >> 4
    ensures Half(y >> 4) == y >> 5 && Half(y >> 5) == y >> 6 && Half(y >> 6) == y >> 7 && Half(y >> 7) == y >> 8
  {
  }

  lemma Evens(y: bv32)
    requires y & 0xff == 0
    ensures Even(y) && Even(y >> 1) && Even(y >> 2) && Even(y >> 3)
    ensures Even(y >> 4) && Even(y >> 5) && Even(y >> 6) && Even(y >> 7)
  {
  }

  lemma DownSteps(y: bv32)
    ensures Down(y, 0) == y && Down(y, 1) == Half(y) && Down(y, 2) == Half(Down(y, 1)) && Down(y, 3) == Half(Down(y, 2))
    ensures Down(y, 4) == Half(Down(y, 3)) && Down(y, 5) == Half(Down(y, 4)) && Down(y, 6) == Half(Down(y, 5))
    ensures Down(y, 7) == Half(Down(y, 6)) && Down(y, 8) == Half(Down(y, 7))
  {
    hide Half;
  }

  lemma DownEight(y: bv32)
    requires y & 0xff == 0
    ensures Down(y, 8) == y >> 8 && forall i :: 0 <= i < 8 ==> Even(Down(y, i))
  {
    Halves(y);
    Evens(y);
    DownSteps(y);
    hide Half, Even, Down;
    forall i | 0 <= i < 8 ensures Even(Down(y, i)) {
      assert i == 0 || i == 1 || i == 2 || i == 3 || i == 4 || i == 5 || i == 6 || i == 7;
    }
  }

  /** A byte xored in after a round can be xored in, one place higher, before it. */
  lemma Lift(x: bv32, b: bv8, k: nat)
    requires 1 <= k <= 3
    ensures Xor(Steps(x, 8), Raised(b, k - 1)) == Steps(Xor(x, Raised(b, k)), 8)
  {
    RaisedLow(b, k);
    DownEight(Raised(b, k));
    StepsHigh(x, Raised(b, k), 8);
  }

  lemma RaisedLow(b: bv8, k: nat)
    requires 1 <= k <= 3
    ensures Raised(b, k) & 0xff == 0 && Raised(b, k) >> 8 == Raised(b, k - 1)
  {
  }

  /** Four bytes act as one word xored into the state before four rounds. */
  function Loaded(crc: bv32, a: bv8, b: bv8, c: bv8, d: bv8): bv32 {
    Xor(Xor(Xor(Xor(crc, Raised(a, 0)), Raised(b, 1)), Raised(c, 2)), Raised(d, 3))
  }

  lemma FourBytes(crc: bv32, a: bv8, b: bv8, c: bv8, d: bv8)
    ensures UpdateAll(crc, [a, b, c, d]) == Steps(Steps(Steps(Steps(Loaded(crc, a, b, c, d), 8), 8), 8), 8)
  {
    FourUpdates(crc, a, b, c, d);
    assert Raised(a, 0) == a as bv32 && Raised(b, 0) == b as bv32 && Raised(c, 0) == c as bv32 && Raised(d, 0) == d as bv32;
    hide Steps, Xor, Raised;
    var x1 := Xor(crc, Raised(a, 0));
    var x2 := Xor(x1, Raised(b, 1));
    var x3 := Xor(x2, Raised(c, 2));
    Lift(x1, b, 1);
    Lift(Steps(x2, 8), c, 1);
    Lift(x2, c, 2);
    Lift(Steps(Steps(x3, 8), 8), d, 1);
    Lift(Steps(x3, 8), d, 2);
    Lift(x3, d, 3);
  }

  lemma FourUpdates(crc: bv32, a: bv8, b: bv8, c: bv8, d: bv8)
    ensures UpdateAll(crc, [a, b, c, d]) == Update(Update(Update(Update(crc, a), b), c), d)
  {
    hide Update;
    var s := [a, b, c, d];
    assert s[..3] == [a, b, c] && [a, b, c][..2] == [a, b] && [a, b][..1] == [a] && [a][..0] == [];
    assert UpdateAll(crc, [a]) == Update(crc, a);
    assert UpdateAll(crc, [a, b]) == Update(UpdateAll(crc, [a]), b);
    assert UpdateAll(crc, [a, b, c]) == Update(UpdateAll(crc, [a, b]), c);
  }

  lemma RoundInjective(x: bv32, y: bv32)
    requires Steps(x, 8) == Steps(y, 8)
    ensures x == y
  {
    StepsInverse(x, 8);
    StepsInverse(y, 8);
    hide Steps, Unsteps;
  }

  predicate Within(x: bv32, mask: bv32) { x & mask == x }

  function Masked(word: bv32, crc: bv32, mask: bv32): bv32 { (word ^ crc) & mask }

  lemma MaskedParts(crc: bv32, p: bv32, q: bv32, r: bv32, t: bv32)
    requires Within(p, 0xff) && Within(q, 0xff00) && Within(r, 0xff_0000) && Within(t, 0xff00_0000)
    ensures var w := Xor(Xor(Xor(Xor(crc, p), q), r), t);
      Masked(w, crc, 0xff) == p && Masked(w, crc, 0xff00) == q &&
      Masked(w, crc, 0xff_0000) == r && Masked(w, crc, 0xff00_0000) == t
  {
    XorChain(crc, p, q, r, t);
    hide Xor;
    RawMasked(crc, p, q, r, t);
    hide Masked, Within;
  }

  lemma RawMasked(crc: bv32, p: bv32, q: bv32, r: bv32, t: bv32)
    requires Within(p, 0xff) && Within(q, 0xff00) && Within(r, 0xff_0000) && Within(t, 0xff00_0000)
    ensures var w := (((crc ^ p) ^ q) ^ r) ^ t;
      Masked(w, crc, 0xff) == p && Masked(w, crc, 0xff00) == q &&
      Masked(w, crc, 0xff_0000) == r && Masked(w, crc, 0xff00_0000) == t
  {
    RawParts(crc, p, q, r, t);
  }

  lemma XorChain(crc: bv32, p: bv32, q: bv32, r: bv32, t: bv32)
    ensures Xor(Xor(Xor(Xor(crc, p), q), r), t) == (((crc ^ p) ^ q) ^ r) ^ t
  {
    hide Xor;
    var a := Xor(crc, p);
    var b := Xor(a, q);
    var c := Xor(b, r);
    XorIs(crc, p);
    XorIs(a, q);
    XorIs(b, r);
    XorIs(c, t);
  }

  lemma XorIs(x: bv32, y: bv32)
    ensures Xor(x, y) == x ^ y
  {
  }

  lemma RawParts(crc: bv32, p: bv32, q: bv32, r: bv32, t: bv32)
    requires p & 0xff == p && q & 0xff00 == q && r & 0xff_0000 == r && t & 0xff00_0000 == t
    ensures (((((crc ^ p) ^ q) ^ r) ^ t) ^ crc) & 0xff == p
    ensures (((((crc ^ p) ^ q) ^ r) ^ t) ^ crc) & 0xff00 == q
    ensures (((((crc ^ p) ^ q) ^ r) ^ t) ^ crc) & 0xff_0000 == r
    ensures (((((crc ^ p) ^ q) ^ r) ^ t) ^ crc) & 0xff00_0000 == t
  {
  }

  lemma RaisedWithin(b: bv8)
    ensures Within(Raised(b, 0), 0xff) && Within(Raised(b, 1), 0xff00)
    ensures Within(Raised(b, 2), 0xff_0000) && Within(Raised(b, 3), 0xff00_0000)
  {
  }

  lemma RaisedInjective(b: bv8, c: bv8, k: nat)
    requires k <= 3 && Raised(b, k) == Raised(c, k)
    ensures b == c
  {
    RaisedBack(b, k);
    RaisedBack(c, k);
  }

  lemma RaisedBack(b: bv8, k: nat)
    requires k <= 3
    ensures var r := Raised(b, k);
      (if k == 0 then r else if k == 1 then r >> 8 else if k == 2 then r >> 16 else r >> 24) == b as bv32
  {
  }

  lemma LoadedParts(crc: bv32, a: bv8, b: bv8, c: bv8, d: bv8)
    ensures var w := Loaded(crc, a, b, c, d);
      && Masked(w, crc, 0xff) == Raised(a, 0) && Masked(w, crc, 0xff00) == Raised(b, 1)
      && Masked(w, crc, 0xff_0000) == Raised(c, 2) && Masked(w, crc, 0xff00_0000) == Raised(d, 3)
  {
    hide Raised, Xor, Within, Masked;
    RaisedWithin(a);
    RaisedWithin(b);
    RaisedWithin(c);
    RaisedWithin(d);
    MaskedParts(crc, Raised(a, 0), Raised(b, 1), Raised(c, 2), Raised(d, 3));
  }

  lemma LoadedInjective(crc: bv32, a: bv8, b: bv8, c: bv8, d: bv8, e: bv8, f: bv8, g: bv8, h: bv8)
    requires Loaded(crc, a, b, c, d) == Loaded(crc, e, f, g, h)
    ensures a == e && b == f && c == g && d == h
  {
    hide Raised, Loaded, Masked;
    LoadedParts(crc, a, b, c, d);
    LoadedParts(crc, e, f, g, h);
    RaisedInjective(a, e, 0);
    RaisedInjective(b, f, 1);
    RaisedInjective(c, g, 2);
    RaisedInjective(d, h, 3);
  }

  /** From one state, two different windows of four bytes lead to two different states. */
  lemma WindowInjective(crc: bv32, v: seq<bv8>, w: seq<bv8>)
    requires |v| == 4 && |w| == 4 && UpdateAll(crc, v) == UpdateAll(crc, w)
    ensures v == w
  {
    assert v == [v[0], v[1], v[2], v[3]] && w == [w[0], w[1], w[2], w[3]];
    FourBytes(crc, v[0], v[1], v[2], v[3]);
    FourBytes(crc, w[0], w[1], w[2], w[3]);
    hide Steps, Loaded, UpdateAll;
    var x, y := Loaded(crc, v[0], v[1], v[2], v[3]), Loaded(crc, w[0], w[1], w[2], w[3]);
    RoundInjective(Steps(Steps(Steps(x, 8), 8), 8), Steps(Steps(Steps(y, 8), 8), 8));
    RoundInjective(Steps(Steps(x, 8), 8), Steps(Steps(y, 8), 8));
    RoundInjective(Steps(x, 8), Steps(y, 8));
    RoundInjective(x, y);
    LoadedInjective(crc, v[0], v[1], v[2], v[3], w[0], w[1], w[2], w[3]);
  }

  /** Two texts of equal length that agree outside one window of four bytes have different CRCs
      unless they are equal. */
  lemma WindowDetected(s: seq<bv8>, t: seq<bv8>, at: nat)
    requires |s| == |t| && at + 4 <= |s|
    requires s[..at] == t[..at] && s[at + 4..] == t[at + 4..]
    ensures CRC(s) == CRC(t) ==> s == t
  {
    if CRC(s) == CRC(t) {
      var head, tail := s[..at], s[at + 4..];
      var v, w := s[at..at + 4], t[at..at + 4];
      assert s == head + (v + tail) && t == head + (w + tail);
      CrcEqual(s, t);
      Parts(head, v, tail);
      Parts(head, w, tail);
      var state := UpdateAll(0xffff_ffff, head);
      UpdateAllInjective(UpdateAll(state, v), UpdateAll(state, w), tail);
      WindowInjective(state, v, w);
    }
  }

  lemma CrcEqual(s: seq<bv8>, t: seq<bv8>)
    requires CRC(s) == CRC(t)
    ensures UpdateAll(0xffff_ffff, s) == UpdateAll(0xffff_ffff, t)
  {
    XorEqual(UpdateAll(0xffff_ffff, s), UpdateAll(0xffff_ffff, t));
  }

  lemma XorEqual(x: bv32, y: bv32)
    ensures x ^ 0xffff_ffff == y ^ 0xffff_ffff ==> x == y
  {
  }

  lemma Parts(head: seq<bv8>, v: seq<bv8>, tail: seq<bv8>)
    ensures UpdateAll(0xffff_ffff, head + (v + tail)) == UpdateAll(UpdateAll(UpdateAll(0xffff_ffff, head), v), tail)
  {
    UpdateConcat(0xffff_ffff, head, v + tail);
    UpdateConcat(UpdateAll(0xffff_ffff, head), v, tail);
  }
}
