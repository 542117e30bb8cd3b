/** CRC-32C (Castagnoli), section 12.1 of RFC 3720: the checksum of the data file
    (store.go:171, 207, 235). Reflected form, one bit at a time. */
module Crc32c {
  import opened Model

  const POLYNOMIAL: bv32 := 0x82F6_3B78
  const ONES: bv32 := 0xFFFF_FFFF

  function BitStep(s: bv32): bv32 {
    if s & 1 == 1 then (s >> 1) ^ POLYNOMIAL else s >> 1
  }

  function ByteStep(s: bv32): bv32 {
    BitStep(BitStep(BitStep(BitStep(BitStep(BitStep(BitStep(BitStep(s))))))))
  }

  function Xor(x: bv32, y: bv32): bv32 { x ^ y }

  function Wide(b: bv8): bv32 { b as bv32 }

  function Update(s: bv32, b: bv8): bv32 { ByteStep(Xor(s, Wide(b))) }

  function Run(s: bv32, data: Bytes): bv32 {
    if data == [] then s else Update(Run(s, data[..|data| - 1]), data[|data| - 1])
  }

  function Checksum(data: Bytes): bv32 { Xor(Run(ONES, data), ONES) }

  // ----- the register never forgets -------------------------------------------------

  lemma BitStepInjective(s: bv32, s': bv32)
    requires BitStep(s) == BitStep(s')
    ensures s == s'
  {
  }

  lemma ByteStepInjective(s: bv32, s': bv32)
    requires ByteStep(s) == ByteStep(s')
    ensures s == s'
  {
    hide BitStep;
    var a, b := BitStep(BitStep(BitStep(BitStep(s)))), BitStep(BitStep(BitStep(BitStep(s'))));
    FourStepsInjective(a, b);
    FourStepsInjective(s, s');
  }

  lemma FourStepsInjective(s: bv32, s': bv32)
    requires BitStep(BitStep(BitStep(BitStep(s)))) == BitStep(BitStep(BitStep(BitStep(s'))))
    ensures s == s'
  {
    hide BitStep;
    BitStepInjective(BitStep(BitStep(BitStep(s))), BitStep(BitStep(BitStep(s'))));
    BitStepInjective(BitStep(BitStep(s)), BitStep(BitStep(s')));
    BitStepInjective(BitStep(s), BitStep(s'));
    BitStepInjective(s, s');
  }

  lemma XorCancels(x: bv32, y: bv32, z: bv32)
    requires Xor(x, z) == Xor(y, z) || Xor(z, x) == Xor(z, y)
    ensures x == y
  {
  }

  lemma UpdateInjective(s: bv32, s': bv32, b: bv8)
    requires Update(s, b) == Update(s', b)
    ensures s == s'
  {
    hide ByteStep, Xor, Wide;
    ByteStepInjective(Xor(s, Wide(b)), Xor(s', Wide(b)));
    XorCancels(s, s', Wide(b));
  }

  lemma RunSplit(s: bv32, a: Bytes, b: Bytes)
    ensures Run(s, a + b) == Run(Run(s, a), b)
    decreases |b|
  {
    hide Update;
    if b == [] {
      assert a + b == a;
    } else {
      var front := b[..|b| - 1];
      RunSplit(s, a, front);
      assert (a + b)[..|a + b| - 1] == a + front;
    }
  }

  /** Equal data keep different registers different. */
  lemma {:induction false} RunInjective(s: bv32, s': bv32, data: Bytes)
    requires Run(s, data) == Run(s', data)
    ensures s == s'
    decreases |data|
  {
    hide Update;
    if data != [] {
      var front := data[..|data| - 1];
      UpdateInjective(Run(s, front), Run(s', front), data[|data| - 1]);
      RunInjective(s, s', front);
    }
  }

  // ----- four bytes at a time ---------------------------------------------------------

  function Up(x: bv32): bv32 { x << 1 }

  predicate TopClear(x: bv32) { x & 0x8000_0000 == 0 }

  predicate HighByteClear(x: bv32) { x & 0xFF00_0000 == 0 }

  function Up8(x: bv32): bv32 { x << 8 }

  predicate Even(x: bv32) { x & 1 == 0 }

  function Down(x: bv32): bv32 { x >> 1 }

  lemma XorAssociates(x: bv32, y: bv32, z: bv32)
    ensures Xor(Xor(x, y), z) == Xor(x, Xor(y, z))
  {
  }

  lemma XorCommutes(x: bv32, y: bv32)
    ensures Xor(x, y) == Xor(y, x)
  {
  }

  lemma XorDown(s: bv32, x: bv32)
    ensures Down(Xor(s, x)) == Xor(Down(s), Down(x))
  {
  }

  lemma XorEven(s: bv32, x: bv32)
    requires Even(x)
    ensures Even(Xor(s, x)) == Even(s)
  {
  }

  lemma BitStepParts(s: bv32)
    ensures BitStep(s) == if Even(s) then Down(s) else Xor(Down(s), POLYNOMIAL)
  {
  }

  lemma EvenPartShifts(s: bv32, x: bv32)
    requires Even(x)
    ensures BitStep(Xor(s, x)) == Xor(BitStep(s), Down(x))
  {
    hide BitStep, Xor, Down, Even;
    BitStepParts(s);
    BitStepParts(Xor(s, x));
    XorEven(s, x);
    XorDown(s, x);
    XorAssociates(Down(s), Down(x), POLYNOMIAL);
    XorCommutes(Down(x), POLYNOMIAL);
    XorAssociates(Down(s), POLYNOMIAL, Down(x));
  }

  lemma UpAndBack(x: bv32)
    requires TopClear(x)
    ensures Even(Up(x)) && Down(Up(x)) == x
  {
  }

  /** One step only shifts what was shifted up before. */
  lemma BitStepShifts(s: bv32, x: bv32)
    requires TopClear(x)
    ensures BitStep(Xor(s, Up(x))) == Xor(BitStep(s), x)
  {
    hide BitStep, Xor, Up, Down, Even, TopClear;
    UpAndBack(x);
    EvenPartShifts(s, Up(x));
  }

  lemma FourUps(x: bv32)
    requires HighByteClear(x)
    ensures TopClear(x) && TopClear(Up(x)) && TopClear(Up(Up(x))) && TopClear(Up(Up(Up(x))))
    ensures var y := Up(Up(Up(Up(x))));
      TopClear(y) && TopClear(Up(y)) && TopClear(Up(Up(y))) && TopClear(Up(Up(Up(y))))
      && Up8(x) == Up(Up(Up(Up(y))))
  {
  }

  lemma FourStepsShift(s: bv32, x: bv32)
    requires TopClear(x) && TopClear(Up(x)) && TopClear(Up(Up(x))) && TopClear(Up(Up(Up(x))))
    ensures BitStep(BitStep(BitStep(BitStep(Xor(s, Up(Up(Up(Up(x)))))))))
         == Xor(BitStep(BitStep(BitStep(BitStep(s)))), x)
  {
    hide BitStep, Xor, Up, TopClear;
    BitStepShifts(s, Up(Up(Up(x))));
    BitStepShifts(BitStep(s), Up(Up(x)));
    BitStepShifts(BitStep(BitStep(s)), Up(x));
    BitStepShifts(BitStep(BitStep(BitStep(s))), x);
  }

  lemma ByteStepShifts(s: bv32, x: bv32)
    requires HighByteClear(x)
    ensures ByteStep(Xor(s, Up8(x))) == Xor(ByteStep(s), x)
  {
    hide BitStep, Xor, Up, Up8, TopClear, HighByteClear;
    FourUps(x);
    FourStepsShift(s, Up(Up(Up(Up(x)))));
    FourStepsShift(BitStep(BitStep(BitStep(BitStep(s)))), x);
  }

  /** The first byte of the data in the low bits. */
  function Word(a: bv8, b: bv8, c: bv8, d: bv8): bv32 {
    Xor(Wide(a), Up8(Xor(Wide(b), Up8(Xor(Wide(c), Up8(Wide(d)))))))
  }

  lemma WordInjective(a: bv8, b: bv8, c: bv8, d: bv8, a': bv8, b': bv8, c': bv8, d': bv8)
    requires Word(a, b, c, d) == Word(a', b', c', d')
    ensures a == a' && b == b' && c == c' && d == d'
  {
  }

  lemma WordRoom(b: bv8, c: bv8, d: bv8)
    ensures HighByteClear(Wide(d))
    ensures HighByteClear(Xor(Wide(c), Up8(Wide(d))))
    ensures HighByteClear(Xor(Wide(b), Up8(Xor(Wide(c), Up8(Wide(d))))))
  {
  }

  lemma ByteAndRest(s: bv32, b: bv8, rest: bv32)
    requires HighByteClear(rest)
    ensures ByteStep(Xor(s, Xor(Wide(b), Up8(rest)))) == Xor(Update(s, b), rest)
  {
    hide ByteStep, Xor, Wide, Up8, HighByteClear;
    XorAssociates(s, Wide(b), Up8(rest));
    ByteStepShifts(Xor(s, Wide(b)), rest);
  }

  function FourByteSteps(s: bv32): bv32 { ByteStep(ByteStep(ByteStep(ByteStep(s)))) }

  /** Four bytes can be added to the register before it is stepped through them. */
  lemma FourBytes(s: bv32, a: bv8, b: bv8, c: bv8, d: bv8)
    ensures Update(Update(Update(Update(s, a), b), c), d) == FourByteSteps(Xor(s, Word(a, b, c, d)))
  {
    WordRoom(b, c, d);
    UpdateIs(Update(Update(Update(s, a), b), c), d);
    hide ByteStep, Xor, Wide, Up8, HighByteClear, Update;
    ByteAndRest(s, a, Xor(Wide(b), Up8(Xor(Wide(c), Up8(Wide(d))))));
    ByteAndRest(Update(s, a), b, Xor(Wide(c), Up8(Wide(d))));
    ByteAndRest(Update(Update(s, a), b), c, Wide(d));
  }

  lemma UpdateIs(s: bv32, b: bv8)
    ensures Update(s, b) == ByteStep(Xor(s, Wide(b)))
  {
  }

  lemma FourByteStepsInjective(s: bv32, s': bv32)
    requires FourByteSteps(s) == FourByteSteps(s')
    ensures s == s'
  {
    hide ByteStep;
    ByteStepInjective(ByteStep(ByteStep(ByteStep(s))), ByteStep(ByteStep(ByteStep(s'))));
    ByteStepInjective(ByteStep(ByteStep(s)), ByteStep(ByteStep(s')));
    ByteStepInjective(ByteStep(s), ByteStep(s'));
    ByteStepInjective(s, s');
  }

  lemma WordsTell(s: bv32, a: bv8, b: bv8, c: bv8, d: bv8, a': bv8, b': bv8, c': bv8, d': bv8)
    requires Update(Update(Update(Update(s, a), b), c), d) == Update(Update(Update(Update(s, a'), b'), c'), d')
    ensures a == a' && b == b' && c == c' && d == d'
  {
    hide Xor, Word, Update, FourByteSteps;
    FourBytes(s, a, b, c, d);
    FourBytes(s, a', b', c', d');
    FourByteStepsInjective(Xor(s, Word(a, b, c, d)), Xor(s, Word(a', b', c', d')));
    XorCancels(Word(a, b, c, d), Word(a', b', c', d'), s);
    WordInjective(a, b, c, d, a', b', c', d');
  }

  /** From one register, two different runs of four bytes never meet. */
  lemma FourBytesTell(s: bv32, w: Bytes, w': Bytes)
    requires |w| == |w'| == 4 && Run(s, w) == Run(s, w')
    ensures w == w'
  {
    RunFour(s, w);
    RunFour(s, w');
    hide Update, Run;
    WordsTell(s, w[0], w[1], w[2], w[3], w'[0], w'[1], w'[2], w'[3]);
  }

  lemma RunFour(s: bv32, w: Bytes)
    requires |w| == 4
    ensures Run(s, w) == Update(Update(Update(Update(s, w[0]), w[1]), w[2]), w[3])
  {
    hide Update;
    assert w[..3][..2] == w[..2] && w[..2][..1] == w[..1] && w[..1][..0] == [];
    assert Run(s, w[..1]) == Update(s, w[0]);
    assert Run(s, w[..2]) == Update(Run(s, w[..1]), w[1]);
    assert Run(s, w[..3]) == Update(Run(s, w[..2]), w[2]);
  }

  lemma CheckUpdates()
    ensures Update(0xFFFF_FFFF, 0x31) == 0x6F0A_661C
    ensures Update(0x6F0A_661C, 0x32) == 0x8CAA_3B9F
    ensures Update(0x8CAA_3B9F, 0x33) == 0xEF84_D04D
    ensures Update(0xEF84_D04D, 0x34) == 0x09C5_0B11
    ensures Update(0x09C5_0B11, 0x35) == 0xE72E_DCCA
    ensures Update(0xE72E_DCCA, 0x36) == 0xBECA_8E79
    ensures Update(0xBECA_8E79, 0x37) == 0xEDBD_6815
    ensures Update(0xEDBD_6815, 0x38) == 0x9F78_7F65
    ensures Update(0x9F78_7F65, 0x39) == 0x1CF9_6D7C
  {
  }

  /** The published check value of CRC-32C: the checksum of "123456789". */
  lemma CheckValue()
    ensures Checksum([0x31, 0x32, 0x33, 0x34, 0x35, 0x36, 0x37, 0x38, 0x39]) == 0xE306_9283
  {
    var data: Bytes := [0x31, 0x32, 0x33, 0x34, 0x35, 0x36, 0x37, 0x38, 0x39];
    RunOf(data);
    CheckUpdates();
    hide Run, Update;
  }

  lemma RunOf(d: Bytes)
    requires |d| == 9
    ensures var four := Update(Update(Update(Update(ONES, d[0]), d[1]), d[2]), d[3]);
      Run(ONES, d) == Update(Update(Update(Update(Update(four, d[4]), d[5]), d[6]), d[7]), d[8])
  {
    hide Update;
    var head, w, w' := d[..1], d[1..5], d[5..9];
    assert d == head + w + w';
    RunSplit(ONES, head + w, w');
    RunSplit(ONES, head, w);
    assert head[..0] == [] && Run(ONES, head) == Update(ONES, d[0]);
    RunFour(Run(ONES, head), w);
    RunFour(Run(ONES, head + w), w');
  }

  // ----- what the checksum detects ------------------------------------------------------

  /** The data differ, but only within four adjacent bytes from position i. */
  predicate Burst(a: Bytes, b: Bytes, i: nat) {
    && |a| == |b| && a != b && i <= |a|
    && a[..i] == b[..i]
    && (i + 4 <= |a| ==> a[i + 4..] == b[i + 4..])
  }

  /** The bytes of the burst, filled up with zero bytes where the data end early. */
  function Window(a: Bytes, i: nat): (w: Bytes)
    requires i <= |a|
    ensures |w| == 4
  {
    if i + 4 <= |a| then a[i..i + 4] else a[i..] + seq(4 - (|a| - i), _ => 0)
  }

  lemma RunWindow(s: bv32, a: Bytes, i: nat)
    requires i <= |a|
    ensures i + 4 <= |a| ==> Run(s, a) == Run(Run(Run(s, a[..i]), Window(a, i)), a[i + 4..])
    ensures i + 4 > |a| ==> Run(Run(s, a[..i]), Window(a, i)) == Run(Run(s, a), seq(4 - (|a| - i), _ => 0))
  {
    if i + 4 <= |a| {
      assert a == a[..i] + a[i..i + 4] + a[i + 4..];
      RunSplit(s, a[..i] + a[i..i + 4], a[i + 4..]);
      RunSplit(s, a[..i], a[i..i + 4]);
    } else {
      var zeros: Bytes := seq(4 - (|a| - i), _ => 0);
      assert a == a[..i] + a[i..];
      RunSplit(s, a[..i], a[i..]);
      RunSplit(Run(s, a[..i]), a[i..], zeros);
    }
  }

  /** No damage confined to four adjacent bytes keeps the checksum, whatever the
      length of the data. A single changed byte is the smallest case. */
  lemma BurstDetected(a: Bytes, b: Bytes, i: nat)
    requires Burst(a, b, i)
    ensures Checksum(a) != Checksum(b)
  {
    hide Run, Update, Xor;
    if Checksum(a) == Checksum(b) {
      XorCancels(Run(ONES, a), Run(ONES, b), ONES);
      var s := Run(ONES, a[..i]);
      RunWindow(ONES, a, i);
      RunWindow(ONES, b, i);
      if i + 4 <= |a| { RunInjective(Run(s, Window(a, i)), Run(s, Window(b, i)), a[i + 4..]); }
      FourBytesTell(s, Window(a, i), Window(b, i));
      SameWindow(a, b, i);
      assert false;
    }
  }

  lemma SameWindow(a: Bytes, b: Bytes, i: nat)
    requires |a| == |b| && i <= |a| && a[..i] == b[..i] && Window(a, i) == Window(b, i)
    requires i + 4 <= |a| ==> a[i + 4..] == b[i + 4..]
    ensures a == b
  {
    if i + 4 <= |a| {
      assert a == a[..i] + a[i..i + 4] + a[i + 4..];
      assert b == b[..i] + b[i..i + 4] + b[i + 4..];
    } else {
      assert Window(a, i)[..|a| - i] == a[i..] && Window(b, i)[..|b| - i] == b[i..];
      assert a == a[..i] + a[i..] && b == b[..i] + b[i..];
    }
  }
}
