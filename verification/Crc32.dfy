/**
 * The CRC of terrain tile payloads (src/lib/terrain_tile.cpp; section 8 of RFC 1952): the reflected
 * polynomial, one bit at a time, and its power to detect a damaged stretch of four bytes.
 */
module Crc32 {
  import opened Bytes

  const POLYNOMIAL: bv32 := 0xedb88320
  const INITIAL: bv32 := 0xffffffff

  predicate Bit(b: nat, k: nat) {
    if k == 0 then b % 2 == 1 else Bit(b / 2, k - 1)
  }

  function Mask(on: bool, mask: bv32): bv32 {
    if on then mask else 0
  }

  function WordOf(b0: bool, b1: bool, b2: bool, b3: bool, b4: bool, b5: bool, b6: bool, b7: bool): bv32 {
    Mask(b0, 1) | Mask(b1, 2) | Mask(b2, 4) | Mask(b3, 8) | Mask(b4, 16) | Mask(b5, 32) | Mask(b6, 64) | Mask(b7, 128)
  }

  /** A byte as the low bits of a word. */
  function Word(b: byte): bv32 {
    WordOf(Bit(b, 0), Bit(b, 1), Bit(b, 2), Bit(b, 3), Bit(b, 4), Bit(b, 5), Bit(b, 6), Bit(b, 7))
  }

  /** One step of the bit loop. */
  function Step(crc: bv32): bv32 {
    var mask: bv32 := 0 - (crc & 1);
    (crc >> 1) ^ (POLYNOMIAL & mask)
  }

  function Iterate<X>(f: X -> X, x: X, n: nat): X {
    if n == 0 then x else f(Iterate(f, x, n - 1))
  }

  function Xor(a: bv32, b: bv32): bv32 { a ^ b }

  function MoveUp(a: bv32): bv32 { a << 8 }

  /** Eight steps: the update by one byte that has been added to the register. */
  function Eight(crc: bv32): bv32 {
    Iterate(Step, crc, 8)
  }

  function Update(crc: bv32, b: byte): bv32 {
    Eight(Xor(crc, Word(b)))
  }

  function Fold<X>(update: (X, byte) -> X, x: X, data: seq<byte>): X
    decreases |data|
  {
    if data == [] then x else update(Fold(update, x, data[..|data| - 1]), data[|data| - 1])
  }

  /** The register after a byte string. */
  function Register(crc: bv32, data: seq<byte>): bv32 {
    Fold(Update, crc, data)
  }

  function Crc(data: seq<byte>): bv32 {
    !Register(INITIAL, data)
  }

  method ComputeStep(crc: bv32) returns (next: bv32)
    ensures next == Step(crc)
  {
    var mask: bv32 := 0 - (crc & 1);
    next := (crc >> 1) ^ (POLYNOMIAL & mask);
  }

  /** The bit loop for one byte. */
  method ComputeUpdate(register: bv32, b: byte) returns (crc: bv32)
    ensures crc == Update(register, b)
  {
    crc := Xor(register, Word(b));
    ghost var before := crc;
    var bit := 0;
    while bit < 8
      invariant 0 <= bit <= 8 && crc == Iterate(Step, before, bit)
    {
      crc := ComputeStep(crc);
      bit := bit + 1;
    }
  }

  method ComputeRegister(data: seq<byte>) returns (crc: bv32)
    ensures crc == Register(INITIAL, data)
  {
    crc := INITIAL;
    var i := 0;
    while i < |data|
      invariant 0 <= i <= |data| && crc == Register(INITIAL, data[..i])
    {
      assert data[..i + 1][..i] == data[..i];
      crc := ComputeUpdate(crc, data[i]);
      i := i + 1;
    }
    assert data[..i] == data;
  }

  method ComputeCrc32(data: seq<byte>) returns (result: bv32)
    ensures result == Crc(data)
  {
    var crc := ComputeRegister(data);
    result := !crc;
  }

  // ---------------------------------------------------------------- the step is a linear bijection

  lemma StepCases(a: bv32)
    ensures a & 1 == 0 ==> Step(a) == a >> 1
    ensures a & 1 != 0 ==> Step(a) == (a >> 1) ^ POLYNOMIAL
  {
    if a & 1 == 0 {
      assert 0 - (a & 1) == 0;
    } else {
      assert a & 1 == 1;
      assert 0 - (a & 1) == 0xffffffff;
    }
  }

  lemma LowBit(a: bv32, b: bv32)
    ensures (a ^ b) & 1 == (a & 1) ^ (b & 1)
    ensures a & 1 == 0 || a & 1 == 1
    ensures (a ^ b) >> 1 == (a >> 1) ^ (b >> 1)
  {
  }

  lemma Exclusive(a: bv32, b: bv32, p: bv32)
    ensures (a ^ b) ^ p == (a ^ p) ^ b == a ^ (b ^ p)
    ensures (a ^ p) ^ (b ^ p) == a ^ b
  {
  }

  lemma StepIsLinear(a: bv32, b: bv32)
    ensures Step(a ^ b) == Step(a) ^ Step(b)
  {
    StepCases(a);
    StepCases(b);
    StepCases(a ^ b);
    LowBit(a, b);
    LowBit(b, a);
    Exclusive(a >> 1, b >> 1, POLYNOMIAL);
  }

  /** The polynomial's top bit tells an odd register from an even one. */
  lemma StepKernel(x: bv32)
    requires Step(x) == 0
    ensures x == 0
  {
    StepCases(x);
    TopBit(x);
  }

  lemma TopBit(x: bv32)
    ensures x & 1 == 0 && x >> 1 == 0 ==> x == 0
    ensures x & 1 != 0 ==> (x >> 1) ^ POLYNOMIAL != 0
  {
  }

  ghost predicate Linear<X(!new)>(f: X -> X, xor: (X, X) -> X) {
    forall x, y :: f(xor(x, y)) == xor(f(x), f(y))
  }

  ghost predicate KernelIs<X(!new)>(f: X -> X, zero: X) {
    forall x :: f(x) == zero ==> x == zero
  }

  lemma {:induction false} IterateIsLinear<X(!new)>(f: X -> X, xor: (X, X) -> X, a: X, b: X, n: nat)
    requires Linear(f, xor)
    ensures Iterate(f, xor(a, b), n) == xor(Iterate(f, a, n), Iterate(f, b, n))
  {
    if n > 0 {
      IterateIsLinear(f, xor, a, b, n - 1);
    }
  }

  lemma {:induction false} IterateKernel<X(!new)>(f: X -> X, zero: X, x: X, n: nat)
    requires KernelIs(f, zero) && Iterate(f, x, n) == zero
    ensures x == zero
  {
    if n > 0 {
      IterateKernel(f, zero, x, n - 1);
    }
  }

  lemma {:induction false} EightIsLinear(a: bv32, b: bv32)
    ensures Eight(Xor(a, b)) == Xor(Eight(a), Eight(b))
  {
    forall x, y ensures Step(Xor(x, y)) == Xor(Step(x), Step(y)) {
      StepIsLinear(x, y);
    }
    IterateIsLinear(Step, Xor, a, b, 8);
  }

  lemma {:induction false} EightKernel(x: bv32)
    requires Eight(x) == 0
    ensures x == 0
  {
    forall y | Step(y) == 0 ensures y == 0 {
      StepKernel(y);
    }
    IterateKernel(Step, 0, x, 8);
  }

  /** The update by one byte loses nothing: the eight steps are a bijection on the register. */
  lemma {:induction false} EightIsInjective(a: bv32, b: bv32)
    requires Eight(a) == Eight(b)
    ensures a == b
  {
    EightIsLinear(a, b);
    SameIsZero(Eight(a), Eight(b));
    EightKernel(Xor(a, b));
    SameIsZero(a, b);
  }

  lemma SameIsZero(a: bv32, b: bv32)
    ensures a == b <==> Xor(a, b) == 0
  {
  }

  lemma EvenStep(w: bv32)
    requires w & 1 == 0
    ensures Step(w) == w >> 1
  {
    StepCases(w);
  }

  lemma {:induction false} IterateAdds<X>(f: X -> X, x: X, m: nat, n: nat)
    ensures Iterate(f, x, m + n) == Iterate(f, Iterate(f, x, m), n)
    decreases n
  {
    if n > 0 {
      IterateAdds(f, x, m, n - 1);
    }
  }

  /** While the low bits are zero, steps only shift. */
  lemma TwoSteps(w: bv32)
    requires w & 3 == 0
    ensures Iterate(Step, w, 2) == w >> 2
  {
    EvenStep(w);
    assert (w >> 1) & 1 == 0 && (w >> 1) >> 1 == w >> 2;
    EvenStep(w >> 1);
    assert Iterate(Step, w, 1) == w >> 1;
  }

  lemma FourSteps(w: bv32)
    requires w & 15 == 0
    ensures Iterate(Step, w, 4) == w >> 4
  {
    assert w & 3 == 0 && (w >> 2) & 3 == 0 && (w >> 2) >> 2 == w >> 4;
    TwoSteps(w);
    TwoSteps(w >> 2);
    IterateAdds(Step, w, 2, 2);
  }

  lemma EightSteps(w: bv32)
    requires w & 0xff == 0
    ensures Eight(w) == w >> 8
  {
    assert w & 15 == 0 && (w >> 4) & 15 == 0 && (w >> 4) >> 4 == w >> 8;
    FourSteps(w);
    FourSteps(w >> 4);
    IterateAdds(Step, w, 4, 4);
  }

  lemma UpAndDown(word: bv32)
    requires word & 0xff000000 == 0
    ensures MoveUp(word) & 0xff == 0 && MoveUp(word) >> 8 == word
  {
  }

  /** Eight steps bring a word that was moved up a byte back down. */
  lemma EightUndoesShift(word: bv32)
    requires word & 0xff000000 == 0
    ensures Eight(MoveUp(word)) == word
  {
    UpAndDown(word);
    EightSteps(MoveUp(word));
  }

  // ---------------------------------------------------------------- four consecutive bytes

  predicate Low(e: bv32) { e & 0xffffff00 == 0 }

  /** The register a difference of four bytes leaves behind. */
  function AfterFour<X>(up: X -> X, xor: (X, X) -> X, e0: X, e1: X, e2: X, e3: X): X {
    up(xor(up(xor(up(xor(up(e0), e1)), e2)), e3))
  }

  ghost predicate Injective<X(!new)>(f: X -> X) {
    forall x, y :: f(x) == f(y) ==> x == y
  }

  ghost predicate Cancels<X(!new)>(xor: (X, X) -> X) {
    forall a, b, c :: xor(a, b) == c ==> a == xor(c, b)
  }

  /** An injective update that moving up undoes is solved by moving up, byte after byte. */
  lemma {:induction false} FourBytesPeel<X(!new)>(up: X -> X, xor: (X, X) -> X, move: X -> X, zero: X,
                                                  e0: X, e1: X, e2: X, e3: X, v1: X, v2: X, v3: X)
    requires Injective(up) && Cancels(xor)
    requires up(zero) == zero && AfterFour(up, xor, e0, e1, e2, e3) == zero
    requires v3 == xor(zero, e3) && up(move(v3)) == v3
    requires v2 == xor(move(v3), e2) && up(move(v2)) == v2
    requires v1 == xor(move(v2), e1) && up(move(v1)) == v1
    ensures e0 == move(v1)
  {
    var z0 := xor(up(e0), e1);
    var z1 := xor(up(z0), e2);
    var z2 := xor(up(z1), e3);
    assert up(z2) == up(zero);
    assert up(z1) == v3 == up(move(v3));
    assert up(z0) == v2 == up(move(v2));
    assert up(e0) == v1 == up(move(v1));
  }

  lemma LowParts(e1: bv32, e2: bv32, e3: bv32)
    requires Low(e1) && Low(e2) && Low(e3)
    ensures Xor(0, e3) & 0xff000000 == 0
    ensures Xor(MoveUp(Xor(0, e3)), e2) & 0xff000000 == 0
    ensures Xor(MoveUp(Xor(MoveUp(Xor(0, e3)), e2)), e1) & 0xff000000 == 0
  {
  }

  lemma NothingLeft(e0: bv32, e1: bv32, e2: bv32, e3: bv32)
    requires Low(e0) && Low(e1) && Low(e2) && Low(e3)
    requires e0 == MoveUp(Xor(MoveUp(Xor(MoveUp(Xor(0, e3)), e2)), e1))
    ensures e0 == 0 && e1 == 0 && e2 == 0 && e3 == 0
  {
  }

  lemma XorCancels()
    ensures Cancels(Xor)
  {
    forall a, b, c | Xor(a, b) == c ensures a == Xor(c, b) {
    }
  }

  lemma {:induction false} EightInjects()
    ensures Injective(Eight)
  {
    forall x, y | Eight(x) == Eight(y) ensures x == y {
      EightIsInjective(x, y);
    }
  }

  lemma {:induction false} SolveFour(e0: bv32, e1: bv32, e2: bv32, e3: bv32, v1: bv32, v2: bv32, v3: bv32)
    requires AfterFour(Eight, Xor, e0, e1, e2, e3) == 0
    requires v3 == Xor(0, e3) && v3 & 0xff000000 == 0
    requires v2 == Xor(MoveUp(v3), e2) && v2 & 0xff000000 == 0
    requires v1 == Xor(MoveUp(v2), e1) && v1 & 0xff000000 == 0
    ensures e0 == MoveUp(v1)
  {
    EightUndoesShift(v3);
    EightUndoesShift(v2);
    EightUndoesShift(v1);
    EightInjects();
    XorCancels();
    EightOfZero();
    FourBytesPeel(Eight, Xor, MoveUp, 0, e0, e1, e2, e3, v1, v2, v3);
  }

  lemma EightOfZero()
    ensures Eight(0) == 0
  {
    EightUndoesShift(0);
    assert MoveUp(0) == 0;
  }

  /** Four updates are injective in the four bytes. */
  lemma {:induction false} FourBytesShow(e0: bv32, e1: bv32, e2: bv32, e3: bv32)
    requires Low(e0) && Low(e1) && Low(e2) && Low(e3) && AfterFour(Eight, Xor, e0, e1, e2, e3) == 0
    ensures e0 == 0 && e1 == 0 && e2 == 0 && e3 == 0
  {
    LowParts(e1, e2, e3);
    SolveFour(e0, e1, e2, e3, Xor(MoveUp(Xor(MoveUp(Xor(0, e3)), e2)), e1), Xor(MoveUp(Xor(0, e3)), e2), Xor(0, e3));
    NothingLeft(e0, e1, e2, e3);
  }

  // ---------------------------------------------------------------- damage is detected

  /** The register difference that differing bytes leave behind, starting from none. */
  function Difference<X>(up: X -> X, xor: (X, X) -> X, zero: X, e: seq<X>): X
    decreases |e|
  {
    if e == [] then zero else up(xor(Difference(up, xor, zero, e[..|e| - 1]), e[|e| - 1]))
  }

  function ByteDifferences(w: seq<byte>, w': seq<byte>): seq<bv32>
    requires |w| == |w'|
  {
    seq(|w|, i requires 0 <= i < |w| => Xor(Word(w[i]), Word(w'[i])))
  }

  ghost predicate Associative<X(!new)>(xor: (X, X) -> X) {
    forall a, b, c :: xor(xor(a, b), c) == xor(a, xor(b, c))
  }

  ghost predicate Commutative<X(!new)>(xor: (X, X) -> X) {
    forall a, b :: xor(a, b) == xor(b, a)
  }

  lemma Middle<X(!new)>(xor: (X, X) -> X, r: X, b: X, r': X, b': X)
    requires Associative(xor) && Commutative(xor)
    ensures xor(xor(r, b), xor(r', b')) == xor(xor(r, r'), xor(b, b'))
  {
    calc {
      xor(xor(r, b), xor(r', b'));
      xor(r, xor(b, xor(r', b')));
      xor(r, xor(xor(b, r'), b'));
      xor(r, xor(xor(r', b), b'));
      xor(r, xor(r', xor(b, b')));
      xor(xor(r, r'), xor(b, b'));
    }
  }

  lemma XorAlgebra()
    ensures Associative(Xor) && Commutative(Xor)
  {
    forall a, b, c ensures Xor(Xor(a, b), c) == Xor(a, Xor(b, c)) {
    }
    forall a, b ensures Xor(a, b) == Xor(b, a) {
    }
  }

  lemma {:induction false} RegisterDifference(crc: bv32, w: seq<byte>, w': seq<byte>)
    requires |w| == |w'|
    ensures Xor(Register(crc, w), Register(crc, w')) == Difference(Eight, Xor, 0, ByteDifferences(w, w'))
    decreases |w|
  {
    if w == [] {
      SameIsZero(crc, crc);
      assert w' == [];
    } else {
      var n := |w| - 1;
      RegisterDifference(crc, w[..n], w'[..n]);
      assert ByteDifferences(w, w')[..n] == ByteDifferences(w[..n], w'[..n]);
      OneByteDifference(Register(crc, w[..n]), Register(crc, w'[..n]), w[n], w'[n]);
    }
  }

  lemma OneByteDifference(r: bv32, r': bv32, b: byte, b': byte)
    ensures Xor(Update(r, b), Update(r', b')) == Eight(Xor(Xor(r, r'), Xor(Word(b), Word(b'))))
  {
    EightIsLinear(Xor(r, Word(b)), Xor(r', Word(b')));
    XorAlgebra();
    Middle(Xor, r, Word(b), r', Word(b'));
  }

  lemma {:induction false} FoldAppend<X>(update: (X, byte) -> X, x: X, a: seq<byte>, b: seq<byte>)
    ensures Fold(update, x, a + b) == Fold(update, Fold(update, x, a), b)
    decreases |b|
  {
    if b == [] {
      assert a + b == a;
    } else {
      assert (a + b)[..|a + b| - 1] == a + b[..|b| - 1];
      FoldAppend(update, x, a, b[..|b| - 1]);
    }
  }

  ghost predicate KeepsApart<X(!new)>(update: (X, byte) -> X) {
    forall x, y, b: byte :: update(x, b) == update(y, b) ==> x == y
  }

  lemma {:induction false} FoldIsInjective<X(!new)>(update: (X, byte) -> X, x: X, y: X, data: seq<byte>)
    requires KeepsApart(update) && Fold(update, x, data) == Fold(update, y, data)
    ensures x == y
    decreases |data|
  {
    if data != [] {
      FoldIsInjective(update, x, y, data[..|data| - 1]);
    }
  }

  /** Registers that meet after the damage were the same before what follows it. */
  lemma {:induction false} DamageIsLocal<X(!new)>(update: (X, byte) -> X, x: X, before: seq<byte>, w: seq<byte>, w': seq<byte>, after: seq<byte>)
    requires KeepsApart(update) && Fold(update, x, before + w + after) == Fold(update, x, before + w' + after)
    ensures Fold(update, Fold(update, x, before), w) == Fold(update, Fold(update, x, before), w')
  {
    FoldAppend(update, x, before + w, after);
    FoldAppend(update, x, before + w', after);
    FoldAppend(update, x, before, w);
    FoldAppend(update, x, before, w');
    FoldIsInjective(update, Fold(update, x, before + w), Fold(update, x, before + w'), after);
  }

  lemma UpdateKeepsApart()
    ensures KeepsApart(Update)
  {
    forall x, y, b: byte | Update(x, b) == Update(y, b) ensures x == y {
      EightIsInjective(Xor(x, Word(b)), Xor(y, Word(b)));
      XorRight(x, y, Word(b));
    }
  }

  lemma XorRight(a: bv32, b: bv32, c: bv32)
    requires Xor(a, c) == Xor(b, c)
    ensures a == b
  {
  }

  /** No two bytes share a word. */
  lemma WordIsInjective(b: byte, c: byte)
    requires Xor(Word(b), Word(c)) == 0
    ensures b == c
  {
    WordBits(Bit(b, 0), Bit(b, 1), Bit(b, 2), Bit(b, 3), Bit(b, 4), Bit(b, 5), Bit(b, 6), Bit(b, 7),
             Bit(c, 0), Bit(c, 1), Bit(c, 2), Bit(c, 3), Bit(c, 4), Bit(c, 5), Bit(c, 6), Bit(c, 7));
    EightBitsDecide(b, c);
  }

  lemma WordIsLow(b: byte, c: byte)
    ensures Low(Xor(Word(b), Word(c)))
  {
    WordOfIsLow(Bit(b, 0), Bit(b, 1), Bit(b, 2), Bit(b, 3), Bit(b, 4), Bit(b, 5), Bit(b, 6), Bit(b, 7));
    WordOfIsLow(Bit(c, 0), Bit(c, 1), Bit(c, 2), Bit(c, 3), Bit(c, 4), Bit(c, 5), Bit(c, 6), Bit(c, 7));
    LowXor(Word(b), Word(c));
  }

  lemma LowXor(x: bv32, y: bv32)
    requires Low(x) && Low(y)
    ensures Low(Xor(x, y))
  {
  }

  lemma WordOfIsLow(b0: bool, b1: bool, b2: bool, b3: bool, b4: bool, b5: bool, b6: bool, b7: bool)
    ensures Low(WordOf(b0, b1, b2, b3, b4, b5, b6, b7))
  {
  }

  lemma WordBits(b0: bool, b1: bool, b2: bool, b3: bool, b4: bool, b5: bool, b6: bool, b7: bool,
                 c0: bool, c1: bool, c2: bool, c3: bool, c4: bool, c5: bool, c6: bool, c7: bool)
    requires Xor(WordOf(b0, b1, b2, b3, b4, b5, b6, b7), WordOf(c0, c1, c2, c3, c4, c5, c6, c7)) == 0
    ensures b0 == c0 && b1 == c1 && b2 == c2 && b3 == c3 && b4 == c4 && b5 == c5 && b6 == c6 && b7 == c7
  {
  }

  lemma EightBitsDecide(b: nat, c: nat)
    requires b < 256 && c < 256
    requires Bit(b, 0) == Bit(c, 0) && Bit(b, 1) == Bit(c, 1) && Bit(b, 2) == Bit(c, 2) && Bit(b, 3) == Bit(c, 3)
    requires Bit(b, 4) == Bit(c, 4) && Bit(b, 5) == Bit(c, 5) && Bit(b, 6) == Bit(c, 6) && Bit(b, 7) == Bit(c, 7)
    ensures b == c
  {
    assert Power2(4) == 16 && Power2(8) == 256;
    BitsDecide(b, c, 8);
  }

  function Power2(k: nat): nat {
    if k == 0 then 1 else 2 * Power2(k - 1)
  }

  lemma {:induction false} BitsDecide(b: nat, c: nat, k: nat)
    requires b < Power2(k) && c < Power2(k) && forall i :: 0 <= i < k ==> Bit(b, i) == Bit(c, i)
    ensures b == c
  {
    if k > 0 {
      assert Bit(b, 0) == Bit(c, 0);
      forall i | 0 <= i < k - 1 ensures Bit(b / 2, i) == Bit(c / 2, i) {
        assert Bit(b, i + 1) == Bit(c, i + 1);
      }
      BitsDecide(b / 2, c / 2, k - 1);
    }
  }

  /** A short difference is one of four bytes of which the first are equal. */
  lemma {:induction false} DifferenceIsFour<X>(up: X -> X, xor: (X, X) -> X, zero: X, e: seq<X>)
    requires |e| <= 4 && up(zero) == zero && xor(zero, zero) == zero
    requires forall i :: 0 <= i < |e| ==> xor(zero, e[i]) == e[i]
    ensures var n := |e|;
            Difference(up, xor, zero, e)
            == AfterFour(up, xor, if n == 4 then e[0] else zero, if n >= 3 then e[n - 3] else zero,
                         if n >= 2 then e[n - 2] else zero, if n >= 1 then e[n - 1] else zero)
  {
    if |e| > 0 {
      var e1 := e[..|e| - 1];
      DifferenceLast(up, xor, zero, e);
      if |e1| > 0 {
        var e2 := e1[..|e1| - 1];
        DifferenceLast(up, xor, zero, e1);
        if |e2| > 0 {
          var e3 := e2[..|e2| - 1];
          DifferenceLast(up, xor, zero, e2);
          if |e3| > 0 {
            DifferenceLast(up, xor, zero, e3);
          }
        }
      }
    }
  }

  lemma DifferenceLast<X>(up: X -> X, xor: (X, X) -> X, zero: X, e: seq<X>)
    requires |e| > 0
    ensures Difference(up, xor, zero, e) == up(xor(Difference(up, xor, zero, e[..|e| - 1]), e[|e| - 1]))
    ensures |e| == 1 ==> Difference(up, xor, zero, e[..|e| - 1]) == zero
  {
  }

  lemma XorZero(e: bv32)
    ensures Xor(0, e) == e
  {
  }

  /** Up to four differing bytes leave no difference only if there is none. */
  lemma {:induction false} ShortDifference(e: seq<bv32>)
    requires |e| <= 4 && (forall i :: 0 <= i < |e| ==> Low(e[i])) && Difference(Eight, Xor, 0, e) == 0
    ensures forall i :: 0 <= i < |e| ==> e[i] == 0
  {
    EightOfZero();
    XorZero(0);
    forall i | 0 <= i < |e| ensures Xor(0, e[i]) == e[i] {
      XorZero(e[i]);
    }
    DifferenceIsFour(Eight, Xor, 0, e);
    var n := |e|;
    FourBytesShow(if n == 4 then e[0] else 0, if n >= 3 then e[n - 3] else 0, if n >= 2 then e[n - 2] else 0, if n >= 1 then e[n - 1] else 0);
  }

  /** From one register on, up to four bytes are told by the register they lead to. */
  lemma {:induction false} ShortIsTold(start: bv32, w: seq<byte>, w': seq<byte>)
    requires |w| == |w'| <= 4 && Register(start, w) == Register(start, w')
    ensures w == w'
  {
    var e := ByteDifferences(w, w');
    RegisterDifference(start, w, w');
    SameIsZero(Register(start, w), Register(start, w'));
    forall i | 0 <= i < |w| ensures Low(e[i]) {
      WordIsLow(w[i], w'[i]);
    }
    ShortDifference(e);
    NoDifference(w, w');
  }

  lemma {:induction false} NoDifference(w: seq<byte>, w': seq<byte>)
    requires |w| == |w'| && forall i :: 0 <= i < |w| ==> ByteDifferences(w, w')[i] == 0
    ensures w == w'
  {
    forall i | 0 <= i < |w| ensures w[i] == w'[i] {
      assert ByteDifferences(w, w')[i] == 0;
      WordIsInjective(w[i], w'[i]);
    }
  }

  lemma {:induction false} SameCrcSameBytes(before: seq<byte>, w: seq<byte>, w': seq<byte>, after: seq<byte>)
    requires |w| == |w'| <= 4 && Register(INITIAL, before + w + after) == Register(INITIAL, before + w' + after)
    ensures w == w'
  {
    UpdateKeepsApart();
    DamageIsLocal(Update, INITIAL, before, w, w', after);
    ShortIsTold(Fold(Update, INITIAL, before), w, w');
  }

  /** Two byte strings that differ inside a window, cut around it. */
  lemma CutWindow(data: seq<byte>, damaged: seq<byte>, from: nat)
    returns (before: seq<byte>, w: seq<byte>, w': seq<byte>, after: seq<byte>)
    requires |damaged| == |data| && forall i :: 0 <= i < |data| && !(from <= i < from + 4) ==> damaged[i] == data[i]
    ensures data == before + w + after && damaged == before + w' + after && |w| == |w'| <= 4
  {
    var start := if from <= |data| then from else |data|;
    var end := if from + 4 <= |data| then from + 4 else |data|;
    before, w, w', after := data[..start], data[start..end], damaged[start..end], data[end..];
  }

  lemma {:induction false} BurstIsTold(data: seq<byte>, damaged: seq<byte>, from: nat, r: bv32, r': bv32)
    requires |damaged| == |data| && forall i :: 0 <= i < |data| && !(from <= i < from + 4) ==> damaged[i] == data[i]
    requires r == Register(INITIAL, data) && r' == Register(INITIAL, damaged) && r == r'
    ensures damaged == data
  {
    var before, w, w', after := CutWindow(data, damaged, from);
    SameCrcSameBytes(before, w, w', after);
  }

  lemma ComplementTells(a: bv32, b: bv32)
    ensures !a == !b ==> a == b
  {
  }

  /** Damage confined to four consecutive bytes, in a byte string of any length, changes the CRC. */
  lemma {:induction false} BurstChangesCrc(data: seq<byte>, damaged: seq<byte>, from: nat)
    requires |damaged| == |data| && damaged != data
    requires forall i :: 0 <= i < |data| && !(from <= i < from + 4) ==> damaged[i] == data[i]
    ensures Crc(damaged) != Crc(data)
  {
    var r, r' := Register(INITIAL, data), Register(INITIAL, damaged);
    ComplementTells(r, r');
    if r == r' {
      BurstIsTold(data, damaged, from, r, r');
    }
  }
}
