/** Bytes as numbers and as eight bits. */
module Bits {
  import opened Bytes

  /** The low `k` binary digits of `n`, most significant first. */
  function Digits(n: nat, k: nat): (d: seq<bool>)
    ensures |d| == k
  {
    if k == 0 then [] else Digits(n / 2, k - 1) + [n % 2 == 1]
  }

  function Value(d: seq<bool>): nat {
    if d == [] then 0 else 2 * Value(d[..|d| - 1]) + if d[|d| - 1] then 1 else 0
  }

  function Join(d: seq<bool>): bv8
    requires |d| == 8
  {
    (if d[0] then 128 else 0) | (if d[1] then 64 else 0) | (if d[2] then 32 else 0) | (if d[3] then 16 else 0)
    | (if d[4] then 8 else 0) | (if d[5] then 4 else 0) | (if d[6] then 2 else 0) | (if d[7] then 1 else 0)
  }

  function Split(t: bv8): (d: seq<bool>)
    ensures |d| == 8
  {
    [t & 128 != 0, t & 64 != 0, t & 32 != 0, t & 16 != 0, t & 8 != 0, t & 4 != 0, t & 2 != 0, t & 1 != 0]
  }

  function ToBits(b: byte): bv8 {
    Join(Digits(b, 8))
  }

  function FromBits(t: bv8): byte {
    ValueBound(Split(t));
    Value(Split(t))
  }

  function Pow2(n: nat): nat {
    if n == 0 then 1 else 2 * Pow2(n - 1)
  }

  lemma {:induction false} ValueBound(d: seq<bool>)
    ensures Value(d) < Pow2(|d|)
    ensures |d| == 8 ==> Value(d) < 256
  {
    if d != [] {
      ValueBound(d[..|d| - 1]);
    }
    Pow2Eight();
  }

  lemma Pow2Eight()
    ensures Pow2(8) == 256
  {
    assert Pow2(6) == 4 * Pow2(4) && Pow2(4) == 4 * Pow2(2);
  }

  lemma {:induction false} ValueDigits(n: nat, k: nat)
    requires n < Pow2(k)
    ensures Value(Digits(n, k)) == n
  {
    if k > 0 {
      ValueDigits(n / 2, k - 1);
      assert Digits(n, k)[..k - 1] == Digits(n / 2, k - 1);
    }
  }

  lemma {:induction false} DigitsValue(d: seq<bool>)
    ensures Digits(Value(d), |d|) == d
  {
    if d != [] {
      DigitsValue(d[..|d| - 1]);
    }
  }

  lemma JoinSplit(t: bv8)
    ensures Join(Split(t)) == t
  {
  }

  lemma SplitJoin(d: seq<bool>)
    requires |d| == 8
    ensures Split(Join(d)) == d
  {
  }

  lemma BitsBack(t: bv8)
    ensures ToBits(FromBits(t)) == t
  {
    DigitsValue(Split(t));
    JoinSplit(t);
    hide Join, Split;
  }

  lemma ByteBack(b: byte)
    ensures FromBits(ToBits(b)) == b
  {
    Pow2Eight();
    ValueDigits(b, 8);
    SplitJoin(Digits(b, 8));
    hide Join, Split;
  }
}

/** The MPEG CRC-32 (Annex A of ISO/IEC 13818-1): the shift register as the
    source runs it, and what it detects. */
module Crc {
  import opened Bytes
  import opened Bits

  type word = bv32

  const POLYNOMIAL: word := 0x04C1_1DB7

  // ---------- the register

  function Xor(a: word, b: word): word {
    a ^ b
  }

  function Double(c: word): word {
    c << 1
  }

  predicate High(c: word) {
    c & 0x8000_0000 != 0
  }

  /** One shift of the register. */
  function Shift(c: word): word {
    if High(c) then Xor(Double(c), POLYNOMIAL) else Double(c)
  }

  function Shifts(c: word, n: nat): word {
    if n == 0 then c else Shift(Shifts(c, n - 1))
  }

  function Up(c: word): word {
    c << 8
  }

  function Down(c: word): word {
    c >> 8
  }

  predicate Clear(c: word, mask: word) {
    c & mask == 0
  }

  /** Eight bits at the top of the register. */
  function TopBits(t: bv8): word {
    (t as bv32) << 24
  }

  function BitsOfTop(c: word): bv8 {
    (c >> 24) as bv8
  }

  function Top(b: byte): word {
    TopBits(ToBits(b))
  }

  function TopByte(c: word): byte {
    FromBits(BitsOfTop(c))
  }

  function Feed(c: word, b: byte): word {
    Shifts(Xor(c, Top(b)), 8)
  }

  function FeedAll(c: word, s: seq<byte>): word
    decreases s
  {
    if s == [] then c else FeedAll(Feed(c, s[0]), s[1..])
  }

  function Crc32(s: seq<byte>): word {
    FeedAll(0xFFFF_FFFF, s)
  }

  /** The section followed by its CRC, most significant byte first. */
  function AppendCrc(s: seq<byte>): (r: seq<byte>)
    ensures |r| == |s| + 4 && r[..|s|] == s
  {
    s + CrcBytes(Crc32(s))
  }

  function CrcBytes(c: word): (r: seq<byte>)
    ensures |r| == 4
  {
    [TopByte(c), TopByte(Up(c)), TopByte(Up(Up(c))), TopByte(Up(Up(Up(c))))]
  }

  method MpegCrc32(data: seq<byte>) returns (crc: word)
    ensures crc == Crc32(data)
  {
    hide Shift, Top, Xor;
    crc := 0xFFFF_FFFF;
    for i := 0 to |data|
      invariant FeedAll(crc, data[i..]) == Crc32(data)
    {
      ghost var before := crc;
      crc := Xor(crc, Top(data[i]));
      ghost var start := crc;
      for k := 0 to 8
        invariant crc == Shifts(start, k)
      {
        crc := Shift(crc);
      }
      assert data[i..][1..] == data[i + 1..];
    }
  }

  // ---------- algebra

  lemma XorComm(a: word, b: word)
    ensures Xor(a, b) == Xor(b, a)
  {
  }

  lemma XorAssoc(a: word, b: word, c: word)
    ensures Xor(Xor(a, b), c) == Xor(a, Xor(b, c))
  {
  }

  lemma XorSelf(a: word)
    ensures Xor(a, a) == 0 && Xor(a, 0) == a
  {
  }

  lemma XorDiffer(a: word, b: word)
    ensures Xor(a, b) == 0 ==> a == b
  {
  }

  /** A term added on both sides cancels. */
  lemma XorCancel(a: word, b: word, p: word)
    ensures Xor(Xor(a, p), Xor(b, p)) == Xor(a, b)
    ensures Xor(Xor(a, p), b) == Xor(Xor(a, b), p) && Xor(a, Xor(b, p)) == Xor(Xor(a, b), p)
  {
    XorAssoc(a, p, b);
    XorComm(p, b);
    XorAssoc(a, b, p);
    XorAssoc(Xor(a, p), b, p);
    XorAssoc(Xor(a, b), p, p);
    XorSelf(p);
    XorSelf(Xor(a, b));
    hide Xor;
  }

  lemma DoubleXor(a: word, b: word)
    ensures Double(Xor(a, b)) == Xor(Double(a), Double(b))
  {
  }

  lemma HighXor(a: word, b: word)
    ensures High(Xor(a, b)) == (High(a) != High(b))
  {
  }

  lemma ShiftXor(a: word, b: word)
    ensures Shift(Xor(a, b)) == Xor(Shift(a), Shift(b))
  {
    DoubleXor(a, b);
    HighXor(a, b);
    var p, x, y := POLYNOMIAL, Double(a), Double(b);
    XorCancel(x, y, p);
    hide Xor, Double, High;
  }

  lemma ShiftZero(c: word)
    ensures Shift(c) == 0 <==> c == 0
  {
    assert (c << 1) ^ POLYNOMIAL != 0;
    assert c << 1 == 0 && c & 0x8000_0000 == 0 ==> c == 0;
  }

  lemma {:induction false} ShiftsXor(a: word, b: word, n: nat)
    ensures Shifts(Xor(a, b), n) == Xor(Shifts(a, n), Shifts(b, n))
  {
    if n > 0 {
      ShiftsXor(a, b, n - 1);
      ShiftXor(Shifts(a, n - 1), Shifts(b, n - 1));
    }
  }

  lemma {:induction false} ShiftsZero(c: word, n: nat)
    ensures Shifts(c, n) == 0 <==> c == 0
  {
    if n > 0 {
      ShiftsZero(c, n - 1);
      ShiftZero(Shifts(c, n - 1));
    }
  }

  // ---------- the residue of a closed section is zero

  lemma ShiftLow(c: word)
    requires !High(c)
    ensures Shift(c) == Double(c)
  {
  }

  lemma LowByByte(c: word)
    requires Clear(c, 0xFF00_0000)
    ensures !High(c) && !High(c << 1) && !High(c << 2) && !High(c << 3)
    ensures !High(c << 4) && !High(c << 5) && !High(c << 6) && !High(c << 7)
  {
  }

  lemma Doubles(c: word)
    ensures Double(c) == c << 1 && Double(c << 1) == c << 2 && Double(c << 2) == c << 3 && Double(c << 3) == c << 4
    ensures Double(c << 4) == c << 5 && Double(c << 5) == c << 6 && Double(c << 6) == c << 7 && Double(c << 7) == Up(c)
  {
  }

  /** With nothing in its top byte the register just moves up eight places. */
  lemma EightShifts(c: word)
    requires Clear(c, 0xFF00_0000)
    ensures Shifts(c, 8) == Up(c)
  {
    LowByByte(c);
    Doubles(c);
    hide High, Double, Shift, Up, Clear;
    ShiftLow(c);
    ShiftLow(c << 1);
    ShiftLow(c << 2);
    ShiftLow(c << 3);
    ShiftLow(c << 4);
    ShiftLow(c << 5);
    ShiftLow(c << 6);
    ShiftLow(c << 7);
    assert Shifts(c, 1) == c << 1;
    assert Shifts(c, 2) == c << 2;
    assert Shifts(c, 3) == c << 3;
    assert Shifts(c, 4) == c << 4;
    assert Shifts(c, 5) == c << 5;
    assert Shifts(c, 6) == c << 6;
    assert Shifts(c, 7) == c << 7;
  }

  lemma CancelTop(c: word)
    ensures Clear(Xor(c, TopBits(BitsOfTop(c))), 0xFF00_0000)
    ensures Up(Xor(c, TopBits(BitsOfTop(c)))) == Up(c)
  {
  }

  lemma FeedTopByte(c: word)
    ensures Feed(c, TopByte(c)) == Up(c)
  {
    hide TopBits, Xor, BitsOfTop, Up, Clear, ToBits, FromBits;
    BitsBack(BitsOfTop(c));
    CancelTop(c);
    EightShifts(Xor(c, TopBits(BitsOfTop(c))));
  }

  lemma {:induction false} FeedConcat(c: word, a: seq<byte>, b: seq<byte>)
    ensures FeedAll(c, a + b) == FeedAll(FeedAll(c, a), b)
    decreases a
  {
    hide Feed;
    if a == [] {
      assert a + b == b;
    } else {
      assert (a + b)[0] == a[0] && (a + b)[1..] == a[1..] + b;
      FeedConcat(Feed(c, a[0]), a[1..], b);
    }
  }

  lemma UpFour(c: word)
    ensures Up(Up(Up(Up(c)))) == 0
  {
  }

  lemma FeedFour(c: word, w: byte, x: byte, y: byte, z: byte)
    ensures FeedAll(c, [w, x, y, z]) == Feed(Feed(Feed(Feed(c, w), x), y), z)
  {
    hide Feed;
    assert [w, x, y, z][1..] == [x, y, z] && [x, y, z][1..] == [y, z] && [y, z][1..] == [z] && [z][1..] == [];
    assert FeedAll(c, [w, x, y, z]) == FeedAll(Feed(c, w), [x, y, z]);
    assert FeedAll(Feed(c, w), [x, y, z]) == FeedAll(Feed(Feed(c, w), x), [y, z]);
    var d := Feed(Feed(c, w), x);
    assert FeedAll(d, [y, z]) == FeedAll(Feed(d, y), [z]);
    assert FeedAll(Feed(d, y), [z]) == FeedAll(Feed(Feed(d, y), z), []);
  }

  /** Checking a section together with its CRC leaves zero, for all bytes. */
  lemma ResidueZero(s: seq<byte>)
    ensures Crc32(AppendCrc(s)) == 0
  {
    var c := Crc32(s);
    CrcOfConcat(s, CrcBytes(c));
    hide Crc32, Feed, TopByte, Up, FeedAll;
    FeedTopByte(c);
    FeedTopByte(Up(c));
    FeedTopByte(Up(Up(c)));
    FeedTopByte(Up(Up(Up(c))));
    UpFour(c);
    FeedFour(c, TopByte(c), TopByte(Up(c)), TopByte(Up(Up(c))), TopByte(Up(Up(Up(c)))));
  }

  lemma CrcOfConcat(a: seq<byte>, b: seq<byte>)
    ensures Crc32(a + b) == FeedAll(Crc32(a), b)
  {
    FeedConcat(0xFFFF_FFFF, a, b);
  }

  // ---------- damage within four bytes is always seen

  /** Up to four bytes laid out from the top of a register. */
  function Pack(s: seq<byte>): word
    decreases s
  {
    if s == [] then 0 else Xor(Top(s[0]), Down(Pack(s[1..])))
  }

  /** Feeding up to four bytes is adding them all at once and shifting. */
  lemma {:induction false} FeedIsShift(c: word, s: seq<byte>)
    requires |s| <= 4
    ensures FeedAll(c, s) == Shifts(Xor(c, Pack(s)), 8 * |s|)
    decreases s
  {
    hide Top, Xor, Down, Clear;
    if s == [] {
      XorSelf(c);
    } else {
      var rest := s[1..];
      FeedIsShift(Feed(c, s[0]), rest);
      PackLow(rest);
      TailMovesUp(Pack(rest));
      var x, d := Xor(c, Top(s[0])), Down(Pack(rest));
      ShiftsXor(x, d, 8);
      XorAssoc(c, Top(s[0]), d);
      ShiftsSplit(Xor(x, d), 8, 8 * |rest|);
      hide Pack, Shifts;
    }
  }

  lemma {:induction false} ShiftsSplit(c: word, a: nat, b: nat)
    ensures Shifts(Shifts(c, a), b) == Shifts(c, a + b)
  {
    if b > 0 {
      ShiftsSplit(c, a, b - 1);
    }
  }

  lemma DownUp(w: word)
    requires Clear(w, 0xFF)
    ensures Clear(Down(w), 0xFF00_0000) && Up(Down(w)) == w
  {
  }

  lemma TailMovesUp(w: word)
    requires Clear(w, 0xFF)
    ensures Shifts(Down(w), 8) == w
  {
    hide Clear, Down, Up;
    DownUp(w);
    EightShifts(Down(w));
  }

  lemma {:induction false} PackLow(s: seq<byte>)
    requires |s| <= 3
    ensures Clear(Pack(s), 0xFF)
    ensures |s| <= 2 ==> Clear(Pack(s), 0xFFFF)
    ensures |s| <= 1 ==> Clear(Pack(s), 0xFF_FFFF)
    decreases s
  {
    if s == [] {
      assert Clear(0, 0xFF) && Clear(0, 0xFFFF) && Clear(0, 0xFF_FFFF);
    } else {
      hide TopBits, Xor, Down, Clear, ToBits;
      PackLow(s[1..]);
      TopLow(ToBits(s[0]), Pack(s[1..]));
    }
  }

  lemma TopLow(t: bv8, w: word)
    ensures Clear(w, 0xFFFF) ==> Clear(Xor(TopBits(t), Down(w)), 0xFF)
    ensures Clear(w, 0xFF_FFFF) ==> Clear(Xor(TopBits(t), Down(w)), 0xFFFF)
    ensures w == 0 ==> Clear(Xor(TopBits(t), Down(w)), 0xFF_FFFF)
  {
  }

  lemma TopsDiffer(s: bv8, t: bv8, x: word, y: word)
    requires Xor(TopBits(s), Down(x)) == Xor(TopBits(t), Down(y))
    ensures s == t && Down(x) == Down(y)
  {
  }

  lemma {:induction false} PackInjective(a: seq<byte>, b: seq<byte>)
    requires |a| == |b| <= 4 && Pack(a) == Pack(b)
    ensures a == b
    decreases a
  {
    if a != [] {
      hide TopBits, Xor, Down, Clear, Up, ToBits, FromBits;
      TopsDiffer(ToBits(a[0]), ToBits(b[0]), Pack(a[1..]), Pack(b[1..]));
      ByteBack(a[0]);
      ByteBack(b[0]);
      PackLow(a[1..]);
      PackLow(b[1..]);
      DownUp(Pack(a[1..]));
      DownUp(Pack(b[1..]));
      PackInjective(a[1..], b[1..]);
    }
  }

  lemma {:induction false} FeedAllInjective(c: word, d: word, s: seq<byte>)
    requires FeedAll(c, s) == FeedAll(d, s)
    ensures c == d
    decreases s
  {
    if s != [] {
      FeedAllInjective(Feed(c, s[0]), Feed(d, s[0]), s[1..]);
      ShiftsInjective(Xor(c, Top(s[0])), Xor(d, Top(s[0])), 8);
      XorCancel(c, d, Top(s[0]));
      XorSelf(Xor(c, Top(s[0])));
      XorDiffer(c, d);
    }
  }

  lemma ShiftsInjective(c: word, d: word, n: nat)
    requires Shifts(c, n) == Shifts(d, n)
    ensures c == d
  {
    hide Xor, Shifts;
    ShiftsXor(c, d, n);
    XorSelf(Shifts(c, n));
    ShiftsZero(Xor(c, d), n);
    XorDiffer(c, d);
  }

  /** Two byte strings of one length that differ, and differ only within some
      four consecutive positions, have different CRCs. */
  lemma BurstDetected(before: seq<byte>, a: seq<byte>, b: seq<byte>, after: seq<byte>)
    requires |a| == |b| <= 4 && a != b
    ensures Crc32(before + a + after) != Crc32(before + b + after)
  {
    hide Crc32, FeedAll, Shifts, Xor, Pack;
    var c := Crc32(before);
    CrcOfConcat(before, a);
    CrcOfConcat(before, b);
    CrcOfConcat(before + a, after);
    CrcOfConcat(before + b, after);
    if Crc32(before + a + after) == Crc32(before + b + after) {
      FeedAllInjective(FeedAll(c, a), FeedAll(c, b), after);
      FeedIsShift(c, a);
      FeedIsShift(c, b);
      ShiftsInjective(Xor(c, Pack(a)), Xor(c, Pack(b)), 8 * |a|);
      XorComm(c, Pack(a));
      XorComm(c, Pack(b));
      XorCancel(Pack(a), Pack(b), c);
      XorSelf(Xor(c, Pack(a)));
      XorDiffer(Pack(a), Pack(b));
      PackInjective(a, b);
    }
  }

  /** Damage within four consecutive bytes of a closed section never leaves a
      zero residue. */
  lemma DamageDetected(s: seq<byte>, before: seq<byte>, a: seq<byte>, b: seq<byte>, after: seq<byte>)
    requires AppendCrc(s) == before + a + after && |a| == |b| <= 4 && a != b
    ensures Crc32(before + b + after) != 0
  {
    ResidueZero(s);
    BurstDetected(before, a, b, after);
  }

  // ---------- the published check value

  lemma ShiftedEight(c: word)
    ensures Shifts(c, 8) == Shift(Shift(Shift(Shift(Shift(Shift(Shift(Shift(c))))))))
  {
    hide Shift;
    TwoShifts(c, 0);
    TwoShifts(c, 2);
    TwoShifts(c, 4);
    TwoShifts(c, 6);
  }

  lemma TwoShifts(c: word, n: nat)
    ensures Shifts(c, 0) == c && Shifts(c, n + 2) == Shift(Shift(Shifts(c, n)))
  {
    assert Shifts(c, n + 1) == Shift(Shifts(c, n));
  }

  function Eight(c: word): word {
    Shift(Shift(Shift(Shift(Shift(Shift(Shift(Shift(c))))))))
  }

  lemma Fed(b: byte, digits: seq<bool>, top: word, c: word, r: word)
    requires Digits(b, 8) == digits && |digits| == 8 && TopBits(Join(digits)) == top && Eight(Xor(c, top)) == r
    ensures Feed(c, b) == r
  {
    ShiftedEight(Xor(c, top));
    hide Shift, TopBits, Xor, Join;
  }

  lemma DigitOne()
    ensures Feed(0xFFFF_FFFF, 0x31) == 0x9EFB_CF93
  {
    Fed(0x31, [false, false, true, true, false, false, false, true], 0x3100_0000, 0xFFFF_FFFF, 0x9EFB_CF93);
  }

  lemma DigitTwo()
    ensures Feed(0x9EFB_CF93, 0x32) == 0x3FEC_5E6A
  {
    Fed(0x32, [false, false, true, true, false, false, true, false], 0x3200_0000, 0x9EFB_CF93, 0x3FEC_5E6A);
  }

  lemma DigitThree()
    ensures Feed(0x3FEC_5E6A, 0x33) == 0xD952_F164
  {
    Fed(0x33, [false, false, true, true, false, false, true, true], 0x3300_0000, 0x3FEC_5E6A, 0xD952_F164);
  }

  lemma DigitFour()
    ensures Feed(0xD952_F164, 0x34) == 0xA695_C4AA
  {
    Fed(0x34, [false, false, true, true, false, true, false, false], 0x3400_0000, 0xD952_F164, 0xA695_C4AA);
  }

  lemma DigitFive()
    ensures Feed(0xA695_C4AA, 0x35) == 0xBD9A_B747
  {
    Fed(0x35, [false, false, true, true, false, true, false, true], 0x3500_0000, 0xA695_C4AA, 0xBD9A_B747);
  }

  lemma DigitSix()
    ensures Feed(0xBD9A_B747, 0x36) == 0xD8F0_6C8F
  {
    Fed(0x36, [false, false, true, true, false, true, true, false], 0x3600_0000, 0xBD9A_B747, 0xD8F0_6C8F);
  }

  lemma DigitSeven()
    ensures Feed(0xD8F0_6C8F, 0x37) == 0x0D8A_14C4
  {
    Fed(0x37, [false, false, true, true, false, true, true, true], 0x3700_0000, 0xD8F0_6C8F, 0x0D8A_14C4);
  }

  lemma DigitEight()
    ensures Feed(0x0D8A_14C4, 0x38) == 0x49E3_C2FB
  {
    Fed(0x38, [false, false, true, true, true, false, false, false], 0x3800_0000, 0x0D8A_14C4, 0x49E3_C2FB);
  }

  lemma DigitNine()
    ensures Feed(0x49E3_C2FB, 0x39) == 0x0376_E6E7
  {
    Fed(0x39, [false, false, true, true, true, false, false, true], 0x3900_0000, 0x49E3_C2FB, 0x0376_E6E7);
  }

  /** The CRC is the one published for the nine digits "123456789". */
  lemma CheckValue()
    ensures Crc32([0x31, 0x32, 0x33, 0x34, 0x35, 0x36, 0x37, 0x38, 0x39]) == 0x0376_E6E7
  {
    hide Feed;
    DigitOne();
    OneFed(0xFFFF_FFFF, 0x31, [0x32, 0x33, 0x34, 0x35, 0x36, 0x37, 0x38, 0x39]);
    DigitTwo();
    OneFed(0x9EFB_CF93, 0x32, [0x33, 0x34, 0x35, 0x36, 0x37, 0x38, 0x39]);
    DigitThree();
    OneFed(0x3FEC_5E6A, 0x33, [0x34, 0x35, 0x36, 0x37, 0x38, 0x39]);
    DigitFour();
    OneFed(0xD952_F164, 0x34, [0x35, 0x36, 0x37, 0x38, 0x39]);
    DigitFive();
    OneFed(0xA695_C4AA, 0x35, [0x36, 0x37, 0x38, 0x39]);
    DigitSix();
    OneFed(0xBD9A_B747, 0x36, [0x37, 0x38, 0x39]);
    DigitSeven();
    OneFed(0xD8F0_6C8F, 0x37, [0x38, 0x39]);
    DigitEight();
    OneFed(0x0D8A_14C4, 0x38, [0x39]);
    DigitNine();
    OneFed(0x49E3_C2FB, 0x39, []);
  }

  lemma OneFed(c: word, b: byte, rest: seq<byte>)
    ensures FeedAll(c, [b] + rest) == FeedAll(Feed(c, b), rest)
  {
    assert ([b] + rest)[1..] == rest;
  }
}
