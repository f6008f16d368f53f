/**
The scramble of passwords before MySQL 4.1: its pseudo-random bytes are bounded, its arithmetic
stays within 32 bits, and its output is printable.
*/
module OldPassword {
  import opened ByteStrings

  const MY_RND_MAX_VAL: nat := 0x3fff_ffff
  const WORD: nat := 0x1_0000_0000

  type U32 = n: int | 0 <= n < 0x1_0000_0000

  /** Bitwise exclusive or of words, and of bytes. */
  function Xor(a: U32, b: U32): U32 { ((a as bv32) ^ (b as bv32)) as int }

  function XorByte(a: Byte, b: Byte): Byte { ((a as bv8) ^ (b as bv8)) as int }

  // ---------- The generator ----------

  datatype Seeds = Seeds(seed1: nat, seed2: nat)

  predicate Bounded(s: Seeds) { s.seed1 < MY_RND_MAX_VAL && s.seed2 < MY_RND_MAX_VAL }

  /** The seeds after one byte, in unbounded arithmetic. */
  function NextSeeds(s: Seeds): Seeds {
    var s1 := (s.seed1 * 3 + s.seed2) % MY_RND_MAX_VAL;
    Seeds(s1, (s1 + s.seed2 + 33) % MY_RND_MAX_VAL)
  }

  function SeedsAfter(s: Seeds, n: nat): Seeds { if n == 0 then s else NextSeeds(SeedsAfter(s, n - 1)) }

  function ByteAt(s: Seeds): nat { NextSeeds(s).seed1 * 31 / MY_RND_MAX_VAL }

  lemma NoWrap(s: Seeds)
    requires Bounded(s)
    ensures (s.seed1 * 3 % WORD + s.seed2) % WORD == s.seed1 * 3 + s.seed2
    ensures (NextSeeds(s).seed1 + s.seed2 + 33) % WORD == NextSeeds(s).seed1 + s.seed2 + 33
    ensures Bounded(NextSeeds(s)) && ByteAt(s) <= 30
  {
    assert s.seed1 * 3 + s.seed2 < WORD;
    var t := NextSeeds(s).seed1;
    assert t + s.seed2 + 33 < WORD;
    assert t * 31 < 31 * MY_RND_MAX_VAL;
  }

  class MyRnd {
    var seed1: nat
    var seed2: nat

    ghost function View(): Seeds
      reads this
    {
      Seeds(seed1, seed2)
    }

    constructor (seed1: nat, seed2: nat)
      requires seed1 < WORD && seed2 < WORD
      ensures View() == Seeds(seed1 % MY_RND_MAX_VAL, seed2 % MY_RND_MAX_VAL) && Bounded(View())
    {
      this.seed1, this.seed2 := seed1 % MY_RND_MAX_VAL, seed2 % MY_RND_MAX_VAL;
    }

    /** In 32-bit arithmetic, which never wraps, and never above 30. */
    method NextByte() returns (b: Byte)
      requires Bounded(View())
      modifies this
      ensures Bounded(View()) && View() == NextSeeds(old(View()))
      ensures b == ByteAt(old(View())) && b <= 30
    {
      NoWrap(View());
      seed1 := (seed1 * 3 % WORD + seed2) % WORD % MY_RND_MAX_VAL;
      seed2 := (seed1 + seed2 + 33) % WORD % MY_RND_MAX_VAL;
      b := seed1 * 31 / MY_RND_MAX_VAL;
    }
  }

  // ---------- The hash ----------

  datatype Hash = Hash(r0: U32, r1: U32, add: U32)

  predicate Blank(c: Byte) { c == 32 || c == 9 }

  function HashByte(h: Hash, c: Byte): Hash {
    if Blank(c) then h
    else
      var r0 := Xor(h.r0, ((h.r0 % 64 + h.add) * c + h.r0 * 0x100) % WORD);
      var r1 := (h.r1 + Xor(h.r1 * 0x100 % WORD, r0)) % WORD;
      Hash(r0, r1, (h.add + c) % WORD)
  }

  function HashFrom(h: Hash, password: seq<Byte>): Hash
    decreases |password|
  {
    if password == [] then h else HashFrom(HashByte(h, password[0]), password[1..])
  }

  function PwHash(password: seq<Byte>): (U32, U32) {
    var h := HashFrom(Hash(1345345333, 0x1234_5671, 7), password);
    (h.r0 % 0x8000_0000, h.r1 % 0x8000_0000)
  }

  function Stripped(password: seq<Byte>): seq<Byte> {
    if password == [] then []
    else (if Blank(password[0]) then [] else [password[0]]) + Stripped(password[1..])
  }

  lemma {:induction false} BlanksSkipped(h: Hash, password: seq<Byte>)
    ensures HashFrom(h, password) == HashFrom(h, Stripped(password))
    decreases |password|
  {
    assert password != [] && Blank(password[0]) ==> HashByte(h, password[0]) == h;
    hide HashByte;
    if password != [] {
      BlanksSkipped(HashByte(h, password[0]), password[1..]);
      if Blank(password[0]) {
        assert Stripped(password) == Stripped(password[1..]);
      } else {
        assert Stripped(password)[0] == password[0] && Stripped(password)[1..] == Stripped(password[1..]);
      }
    }
  }

  /** Passwords that differ in spaces and tabs only are the same password. */
  lemma BlanksDoNotCount(password: seq<Byte>)
    ensures PwHash(password) == PwHash(Stripped(password))
  {
    BlanksSkipped(Hash(1345345333, 0x1234_5671, 7), password);
  }

  /** The hash loop, over the bytes in order. */
  method ComputePwHash(password: seq<Byte>) returns (result: (U32, U32))
    ensures result == PwHash(password) && result.0 < 0x8000_0000 && result.1 < 0x8000_0000
  {
    hide HashByte;
    var h := Hash(1345345333, 0x1234_5671, 7);
    ghost var whole := HashFrom(h, password);
    assert password[0..] == password;
    for i := 0 to |password|
      invariant HashFrom(h, password[i..]) == whole
    {
      assert password[i..][0] == password[i] && password[i..][1..] == password[i + 1..];
      h := HashByte(h, password[i]);
    }
    result := (h.r0 % 0x8000_0000, h.r1 % 0x8000_0000);
  }

  // ---------- The scramble ----------

  /** The seeds that a password and the first eight bytes of a scramble give. */
  function Mixed(scramble: seq<Byte>, password: seq<Byte>): Seeds
    requires |scramble| >= 8
  {
    var pw, sc := PwHash(password), PwHash(scramble[..8]);
    Seeds(Xor(pw.0, sc.0) % MY_RND_MAX_VAL, Xor(pw.1, sc.1) % MY_RND_MAX_VAL)
  }

  /**
  The first eight bytes of the generator above 64, each masked with the ninth, all in 64..95;
  nothing for an empty password; the scramble has the eight bytes that the driver cuts off for it.
  */
  method ScrambleOldPassword(scramble: seq<Byte>, password: seq<Byte>) returns (out: seq<Byte>)
    requires |scramble| >= 8
    ensures password == [] ==> out == []
    ensures password != [] ==> |out| == 8 && forall i :: 0 <= i < 8 ==> 64 <= out[i] <= 95
    ensures password != [] ==> forall i :: 0 <= i < |out| ==>
              out[i] == XorByte(ByteAt(SeedsAfter(Mixed(scramble, password), i)) + 64, ByteAt(SeedsAfter(Mixed(scramble, password), 8)))
  {
    if |password| == 0 {
      return [];
    }
    hide PwHash, Xor, SeedsAfter, ByteAt;
    var hashPw := ComputePwHash(password);
    var hashSc := ComputePwHash(scramble[..8]);
    var r := new MyRnd(Xor(hashPw.0, hashSc.0), Xor(hashPw.1, hashSc.1));
    hide *;
    var a := new Byte[8](i => 0);
    var mask := Generate(r, a);
    Mask(a, mask);
    return a[..];
  }

  /** The first loop, and the byte after it. */
  method Generate(r: MyRnd, a: array<Byte>) returns (mask: Byte)
    requires Bounded(r.View())
    modifies r, a
    ensures forall k :: 0 <= k < a.Length ==> 64 <= a[k] <= 94 && a[k] == ByteAt(SeedsAfter(old(r.View()), k)) + 64
    ensures mask == ByteAt(SeedsAfter(old(r.View()), a.Length)) <= 30
  {
    hide NextSeeds, ByteAt, Bounded;
    ghost var s := r.View();
    for i := 0 to a.Length
      invariant Bounded(r.View()) && r.View() == SeedsAfter(s, i)
      invariant forall k :: 0 <= k < i ==> 64 <= a[k] <= 94 && a[k] == ByteAt(SeedsAfter(s, k)) + 64
    {
      var b := r.NextByte();
      a[i] := b + 64;
    }
    mask := r.NextByte();
  }

  /** The second loop. */
  method Mask(a: array<Byte>, mask: Byte)
    requires mask <= 30 && forall k :: 0 <= k < a.Length ==> 64 <= a[k] <= 94
    modifies a
    ensures forall k :: 0 <= k < a.Length ==> a[k] == XorByte(old(a[k]), mask) && 64 <= a[k] <= 95
  {
    hide XorByte;
    for i := 0 to a.Length
      invariant forall k :: 0 <= k < i ==> a[k] == XorByte(old(a[k]), mask) && 64 <= a[k] <= 95
      invariant forall k :: i <= k < a.Length ==> a[k] == old(a[k])
    {
      Masked(a[i], mask);
      a[i] := XorByte(a[i], mask);
    }
  }

  lemma Masked(a: Byte, mask: Byte)
    requires 64 <= a <= 94 && mask <= 30
    ensures 64 <= XorByte(a, mask) <= 95
  {
  }

  // ---------- Known values ----------

  /** One round of the hash, with the value of each of its parts. */
  lemma HashStep(h: Hash, c: Byte, x: U32, y: U32, u: U32, v: U32, rest: seq<Byte>)
    requires !Blank(c) && x == ((h.r0 % 64 + h.add) * c + h.r0 * 256) % 4294967296 && Xor(h.r0, x) == y
    requires u == h.r1 * 256 % 4294967296 && Xor(u, y) == v
    ensures HashFrom(h, [c] + rest) == HashFrom(Hash(y, (h.r1 + v) % 4294967296, (h.add + c) % 4294967296), rest)
  {
    hide Xor;
    assert ([c] + rest)[1..] == rest;
  }

  lemma BlankStep(h: Hash, c: Byte, rest: seq<Byte>)
    requires Blank(c)
    ensures HashFrom(h, [c] + rest) == HashFrom(h, rest)
  {
    assert ([c] + rest)[1..] == rest;
  }

  lemma HashEnds(password: seq<Byte>, h: Hash)
    requires HashFrom(Hash(1345345333, 305419889, 7), password) == HashFrom(h, [])
    ensures PwHash(password) == (h.r0 % 2147483648, h.r1 % 2147483648)
  {
  }

  lemma HashOfMyPassXors()
    ensures Xor(1345345333, 811028108) == 1617369529 && Xor(878080256, 1617369529) == 1412524217
    ensures Xor(1617369529, 1729759941) == 125637500 && Xor(1707026944, 125637500) == 1656895868
    ensures Xor(125637500, 2098462192) == 2054090380 && Xor(670606848, 2054090380) == 1570130060
    ensures Xor(2054090380, 1861162185) == 344062533 && Xor(3191943680, 344062533) == 2864760901
    ensures Xor(344062533, 2180714393) == 2507863516 && Xor(2131326720, 2507863516) == 3933438684
    ensures Xor(2507863516, 2063000727) == 4018934091 && Xor(4069282560, 4018934091) == 486556235
  {
  }

  /** What MySQL's manual gives for the old password hash of "mypass": 6f8c114b58f2ce9e. */
  lemma HashOfMyPass()
    ensures PwHash([109, 121, 112, 97, 115, 115]) == (0x6f8c114b, 0x58f2ce9e)
  {
    HashOfMyPassXors();
    hide Xor, HashFrom, HashByte, PwHash;
    HashStep(Hash(1345345333, 305419889, 7), 109, 811028108, 1617369529, 878080256, 1412524217, [121, 112, 97, 115, 115]);
    assert [109] + [121, 112, 97, 115, 115] == [109, 121, 112, 97, 115, 115];
    HashStep(Hash(1617369529, 1717944106, 116), 121, 1729759941, 125637500, 1707026944, 1656895868, [112, 97, 115, 115]);
    assert [121] + [112, 97, 115, 115] == [121, 112, 97, 115, 115];
    HashStep(Hash(125637500, 3374839974, 237), 112, 2098462192, 2054090380, 670606848, 1570130060, [97, 115, 115]);
    assert [112] + [97, 115, 115] == [112, 97, 115, 115];
    HashStep(Hash(2054090380, 650002738, 349), 97, 1861162185, 344062533, 3191943680, 2864760901, [115, 115]);
    assert [97] + [115, 115] == [97, 115, 115];
    HashStep(Hash(344062533, 3514763639, 446), 115, 2180714393, 2507863516, 2131326720, 3933438684, [115]);
    assert [115] + [115] == [115, 115];
    HashStep(Hash(2507863516, 3153235027, 561), 115, 2063000727, 4018934091, 4069282560, 486556235, []);
    assert [115] + [] == [115];
    HashEnds([109, 121, 112, 97, 115, 115], Hash(4018934091, 3639791262, 676));
  }

  lemma HashOfPassXors()
    ensures Xor(1345345333, 811028288) == 1617369205 && Xor(878080256, 1617369205) == 1412524405
    ensures Xor(1617369205, 1729672748) == 125808217 && Xor(1707075072, 125808217) == 1656768601
    ensures Xor(125808217, 2142160195) == 2026990362 && Xor(638074624, 2026990362) == 1591301146
    ensures Xor(2026990362, 3513498207) == 2847592773 && Xor(4284242176, 2847592773) == 1457948741
  {
  }

  /** The password of the scramble below, a blank and "pass". */
  lemma HashOfPass()
    ensures PwHash([32, 112, 97, 115, 115]) == (0x29bad145, 0x7ee5e49e)
  {
    HashOfPassXors();
    hide Xor, HashFrom, HashByte, PwHash;
    BlankStep(Hash(1345345333, 305419889, 7), 32, [112, 97, 115, 115]);
    assert [32] + [112, 97, 115, 115] == [32, 112, 97, 115, 115];
    HashStep(Hash(1345345333, 305419889, 7), 112, 811028288, 1617369205, 878080256, 1412524405, [97, 115, 115]);
    assert [112] + [97, 115, 115] == [112, 97, 115, 115];
    HashStep(Hash(1617369205, 1717944294, 119), 97, 1729672748, 125808217, 1707075072, 1656768601, [115, 115]);
    assert [97] + [115, 115] == [97, 115, 115];
    HashStep(Hash(125808217, 3374712895, 216), 115, 2142160195, 2026990362, 638074624, 1591301146, [115]);
    assert [115] + [115] == [115, 115];
    HashStep(Hash(2026990362, 671046745, 331), 115, 3513498207, 2847592773, 4284242176, 1457948741, []);
    assert [115] + [] == [115];
    HashEnds([32, 112, 97, 115, 115], Hash(2847592773, 2128995486, 446));
  }

  lemma HashOfScrambleXors()
    ensures Xor(1345345333, 811022048) == 1617387989 && Xor(878080256, 1617387989) == 1412501717
    ensures Xor(1617387989, 1734465020) == 117879849 && Xor(1701266944, 117879849) == 1650586153
    ensures Xor(117879849, 112470650) == 28483155 && Xor(3344527104, 28483155) == 3337351507
    ensures Xor(28483155, 2996720619) == 3006057912 && Xor(3008020992, 3006057912) == 6688696
    ensures Xor(3006057912, 751679844) == 2682352860 && Xor(425359872, 2682352860) == 2260405980
    ensures Xor(2682352860, 3782532291) == 2123737119 && Xor(3563673088, 2123737119) == 2868706847
    ensures Xor(2123737119, 2510823310) == 3946690449 && Xor(3513218304, 3946690449) == 979026577
  {
  }

  /** Its challenge. */
  lemma HashOfScramble()
    ensures PwHash([9, 8, 7, 6, 5, 4, 3, 2]) == (0x6b3db791, 0x7c2c2a06)
  {
    HashOfScrambleXors();
    hide Xor, HashFrom, HashByte, PwHash;
    BlankStep(Hash(1345345333, 305419889, 7), 9, [8, 7, 6, 5, 4, 3, 2]);
    assert [9] + [8, 7, 6, 5, 4, 3, 2] == [9, 8, 7, 6, 5, 4, 3, 2];
    HashStep(Hash(1345345333, 305419889, 7), 8, 811022048, 1617387989, 878080256, 1412501717, [7, 6, 5, 4, 3, 2]);
    assert [8] + [7, 6, 5, 4, 3, 2] == [8, 7, 6, 5, 4, 3, 2];
    HashStep(Hash(1617387989, 1717921606, 15), 7, 1734465020, 117879849, 1701266944, 1650586153, [6, 5, 4, 3, 2]);
    assert [7] + [6, 5, 4, 3, 2] == [7, 6, 5, 4, 3, 2];
    HashStep(Hash(117879849, 3368507759, 22), 6, 112470650, 28483155, 3344527104, 3337351507, [5, 4, 3, 2]);
    assert [6] + [5, 4, 3, 2] == [6, 5, 4, 3, 2];
    HashStep(Hash(28483155, 2410891970, 28), 5, 2996720619, 3006057912, 3008020992, 6688696, [4, 3, 2]);
    assert [5] + [4, 3, 2] == [5, 4, 3, 2];
    HashStep(Hash(3006057912, 2417580666, 33), 4, 751679844, 2682352860, 425359872, 2260405980, [3, 2]);
    assert [4] + [3, 2] == [4, 3, 2];
    HashStep(Hash(2682352860, 383019350, 37), 3, 3782532291, 2123737119, 3563673088, 2868706847, [2]);
    assert [3] + [2] == [3, 2];
    HashStep(Hash(2123737119, 3251726197, 40), 2, 2510823310, 3946690449, 3513218304, 979026577, []);
    assert [2] + [] == [2];
    HashEnds([9, 8, 7, 6, 5, 4, 3, 2], Hash(3946690449, 4230752774, 42));
  }

  ghost function KnownSeeds(): seq<Seeds> {
    [Seeds(42428117, 46780056), Seeds(174064407, 220844496), Seeds(743037717, 963882246),
     Seeds(1045511751, 935652207), Seeds(850961991, 712872408), Seeds(44532912, 757405353),
     Seeds(891004089, 574667652), Seeds(26454450, 601122135), Seeds(680485485, 207865830),
     Seeds(101838639, 309704502)]
  }

  lemma KnownMix()
    ensures Mixed([9, 8, 7, 6, 5, 4, 3, 2], [32, 112, 97, 115, 115]) == KnownSeeds()[0]
  {
    HashOfPass();
    HashOfScramble();
    assert [9, 8, 7, 6, 5, 4, 3, 2][..8] == [9, 8, 7, 6, 5, 4, 3, 2];
    assert Xor(0x29bad145, 0x6b3db791) == 1116169940 && Xor(0x7ee5e49e, 0x7c2c2a06) == 46780056;
    hide PwHash, Xor;
  }

  lemma KnownStates(k: nat)
    requires k < 9
    ensures NextSeeds(KnownSeeds()[k]) == KnownSeeds()[k + 1] && ByteAt(KnownSeeds()[k]) == [5, 21, 30, 24, 1, 25, 0, 19, 2][k]
  {
  }

  lemma {:induction false} KnownRun(k: nat)
    requires k <= 9
    ensures SeedsAfter(KnownSeeds()[0], k) == KnownSeeds()[k]
  {
    hide NextSeeds, KnownSeeds;
    if k > 0 {
      KnownRun(k - 1);
      KnownStates(k - 1);
    }
  }

  /** A known pair: for the challenge 09 08 07 06 05 04 03 02 and " pass" the generator gives these nine bytes, */
  lemma KnownScramble(k: nat)
    requires k < 9
    ensures ByteAt(SeedsAfter(Mixed([9, 8, 7, 6, 5, 4, 3, 2], [32, 112, 97, 115, 115]), k)) == [5, 21, 30, 24, 1, 25, 0, 19, 2][k]
  {
    KnownMix();
    KnownRun(k);
    KnownStates(k);
    hide Mixed, SeedsAfter, ByteAt, KnownSeeds;
  }

  /** and the first eight above 64, masked with the ninth, are the scramble 47 57 5c 5a 43 5b 42 51. */
  lemma KnownBytes()
    ensures XorByte(69, 2) == 71 && XorByte(85, 2) == 87 && XorByte(94, 2) == 92 && XorByte(88, 2) == 90
    ensures XorByte(65, 2) == 67 && XorByte(89, 2) == 91 && XorByte(64, 2) == 66 && XorByte(83, 2) == 81
  {
  }
}
