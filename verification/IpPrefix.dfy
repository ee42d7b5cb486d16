/**
 Address prefixes (base/ipaddress.cc): truncation, counting the bits of a mask, and addresses mapped from
 version 4 to version 6 as in section 2.5.5.2 of RFC 4291.

 A machine word is its bits, the most significant first, with the operators of the source on them.  Words
 are in host order; families other than the two of IP are one value.
 */
module IpPrefix {
  import opened Basics

  // ---------------------------------------------------------------- machine words

  type Word = w: seq<bool> | |w| == 32 witness seq(32, _ => false)

  /** The word 0, and the word 0xFFFFFFFF. */
  function Repeated(bit: bool): Word {
    seq(32, _ => bit)
  }

  function And(a: Word, b: Word): Word {
    seq(32, i requires 0 <= i < 32 => a[i] && b[i])
  }

  function Not(a: Word): Word {
    seq(32, i requires 0 <= i < 32 => !a[i])
  }

  /** The bits move up by `n`, zeros come in. */
  function ShiftLeft(a: Word, n: nat): Word {
    seq(32, i requires 0 <= i < 32 => i + n < 32 && a[i + n])
  }

  /** Adding one, without the carry out of the top. */
  function Increment(a: seq<bool>): (r: seq<bool>)
    ensures |r| == |a|
  {
    if a == [] then []
    else
      var front, last := a[..|a| - 1], a[|a| - 1];
      if last then Increment(front) + [false] else front + [true]
  }

  /** Adding one sets the last clear bit and clears all after it. */
  lemma {:induction false} IncrementFrom(a: seq<bool>, p: nat)
    requires p < |a| && !a[p] && forall i | p < i < |a| :: a[i]
    ensures var r := Increment(a); r[..p] == a[..p] && r[p] && forall i | p < i < |a| :: !r[i]
  {
    if p < |a| - 1 {
      var front := a[..|a| - 1];
      IncrementFrom(front, p);
      assert front[..p] == a[..p];
      assert Increment(a)[..p] == Increment(front)[..p];
    }
  }

  // ---------------------------------------------------------------- addresses

  datatype Address = Unspecified | V4(word: Word) | V6(words: seq<Word>)

  type IPAddress = a: Address | a.V6? ==> |a.words| == 4 witness Unspecified

  /** The bits of an address. */
  function Bits(ip: IPAddress): seq<bool> {
    match ip
    case Unspecified => []
    case V4(word) => word
    case V6(words) => var all: seq<seq<bool>> := words; all[0] + all[1] + all[2] + all[3]
  }

  /** The first `n` bits kept, the others cleared. */
  function Keep(bits: seq<bool>, n: int): (r: seq<bool>)
    ensures |r| == |bits|
  {
    seq(|bits|, i requires 0 <= i < |bits| => i < n && bits[i])
  }

  function Truncate(ip: IPAddress, length: nat): IPAddress {
    match ip
    case Unspecified => Unspecified
    case V4(word) => V4(Keep(word, length))
    case V6(words) =>
      V6([Keep(words[0], length), Keep(words[1], length - 32),
          Keep(words[2], length - 64), Keep(words[3], length - 96)])
  }

  /** Truncation keeps exactly the leading bits, over all the words. */
  lemma TruncateKeepsLeadingBits(ip: IPAddress, length: nat)
    ensures Bits(Truncate(ip, length)) == Keep(Bits(ip), length)
  {
  }

  lemma KeepTwice(bits: seq<bool>, a: int, b: int)
    ensures Keep(Keep(bits, a), b) == Keep(bits, Min(a, b))
  {
  }

  /** An address is its family and its bits. */
  lemma BitsDetermine(x: IPAddress, y: IPAddress)
    requires (x.V4? <==> y.V4?) && (x.V6? <==> y.V6?) && Bits(x) == Bits(y)
    ensures x == y
  {
    if x.V6? {
      var b, c := Bits(x), Bits(y);
      assert x.words[0] == b[..32] && y.words[0] == c[..32];
      assert x.words[1] == b[32..64] && y.words[1] == c[32..64];
      assert x.words[2] == b[64..96] && y.words[2] == c[64..96];
      assert x.words[3] == b[96..] && y.words[3] == c[96..];
    }
  }

  lemma TruncateTwice(ip: IPAddress, a: nat, b: nat)
    ensures Truncate(Truncate(ip, a), b) == Truncate(ip, Min(a, b))
  {
    TruncateKeepsLeadingBits(ip, a);
    TruncateKeepsLeadingBits(Truncate(ip, a), b);
    TruncateKeepsLeadingBits(ip, Min(a, b));
    KeepTwice(Bits(ip), a, b);
    BitsDetermine(Truncate(Truncate(ip, a), b), Truncate(ip, Min(a, b)));
  }

  // ---------------------------------------------------------------- counting mask bits

  /** One more than the position of the last bit that is set; 0 if none is. */
  function AfterLastSet(w: seq<bool>): (n: nat)
    ensures n <= |w| && (n > 0 ==> w[n - 1]) && forall i | n <= i < |w| :: !w[i]
  {
    if w == [] then 0 else if w[|w| - 1] then |w| else AfterLastSet(w[..|w| - 1])
  }

  function LeadingOnes(ws: seq<Word>): (n: nat)
    ensures n <= |ws| && (forall i | 0 <= i < n :: ws[i] == Repeated(true)) && (n < |ws| ==> ws[n] != Repeated(true))
  {
    if ws != [] && ws[0] == Repeated(true) then 1 + LeadingOnes(ws[1..]) else 0
  }

  /** The words that are all ones, and the last bit set in the word after them. */
  function MaskBits(ip: IPAddress): nat {
    match ip
    case Unspecified => 0
    case V4(word) => AfterLastSet(word)
    case V6(words) =>
      var n := LeadingOnes(words);
      32 * n + if n < 4 then AfterLastSet(words[n]) else 0
  }

  function AllOnes4(): IPAddress {
    V4(Repeated(true))
  }

  function AllOnes6(): IPAddress {
    V6([Repeated(true), Repeated(true), Repeated(true), Repeated(true)])
  }

  lemma PrefixWord(n: int)
    ensures AfterLastSet(Keep(Repeated(true), n)) == if n < 0 then 0 else Min(n, 32)
    ensures Keep(Repeated(true), n) == Repeated(true) <==> n >= 32
  {
    var w := Keep(Repeated(true), n);
    if n < 32 {
      assert !w[31];
    }
    if n > 0 {
      assert w[Min(n, 32) - 1];
    }
  }

  lemma LeadingOnesAre(ws: seq<Word>, n: nat)
    requires n <= |ws| && (forall i | 0 <= i < n :: ws[i] == Repeated(true)) && (n < |ws| ==> ws[n] != Repeated(true))
    ensures LeadingOnes(ws) == n
  {
  }

  /** Counting undoes making a mask. */
  lemma CountOfPrefix(k: nat)
    ensures MaskBits(Truncate(AllOnes4(), k)) == Min(k, 32)
    ensures MaskBits(Truncate(AllOnes6(), k)) == Min(k, 128)
  {
    PrefixWord(k);
    PrefixWord(k - 32);
    PrefixWord(k - 64);
    PrefixWord(k - 96);
    LeadingOnesAre(Truncate(AllOnes6(), k).words, Min(k / 32, 4));
  }

  /** So an address whose bits are `k` ones and then zeros counts as `k`. */
  lemma CountOfMask(ip: IPAddress, k: nat)
    requires k <= |Bits(ip)| && Bits(ip) == Keep(seq(|Bits(ip)|, _ => true), k)
    ensures MaskBits(ip) == k
  {
    if ip.V4? {
      assert ip == Truncate(AllOnes4(), k);
      CountOfPrefix(k);
    } else if ip.V6? {
      TruncateKeepsLeadingBits(AllOnes6(), k);
      assert Bits(AllOnes6()) == seq(128, _ => true);
      BitsDetermine(ip, Truncate(AllOnes6(), k));
      CountOfPrefix(k);
    }
  }

  /** The bit set in `w & (~w + 1)` is the last one set in `w`. */
  lemma LowestSetBit(w: Word)
    requires w != Repeated(false)
    ensures var n := AfterLastSet(w); n > 0 && And(w, Increment(Not(w))) == seq(32, i => i == n - 1)
  {
    var n := AfterLastSet(w);
    assert !(forall i | 0 <= i < 32 :: w[i] == Repeated(false)[i]);
    IncrementFrom(Not(w), n - 1);
    var r := Increment(Not(w));
    forall i | 0 <= i < n - 1
      ensures r[i] == !w[i]
    {
      assert r[i] == r[..n - 1][i];
    }
  }

  /** 0x0000FFFF, 0x00FF00FF, 0x0F0F0F0F, 0x33333333 and 0x55555555, for 16, 8, 4, 2 and 1. */
  function Stripes(width: nat): Word
    requires width > 0
  {
    seq(32, i requires 0 <= i => i / width % 2 == 1)
  }

  function OneBit(p: nat): Word {
    seq(32, i => i == p)
  }

  lemma InStripes(p: nat, width: nat)
    requires p < 32 && width > 0
    ensures Meets(p, width) <==> p / width % 2 == 1
  {
    var r := And(OneBit(p), Stripes(width));
    assert r[p] == (p / width % 2 == 1);
    if p / width % 2 != 1 {
      assert r == Repeated(false);
    }
  }

  lemma Binary(p: nat)
    requires p < 32
    ensures p == p / 16 % 2 * 16 + p / 8 % 2 * 8 + p / 4 % 2 * 4 + p / 2 % 2 * 2 + p / 1 % 2
  {
  }

  predicate Meets(p: nat, width: nat)
    requires width > 0
  {
    And(OneBit(p), Stripes(width)) != Repeated(false)
  }

  function Weight(b: bool, n: nat): nat {
    if b then n else 0
  }

  lemma PositionFromStripes(p: nat)
    requires p < 32
    ensures p == Weight(Meets(p, 16), 16) + Weight(Meets(p, 8), 8) + Weight(Meets(p, 4), 4)
              + Weight(Meets(p, 2), 2) + Weight(Meets(p, 1), 1)
  {
    Binary(p);
    InStripes(p, 16);
    InStripes(p, 8);
    InStripes(p, 4);
    InStripes(p, 2);
    InStripes(p, 1);
  }

  /** Counts the zeros after the last bit set: the masks the bit falls in are its position in binary. */
  method TrailingZeros(w: Word) returns (zeros: nat)
    requires w != Repeated(false)
    ensures zeros == 32 - AfterLastSet(w)
  {
    zeros := 32;
    var low := And(w, Increment(Not(w)));
    ghost var p := AfterLastSet(w) - 1;
    LowestSetBit(w);
    assert low == OneBit(p) && low[p];
    PositionFromStripes(p);
    if low != Repeated(false) {
      zeros := zeros - 1;
    }
    if And(low, Stripes(16)) != Repeated(false) {
      zeros := zeros - 16;
    }
    if And(low, Stripes(8)) != Repeated(false) {
      zeros := zeros - 8;
    }
    if And(low, Stripes(4)) != Repeated(false) {
      zeros := zeros - 4;
    }
    if And(low, Stripes(2)) != Repeated(false) {
      zeros := zeros - 2;
    }
    if And(low, Stripes(1)) != Repeated(false) {
      zeros := zeros - 1;
    }
  }

  method CountIPMaskBits(mask: IPAddress) returns (count: nat)
    ensures count == MaskBits(mask)
  {
    var word := Repeated(false);
    var bits := 0;
    match mask {
      case V4(w) =>
        word := w;
      case V6(words) =>
        var i := 0;
        while i < 4
          invariant i <= 4 && forall j | 0 <= j < i :: words[j] == Repeated(true)
        {
          if words[i] != Repeated(true) {
            break;
          }
          i := i + 1;
        }
        LeadingOnesAre(words, i);
        if i < 4 {
          word := words[i];
        }
        bits := i * 32;
      case Unspecified =>
        return 0;
    }
    if word == Repeated(false) {
      return bits;
    }
    var zeros := TrailingZeros(word);
    return bits + (32 - zeros);
  }

  // ---------------------------------------------------------------- truncation

  /** Masking with ones shifted up clears the bits below. */
  lemma MaskedIsKept(w: Word, n: nat)
    requires n <= 32
    ensures And(w, ShiftLeft(Repeated(true), 32 - n)) == Keep(w, n)
  {
  }

  lemma KeepAllOrNone(w: Word, n: int)
    ensures n >= 32 ==> Keep(w, n) == w
    ensures n <= 0 ==> Keep(w, n) == Repeated(false)
  {
  }

  method TruncateIP(ip: IPAddress, length: int) returns (r: IPAddress)
    ensures r == if length < 0 then Unspecified else Truncate(ip, length)
  {
    if length < 0 {
      return Unspecified;
    }
    match ip {
      case V4(word) =>
        KeepAllOrNone(word, length);
        if length > 31 {
          return ip;
        }
        if length == 0 {
          return V4(Repeated(false));
        }
        MaskedIsKept(word, length);
        return V4(And(word, ShiftLeft(Repeated(true), 32 - length)));
      case V6(words) =>
        r := TruncateV6(words, length);
      case Unspecified =>
        return Unspecified;
    }
  }

  method TruncateV6(words: seq<Word>, length: nat) returns (r: IPAddress)
    requires |words| == 4
    ensures r == Truncate(V6(words), length)
  {
    if length > 127 {
      KeepWords(words, length);
      return V6(words);
    }
    if length == 0 {
      KeepWords(words, length);
      return V6([Repeated(false), Repeated(false), Repeated(false), Repeated(false)]);
    }
    var position := length / 32;
    var innerLength := 32 - (length - 32 * position);
    var innerMask := ShiftLeft(Repeated(true), innerLength);
    var v6 := words;
    for i := 0 to 4
      invariant |v6| == 4
      invariant forall j | 0 <= j < 4 :: v6[j] == if j < i then Keep(words[j], length - 32 * j) else words[j]
    {
      WordPosition(length, position, i);
      KeepAllOrNone(words[i], length - 32 * i);
      if i == position {
        MaskedIsKept(words[i], length - 32 * i);
        v6 := v6[i := And(v6[i], innerMask)];
      } else if i > position {
        v6 := v6[i := Repeated(false)];
      }
    }
    return V6(v6);
  }

  lemma WordPosition(length: nat, position: nat, i: nat)
    requires position == length / 32
    ensures i < position ==> length - 32 * i >= 32
    ensures i == position ==> 0 <= length - 32 * i < 32
    ensures i > position ==> length - 32 * i <= 0
  {
  }

  lemma KeepWords(words: seq<Word>, length: nat)
    requires |words| == 4
    ensures length > 127 ==> Truncate(V6(words), length) == V6(words)
    ensures length == 0 ==>
              Truncate(V6(words), 0) == V6([Repeated(false), Repeated(false), Repeated(false), Repeated(false)])
  {
    KeepAllOrNone(words[0], length);
    KeepAllOrNone(words[1], length - 32);
    KeepAllOrNone(words[2], length - 64);
    KeepAllOrNone(words[3], length - 96);
  }

  // ---------------------------------------------------------------- version 4 inside version 6

  /** The 96 bits before a mapped address: eighty zeros and sixteen ones. */
  function MappedPrefix(): seq<Word> {
    [Repeated(false), Repeated(false), Stripes(16)]
  }

  predicate IsV4Mapped(words: seq<Word>)
    requires |words| == 4
  {
    words[..3] == MappedPrefix()
  }

  function AsIPv6Address(ip: IPAddress): IPAddress {
    if ip.V4? then V6(MappedPrefix() + [ip.word]) else ip
  }

  function Normalized(ip: IPAddress): IPAddress {
    if ip.V6? && IsV4Mapped(ip.words) then V4(ip.words[3]) else ip
  }

  /** Normalizing undoes mapping, and mapping undoes normalizing, but for addresses that were of the other
      version to begin with. */
  lemma MappingRoundTrip(ip: IPAddress)
    ensures Normalized(AsIPv6Address(ip)) == ip <==> !(ip.V6? && IsV4Mapped(ip.words))
    ensures AsIPv6Address(Normalized(ip)) == ip <==> !ip.V4?
  {
    if ip.V6? && IsV4Mapped(ip.words) {
      assert ip.words == MappedPrefix() + [ip.words[3]];
    }
  }

  /** A prefix of a version 4 address is a prefix, longer by 96, of the mapped address. */
  lemma TruncateMapped(w: Word, n: nat)
    ensures AsIPv6Address(Truncate(V4(w), n)) == Truncate(AsIPv6Address(V4(w)), 96 + n)
  {
    var words := AsIPv6Address(V4(w)).words;
    KeepAllOrNone(words[0], 96 + n);
    KeepAllOrNone(words[1], 64 + n);
    KeepAllOrNone(words[2], 32 + n);
    assert Truncate(AsIPv6Address(V4(w)), 96 + n).words == words[..3] + [Keep(w, n)];
  }

  // ---------------------------------------------------------------- order

  /** The number that the bits are. */
  function Value(bits: seq<bool>): nat {
    if bits == [] then 0 else 2 * Value(bits[..|bits| - 1]) + if bits[|bits| - 1] then 1 else 0
  }

  /** The bytes that the bits are in memory, in network order. */
  function Octets(bits: seq<bool>): seq<nat> {
    if |bits| < 8 then [] else [Value(bits[..8])] + Octets(bits[8..])
  }

  /** memcmp, for two ranges of the same length. */
  function Memcmp(x: seq<nat>, y: seq<nat>): int
    requires |x| == |y|
  {
    if x == [] then 0 else if x[0] != y[0] then x[0] - y[0] else Memcmp(x[1..], y[1..])
  }

  lemma {:induction false} OctetsLength(bits: seq<bool>)
    ensures |Octets(bits)| == |bits| / 8
  {
    if |bits| >= 8 {
      OctetsLength(bits[8..]);
    }
  }

  function Family(ip: IPAddress): nat {
    match ip
    case Unspecified => 0
    case V4(_) => 1
    case V6(_) => 2
  }

  /** IPAddress::operator<. */
  predicate LessThan(a: IPAddress, b: IPAddress) {
    if Family(a) != Family(b) then a.Unspecified? || (a.V4? && b.V6?)
    else
      match a
      case V4(word) => Value(word) < Value(b.word)
      case V6(_) => OctetsLength(Bits(a)); OctetsLength(Bits(b)); Memcmp(Octets(Bits(a)), Octets(Bits(b))) < 0
      case Unspecified => false
  }

  /** IPAddress::operator>. */
  predicate GreaterThan(a: IPAddress, b: IPAddress) {
    a != b && !LessThan(a, b)
  }

  /** The bits are the same up to one that is clear in `a` and set in `b`. */
  ghost predicate Before(a: seq<bool>, b: seq<bool>) {
    exists i :: BeforeAt(a, b, i)
  }

  predicate BeforeAt(a: seq<bool>, b: seq<bool>, i: int) {
    0 <= i < |a| && i < |b| && a[..i] == b[..i] && !a[i] && b[i]
  }

  /** Bits come before others in their first part, or in what follows it. */
  lemma BeforeJoined(p: seq<bool>, x: seq<bool>, q: seq<bool>, y: seq<bool>)
    requires |p| == |q|
    ensures Before(p + x, q + y) <==> Before(p, q) || (p == q && Before(x, y))
  {
    if i :| BeforeAt(p, q, i) {
      assert (p + x)[..i] == p[..i] && (q + y)[..i] == q[..i];
      assert BeforeAt(p + x, q + y, i);
    }
    if p == q && Before(x, y) {
      var i :| BeforeAt(x, y, i);
      assert (p + x)[..|p| + i] == p + x[..i] && (q + y)[..|p| + i] == q + y[..i];
      assert BeforeAt(p + x, q + y, |p| + i);
    }
    if i :| BeforeAt(p + x, q + y, i) {
      BeforeSplit(p, x, q, y, i);
    }
  }

  lemma BeforeSplit(p: seq<bool>, x: seq<bool>, q: seq<bool>, y: seq<bool>, i: int)
    requires |p| == |q| && BeforeAt(p + x, q + y, i)
    ensures Before(p, q) || (p == q && Before(x, y))
  {
    var u, v := p + x, q + y;
    if i < |p| {
      assert u[..i] == p[..i] && v[..i] == q[..i];
      assert BeforeAt(p, q, i);
    } else {
      var j := i - |p|;
      assert p == u[..i][..|p|] && q == v[..i][..|p|];
      assert x[..j] == u[..i][|p|..] && y[..j] == v[..i][|p|..];
      assert BeforeAt(x, y, j);
    }
  }

  lemma BeforeOne(a: bool, b: bool)
    ensures Before([a], [b]) <==> !a && b
  {
    if !a && b {
      assert BeforeAt([a], [b], 0);
    }
  }

  /** Comparing numbers is comparing bits. */
  lemma {:induction false} ValueOrder(a: seq<bool>, b: seq<bool>)
    requires |a| == |b|
    ensures Value(a) < Value(b) <==> Before(a, b)
    ensures Value(a) == Value(b) <==> a == b
  {
    if a != [] {
      var n := |a| - 1;
      ValueOrder(a[..n], b[..n]);
      assert a == a[..n] + [a[n]] && b == b[..n] + [b[n]];
      BeforeJoined(a[..n], [a[n]], b[..n], [b[n]]);
      BeforeOne(a[n], b[n]);
    }
  }

  /** So is comparing bytes in network order. */
  lemma {:induction false} OctetOrder(a: seq<bool>, b: seq<bool>)
    requires |a| == |b| && |a| % 8 == 0 && |Octets(a)| == |Octets(b)|
    ensures Memcmp(Octets(a), Octets(b)) < 0 <==> Before(a, b)
    decreases |a|
  {
    if a != [] {
      OctetsLength(a[8..]);
      OctetsLength(b[8..]);
      OctetOrder(a[8..], b[8..]);
      ValueOrder(a[..8], b[..8]);
      assert a == a[..8] + a[8..] && b == b[..8] + b[8..];
      BeforeJoined(a[..8], a[8..], b[..8], b[8..]);
    }
  }

  /** Addresses are ordered by family, and within a family by their bits. */
  lemma OrderIsByBits(a: IPAddress, b: IPAddress)
    ensures LessThan(a, b) <==> Family(a) < Family(b) || (Family(a) == Family(b) && Before(Bits(a), Bits(b)))
  {
    if a.V4? && b.V4? {
      ValueOrder(a.word, b.word);
    } else if a.V6? && b.V6? {
      OctetsLength(Bits(a));
      OctetsLength(Bits(b));
      OctetOrder(Bits(a), Bits(b));
    }
  }

  lemma BeforeTransitive(a: seq<bool>, b: seq<bool>, c: seq<bool>)
    requires Before(a, b) && Before(b, c)
    ensures Before(a, c)
  {
    var i :| BeforeAt(a, b, i);
    var j :| BeforeAt(b, c, j);
    if i < j {
      assert c[..i] == c[..j][..i] == b[..j][..i] == b[..i];
      assert b[i] == b[..j][i] == c[..j][i] == c[i];
      assert BeforeAt(a, c, i);
    } else {
      assert j != i;
      assert a[..j] == a[..i][..j] == b[..i][..j] == b[..j];
      assert a[j] == a[..i][j] == b[..i][j] == b[j];
      assert BeforeAt(a, c, j);
    }
  }

  lemma NotBoth(a: seq<bool>, b: seq<bool>)
    requires Before(a, b)
    ensures a != b && !Before(b, a)
  {
    var i :| BeforeAt(a, b, i);
    forall j
      ensures !BeforeAt(b, a, j)
    {
      if i < j < |a| && j < |b| {
        assert b[..j][i] == b[i] && a[..j][i] == a[i];
      }
      if 0 <= j < i {
        assert b[..i][j] == b[j] && a[..i][j] == a[j];
      }
    }
  }

  lemma {:induction false} OneOrTheOther(a: seq<bool>, b: seq<bool>)
    requires |a| == |b| && a != b
    ensures Before(a, b) || Before(b, a)
  {
    if a[0] != b[0] {
      assert a[..0] == b[..0];
      assert BeforeAt(a, b, 0) || BeforeAt(b, a, 0);
    } else {
      assert a == [a[0]] + a[1..] && b == [b[0]] + b[1..];
      OneOrTheOther(a[1..], b[1..]);
      BeforeJoined([a[0]], a[1..], [b[0]], b[1..]);
      BeforeJoined([b[0]], b[1..], [a[0]], a[1..]);
    }
  }

  /** An address is its family and its bits. */
  lemma BitsInjective(a: IPAddress, b: IPAddress)
    requires Family(a) == Family(b) && Bits(a) == Bits(b)
    ensures a == b
  {
    if a.V6? {
      WordsOfBits(a.words);
      WordsOfBits(b.words);
    }
  }

  lemma WordsOfBits(words: seq<Word>)
    requires |words| == 4
    ensures var bits := Bits(V6(words)); words == [bits[..32], bits[32..64], bits[64..96], bits[96..]]
  {
    var bits := Bits(V6(words));
    assert bits[..32] == words[0] && bits[32..64] == words[1] && bits[64..96] == words[2] && bits[96..] == words[3];
  }

  /** operator< is a strict total order that agrees with operator==, and operator> is its converse. */
  lemma OrderIsStrictAndTotal(a: IPAddress, b: IPAddress, c: IPAddress)
    ensures !LessThan(a, a)
    ensures LessThan(a, b) && LessThan(b, c) ==> LessThan(a, c)
    ensures a == b || LessThan(a, b) || LessThan(b, a)
    ensures LessThan(a, b) ==> a != b && !LessThan(b, a)
    ensures GreaterThan(a, b) <==> LessThan(b, a)
  {
    NeverBoth(a, a);
    NeverBoth(a, b);
    NeverBoth(b, a);
    Trichotomy(a, b);
    OrderTransitive(a, b, c);
  }

  lemma NeverBoth(a: IPAddress, b: IPAddress)
    ensures LessThan(a, b) ==> a != b && !LessThan(b, a)
  {
    OrderIsByBits(a, b);
    OrderIsByBits(b, a);
    if Before(Bits(a), Bits(b)) {
      NotBoth(Bits(a), Bits(b));
    }
  }

  lemma Trichotomy(a: IPAddress, b: IPAddress)
    ensures a == b || LessThan(a, b) || LessThan(b, a)
  {
    OrderIsByBits(a, b);
    OrderIsByBits(b, a);
    if Family(a) == Family(b) {
      if Bits(a) == Bits(b) {
        BitsInjective(a, b);
      } else {
        OneOrTheOther(Bits(a), Bits(b));
      }
    }
  }

  lemma OrderTransitive(a: IPAddress, b: IPAddress, c: IPAddress)
    ensures LessThan(a, b) && LessThan(b, c) ==> LessThan(a, c)
  {
    OrderIsByBits(a, b);
    OrderIsByBits(b, c);
    OrderIsByBits(a, c);
    if Before(Bits(a), Bits(b)) && Before(Bits(b), Bits(c)) {
      BeforeTransitive(Bits(a), Bits(b), Bits(c));
    }
  }
}
