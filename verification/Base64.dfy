/**
 Base64 (base/base64.cc): the table-driven encoder, and the decoder with its parse, padding and
 termination modes, against sections 3.5 and 4 of RFC 4648.

 Characters are bytes.  The shifts and masks of the source on values below 256 are written as division,
 remainder and, where the bits do not overlap, addition.
 */
module Base64Spec {
  import opened Basics

  type sextet = x: int | 0 <= x < 64

  const IL := 0xFF   // illegal character
  const SP := 0xFE   // whitespace
  const PD := 0xFD   // padding
  const PAD: byte := 61

  /** Base64Table: A-Z, a-z, 0-9, + and /. */
  function EncodeChar(v: sextet): byte {
    if v < 26 then 65 + v else if v < 52 then 97 + (v - 26)
    else if v < 62 then 48 + (v - 52) else if v == 62 then 43 else 47
  }

  /** DecodeTable. */
  function DecodeChar(c: byte): (v: int)
    ensures 0 <= v < 64 || v == IL || v == SP || v == PD
  {
    if 65 <= c <= 90 then c - 65
    else if 97 <= c <= 122 then c - 97 + 26
    else if 48 <= c <= 57 then c - 48 + 52
    else if c == 43 then 62
    else if c == 47 then 63
    else if c == PAD then PD
    else if 9 <= c <= 13 || c == 32 then SP
    else IL
  }

  predicate IsData(c: byte) {
    DecodeChar(c) < 64
  }

  lemma DecodeEncodeChar(v: sextet)
    ensures DecodeChar(EncodeChar(v)) == v
  {
  }

  lemma EncodeDecodeChar(c: byte)
    requires IsData(c)
    ensures EncodeChar(DecodeChar(c)) == c
  {
  }

  // ---------------------------------------------------------------- encoding

  /** The encoding of RFC 4648: groups of three bytes to four characters, the last one padded. */
  function Encode(bs: seq<byte>): seq<byte> {
    if bs == [] then []
    else if |bs| == 1 then
      [EncodeChar(bs[0] / 4), EncodeChar(bs[0] % 4 * 16), PAD, PAD]
    else if |bs| == 2 then
      [EncodeChar(bs[0] / 4), EncodeChar(bs[0] % 4 * 16 + bs[1] / 16), EncodeChar(bs[1] % 16 * 4), PAD]
    else
      Group(bs[0], bs[1], bs[2]) + Encode(bs[3..])
  }

  function Group(a: byte, b: byte, c: byte): seq<byte> {
    [EncodeChar(a / 4), EncodeChar(a % 4 * 16 + b / 16), EncodeChar(b % 16 * 4 + c / 64), EncodeChar(c % 64)]
  }

  lemma {:induction false} EncodeLength(bs: seq<byte>)
    ensures |Encode(bs)| == (|bs| + 2) / 3 * 4
    decreases |bs|
  {
    if |bs| >= 3 {
      EncodeLength(bs[3..]);
    }
  }

  // ---------------------------------------------------------------- decoding

  datatype Parse = Strict | White | AnyChar
  datatype Padding = Required | Optional | Forbidden
  datatype Term = AtBuffer | AtChar | AtBit

  /** `q` holds up to four values below 64; `rest` is what is left of the input. */
  datatype Quantum = Quantum(q: seq<sextet>, padded: bool, rest: seq<byte>)

  /** `padRest` is the input from the first pad on. */
  function Finish(q: seq<sextet>, pads: nat, padRest: seq<byte>, s: seq<byte>): Quantum {
    if |q| + pads == 4 then Quantum(q, true, s)
    else Quantum(q, false, if pads > 0 then padRest else s)
  }

  function NextQuantum(parse: Parse, illegalPads: bool, s: seq<byte>, q: seq<sextet>,
                       pads: nat, padRest: seq<byte>): Quantum
    decreases |s|
  {
    if |q| >= 4 || s == [] then Finish(q, pads, padRest, s)
    else
      var v := DecodeChar(s[0]);
      if v == IL || (illegalPads && v == PD) then
        if parse != AnyChar then Finish(q, pads, padRest, s)
        else NextQuantum(parse, illegalPads, s[1..], q, pads, padRest)
      else if v == SP then
        if parse == Strict then Finish(q, pads, padRest, s)
        else NextQuantum(parse, illegalPads, s[1..], q, pads, padRest)
      else if v == PD then
        if |q| < 2 || |q| + pads >= 4 then
          if parse != AnyChar then Finish(q, pads, padRest, s)
          else NextQuantum(parse, illegalPads, s[1..], q, pads, padRest)
        else NextQuantum(parse, illegalPads, s[1..], q, pads + 1, if pads == 0 then s else padRest)
      else if pads > 0 then
        if parse != AnyChar then Finish(q, pads, padRest, s)
        else NextQuantum(parse, illegalPads, s[1..], q + [v], 0, [])
      else NextQuantum(parse, illegalPads, s[1..], q + [v], 0, [])
  }

  function FirstQuantum(parse: Parse, illegalPads: bool, s: seq<byte>): Quantum {
    NextQuantum(parse, illegalPads, s, [], 0, [])
  }

  function At(q: seq<sextet>, i: nat): sextet {
    if i < |q| then q[i] else 0
  }

  function Byte0(q: seq<sextet>): byte {
    (At(q, 0) * 4) % 256 + At(q, 1) / 16 % 4
  }

  function Byte1(q: seq<sextet>): byte {
    At(q, 1) % 16 * 16 + At(q, 2) / 4 % 16
  }

  function Byte2(q: seq<sextet>): byte {
    At(q, 2) % 4 * 64 + At(q, 3)
  }

  /** The bytes a quantum stands for. */
  function BytesOf(q: seq<sextet>): seq<byte> {
    if |q| < 2 then [] else if |q| == 2 then [Byte0(q)]
    else if |q| == 3 then [Byte0(q), Byte1(q)] else [Byte0(q), Byte1(q), Byte2(q)]
  }

  /** The bits left over when it is short. */
  function LeftOver(q: seq<sextet>): int {
    if |q| < 2 then Byte0(q) else if |q| == 2 then Byte1(q) else if |q| == 3 then Byte2(q) else 0
  }

  datatype Decoded = Decoded(bytes: seq<byte>, ok: bool, rest: seq<byte>)

  /** Reading goes on only after a whole quantum, and always forward. */
  lemma {:induction false} QuantumProgress(parse: Parse, illegalPads: bool, s: seq<byte>, q: seq<sextet>,
                                           pads: nat, padRest: seq<byte>)
    requires |q| <= 4 && (|q| == 4 ==> pads == 0)
    ensures var r := NextQuantum(parse, illegalPads, s, q, pads, padRest);
            && |q| <= |r.q| <= 4
            && (|r.q| == 4 ==> |r.rest| <= |s| - (4 - |q|))
            && (|r.rest| <= |s| || (pads > 0 && r.rest == padRest))
    decreases |s|
  {
    if |q| < 4 && s != [] {
      var v := DecodeChar(s[0]);
      if v < 64 {
        QuantumProgress(parse, illegalPads, s[1..], q + [v], 0, []);
      } else {
        QuantumProgress(parse, illegalPads, s[1..], q, pads, padRest);
        QuantumProgress(parse, illegalPads, s[1..], q, pads + 1, if pads == 0 then s else padRest);
      }
    }
  }

  /** DecodeFromArrayTemplate on what is left of the input. */
  function Decode(parse: Parse, padding: Padding, term: Term, s: seq<byte>): Decoded
    decreases |s|
  {
    if s == [] then Decoded([], true, [])
    else
      var r := FirstQuantum(parse, padding == Forbidden, s);
      QuantumProgress(parse, padding == Forbidden, s, [], 0, []);
      if |r.q| < 4 then
        var ok := !(term != AtBit && LeftOver(r.q) != 0) && !(padding == Required && !r.padded);
        Decoded(BytesOf(r.q), ok && !(term == AtBuffer && r.rest != []), r.rest)
      else
        var d := Decode(parse, padding, term, r.rest);
        Decoded(BytesOf(r.q) + d.bytes, d.ok, d.rest)
  }

  function DecodeStrict(s: seq<byte>): Decoded {
    Decode(Strict, Required, AtBuffer, s)
  }

  // ---------------------------------------------------------------- strict decoding and the encoder

  /** Four data characters are a quantum, in every mode. */
  lemma FourData(parse: Parse, illegalPads: bool, s: seq<byte>)
    requires |s| >= 4 && IsData(s[0]) && IsData(s[1]) && IsData(s[2]) && IsData(s[3])
    ensures FirstQuantum(parse, illegalPads, s)
         == Quantum([DecodeChar(s[0]), DecodeChar(s[1]), DecodeChar(s[2]), DecodeChar(s[3])], true, s[4..])
  {
    ThreeData(parse, illegalPads, s);
    var q := [DecodeChar(s[0]), DecodeChar(s[1]), DecodeChar(s[2])];
    assert NextQuantum(parse, illegalPads, s[3..], q, 0, [])
        == NextQuantum(parse, illegalPads, s[3..][1..], q + [DecodeChar(s[3])], 0, []);
    assert s[3..][1..] == s[4..];
  }

  lemma TwoData(parse: Parse, illegalPads: bool, s: seq<byte>)
    requires |s| >= 2 && IsData(s[0]) && IsData(s[1])
    ensures FirstQuantum(parse, illegalPads, s)
         == NextQuantum(parse, illegalPads, s[2..], [DecodeChar(s[0]), DecodeChar(s[1])], 0, [])
  {
    assert NextQuantum(parse, illegalPads, s, [], 0, [])
        == NextQuantum(parse, illegalPads, s[1..], [] + [DecodeChar(s[0])], 0, []);
    var q := [DecodeChar(s[0])];
    assert [] + q == q;
    assert NextQuantum(parse, illegalPads, s[1..], q, 0, [])
        == NextQuantum(parse, illegalPads, s[1..][1..], q + [DecodeChar(s[1])], 0, []);
    assert q + [DecodeChar(s[1])] == [DecodeChar(s[0]), DecodeChar(s[1])];
    assert s[1..][1..] == s[2..];
  }

  lemma ThreeData(parse: Parse, illegalPads: bool, s: seq<byte>)
    requires |s| >= 3 && IsData(s[0]) && IsData(s[1]) && IsData(s[2])
    ensures FirstQuantum(parse, illegalPads, s)
         == NextQuantum(parse, illegalPads, s[3..], [DecodeChar(s[0]), DecodeChar(s[1]), DecodeChar(s[2])], 0, [])
  {
    TwoData(parse, illegalPads, s);
    var q := [DecodeChar(s[0]), DecodeChar(s[1])];
    assert NextQuantum(parse, illegalPads, s[2..], q, 0, [])
        == NextQuantum(parse, illegalPads, s[2..][1..], q + [DecodeChar(s[2])], 0, []);
    assert q + [DecodeChar(s[2])] == [DecodeChar(s[0]), DecodeChar(s[1]), DecodeChar(s[2])];
    assert s[2..][1..] == s[3..];
  }

  lemma TwoPads(s: seq<byte>)
    requires |s| == 4 && IsData(s[0]) && IsData(s[1]) && s[2] == PAD && s[3] == PAD
    ensures FirstQuantum(Strict, false, s) == Quantum([DecodeChar(s[0]), DecodeChar(s[1])], true, [])
  {
    TwoData(Strict, false, s);
    var q := [DecodeChar(s[0]), DecodeChar(s[1])];
    assert NextQuantum(Strict, false, s[2..], q, 0, []) == NextQuantum(Strict, false, s[2..][1..], q, 1, s[2..]);
    assert NextQuantum(Strict, false, s[3..], q, 1, s[2..]) == NextQuantum(Strict, false, s[3..][1..], q, 2, s[2..]);
    assert s[2..][1..] == s[3..] && s[3..][1..] == [];
  }

  lemma OnePad(s: seq<byte>)
    requires |s| == 4 && IsData(s[0]) && IsData(s[1]) && IsData(s[2]) && s[3] == PAD
    ensures FirstQuantum(Strict, false, s) == Quantum([DecodeChar(s[0]), DecodeChar(s[1]), DecodeChar(s[2])], true, [])
  {
    ThreeData(Strict, false, s);
    assert s[3..][1..] == [];
  }

  lemma Joined(a: byte, b: byte, c: byte)
    ensures a / 4 * 4 % 256 + (a % 4 * 16 + b / 16) / 16 % 4 == a
    ensures (a % 4 * 16 + b / 16) % 16 * 16 + (b % 16 * 4 + c / 64) / 4 % 16 == b
    ensures (b % 16 * 4 + c / 64) % 4 * 64 + c % 64 == c
  {
    assert (a % 4 * 16 + b / 16) / 16 == a % 4 && (a % 4 * 16 + b / 16) % 16 == b / 16;
    assert (b % 16 * 4 + c / 64) / 4 == b % 16 && (b % 16 * 4 + c / 64) % 4 == c / 64;
  }

  lemma GroupValues(a: byte, b: byte, c: byte)
    ensures BytesOf([a / 4, a % 4 * 16 + b / 16, b % 16 * 4 + c / 64, c % 64]) == [a, b, c]
  {
    Joined(a, b, c);
  }

  lemma TwoByteValues(a: byte, b: byte)
    ensures var q := [a / 4, a % 4 * 16 + b / 16, b % 16 * 4]; BytesOf(q) == [a, b] && LeftOver(q) == 0
  {
    Joined(a, b, 0);
  }

  lemma OneByteValues(a: byte)
    ensures var q := [a / 4, a % 4 * 16]; BytesOf(q) == [a] && LeftOver(q) == 0
  {
    Joined(a, 0, 0);
  }

  /** Strict decoding undoes encoding and uses all of it. */
  lemma {:induction false} DecodeEncode(bs: seq<byte>)
    ensures DecodeStrict(Encode(bs)) == Decoded(bs, true, [])
    decreases |bs|
  {
    if |bs| == 1 {
      DecodeEncodeChar(bs[0] / 4);
      DecodeEncodeChar(bs[0] % 4 * 16);
      TwoPads(Encode(bs));
      OneByteValues(bs[0]);
    } else if |bs| == 2 {
      DecodeEncodeChar(bs[0] / 4);
      DecodeEncodeChar(bs[0] % 4 * 16 + bs[1] / 16);
      DecodeEncodeChar(bs[1] % 16 * 4);
      OnePad(Encode(bs));
      TwoByteValues(bs[0], bs[1]);
    } else if |bs| >= 3 {
      DecodeGroup(bs[0], bs[1], bs[2], Encode(bs[3..]));
      DecodeEncode(bs[3..]);
      assert bs == [bs[0], bs[1], bs[2]] + bs[3..];
    }
  }

  lemma DecodeGroup(a: byte, b: byte, c: byte, rest: seq<byte>)
    ensures var d := DecodeStrict(rest);
            DecodeStrict(Group(a, b, c) + rest) == Decoded([a, b, c] + d.bytes, d.ok, d.rest)
  {
    var s := Group(a, b, c) + rest;
    DecodeEncodeChar(a / 4);
    DecodeEncodeChar(a % 4 * 16 + b / 16);
    DecodeEncodeChar(b % 16 * 4 + c / 64);
    DecodeEncodeChar(c % 64);
    FourData(Strict, false, s);
    GroupValues(a, b, c);
    assert s[4..] == rest;
  }

  /** What a character is to the parser, in any mode. */
  predicate Extends(s: seq<byte>, q: seq<sextet>, pads: nat) {
    s != [] && |q| < 4 && DecodeChar(s[0]) < 64 && pads == 0
  }

  predicate Pads(illegalPads: bool, s: seq<byte>, q: seq<sextet>, pads: nat) {
    s != [] && 2 <= |q| < 4 && |q| + pads < 4 && DecodeChar(s[0]) == PD && !illegalPads
  }

  lemma Reads(parse: Parse, illegalPads: bool, s: seq<byte>, q: seq<sextet>, pads: nat, padRest: seq<byte>)
    requires parse != AnyChar && (s == [] || DecodeChar(s[0]) != SP)
    ensures NextQuantum(parse, illegalPads, s, q, pads, padRest)
         == if Extends(s, q, pads) then NextQuantum(parse, illegalPads, s[1..], q + [DecodeChar(s[0])], 0, [])
            else if Pads(illegalPads, s, q, pads) then
              NextQuantum(parse, illegalPads, s[1..], q, pads + 1, if pads == 0 then s else padRest)
            else Finish(q, pads, padRest, s)
  {
  }

  /** After its first pad the strict parser reads nothing but pads. */
  lemma {:induction false} StrictPads(s: seq<byte>, q: seq<sextet>, pads: nat, padRest: seq<byte>)
    requires 2 <= |q| && 0 < pads <= 4 - |q|
    ensures var r := NextQuantum(Strict, false, s, q, pads, padRest);
            var p := 4 - |q| - pads;
            && r.q == q
            && (r.padded ==> p <= |s| && r.rest == s[p..] && forall i | 0 <= i < p :: s[i] == PAD)
    decreases |s|
  {
    if s != [] && DecodeChar(s[0]) == PD && |q| + pads < 4 {
      StrictPads(s[1..], q, pads + 1, padRest);
    }
  }

  /** What the strict parser has read when it finishes a quantum: data characters, then pads. */
  predicate StrictlyRead(s: seq<byte>, q: seq<sextet>, r: Quantum) {
    var k := |r.q| - |q|;
    && 0 <= k <= |s| && |r.q| <= 4 && r.q[..|q|] == q
    && (forall i | 0 <= i < k :: IsData(s[i]) && r.q[|q| + i] == DecodeChar(s[i]))
    && (r.padded ==> var p := 4 - |r.q|;
                     && p <= |s| - k && r.rest == s[k + p..] && (p > 0 ==> |r.q| >= 2)
                     && forall i | k <= i < k + p :: s[i] == PAD)
  }

  lemma {:induction false} StrictShape(s: seq<byte>, q: seq<sextet>)
    requires |q| <= 4
    ensures StrictlyRead(s, q, NextQuantum(Strict, false, s, q, 0, []))
    decreases |s|
  {
    if s != [] && DecodeChar(s[0]) == SP {
      StrictStops(s, q);
    } else {
      Reads(Strict, false, s, q, 0, []);
      if Extends(s, q, 0) {
        StrictShape(s[1..], q + [DecodeChar(s[0])]);
        OneMoreRead(s, q, NextQuantum(Strict, false, s, q, 0, []));
      } else if Pads(false, s, q, 0) {
        StrictPads(s[1..], q, 1, s);
        PadsRead(s, q, NextQuantum(Strict, false, s, q, 0, []));
      }
    }
  }

  lemma StrictStops(s: seq<byte>, q: seq<sextet>)
    requires |q| <= 4 && s != [] && DecodeChar(s[0]) == SP
    ensures StrictlyRead(s, q, NextQuantum(Strict, false, s, q, 0, []))
  {
    assert NextQuantum(Strict, false, s, q, 0, []) == Finish(q, 0, [], s);
  }

  /** One data character in front of what the rest of a quantum was read from. */
  lemma OneMoreRead(s: seq<byte>, q: seq<sextet>, r: Quantum)
    requires |q| < 4 && s != [] && IsData(s[0]) && StrictlyRead(s[1..], q + [DecodeChar(s[0])], r)
    ensures StrictlyRead(s, q, r)
  {
    var k := |r.q| - |q|;
    assert r.q[..|q|] == r.q[..|q| + 1][..|q|];
    assert r.q[|q|] == r.q[..|q| + 1][|q|];
    forall i | 1 <= i < k
      ensures IsData(s[i]) && r.q[|q| + i] == DecodeChar(s[i])
    {
      assert s[i] == s[1..][i - 1];
      assert r.q[|q| + 1 + (i - 1)] == DecodeChar(s[1..][i - 1]);
    }
    if r.padded {
      forall i | k <= i < 4 - |q|
        ensures s[i] == PAD
      {
        assert s[i] == s[1..][i - 1];
      }
    }
  }

  /** A pad in front of the other pads. */
  lemma PadsRead(s: seq<byte>, q: seq<sextet>, r: Quantum)
    requires 2 <= |q| < 4 && s != [] && s[0] == PAD && r.q == q
    requires r.padded ==> var p := 3 - |q|;
                          p <= |s| - 1 && r.rest == s[1..][p..] && forall i | 0 <= i < p :: s[1..][i] == PAD
    ensures StrictlyRead(s, q, r)
  {
    if r.padded {
      forall i | 1 <= i < 4 - |q|
        ensures s[i] == PAD
      {
        assert s[i] == s[1..][i - 1];
      }
    }
  }

  lemma Split0(a: sextet, b: sextet)
    ensures var x := a * 4 % 256 + b / 16 % 4; x / 4 == a && x % 4 == b / 16
  {
  }

  lemma Split1(b: sextet, c: sextet)
    ensures var x := b % 16 * 16 + c / 4 % 16; x / 16 == b % 16 && x % 16 == c / 4
  {
  }

  lemma Split2(c: sextet, d: sextet)
    ensures var x := c % 4 * 64 + d; x / 64 == c % 4 && x % 64 == d
  {
  }

  /** The bytes of a quantum encode to the characters it was read from. */
  lemma EncodeQuantum(q: seq<sextet>)
    requires |q| == 4
    ensures Group(Byte0(q), Byte1(q), Byte2(q))
         == [EncodeChar(q[0]), EncodeChar(q[1]), EncodeChar(q[2]), EncodeChar(q[3])]
  {
    var a, b, c := Byte0(q), Byte1(q), Byte2(q);
    assert a / 4 == q[0] && a % 4 == q[1] / 16 by { Split0(q[0], q[1]); }
    assert b / 16 == q[1] % 16 && b % 16 == q[2] / 4 by { Split1(q[1], q[2]); }
    assert c / 64 == q[2] % 4 && c % 64 == q[3] by { Split2(q[2], q[3]); }
    assert a % 4 * 16 + b / 16 == q[1];
    assert b % 16 * 4 + c / 64 == q[2];
  }

  lemma EncodeThree(q: seq<sextet>)
    requires |q| == 3 && LeftOver(q) == 0
    ensures Encode(BytesOf(q)) == [EncodeChar(q[0]), EncodeChar(q[1]), EncodeChar(q[2]), PAD]
  {
    var b := BytesOf(q);
    assert q[2] % 4 == 0;
    assert b[0] / 4 == q[0] && b[0] % 4 == q[1] / 16 by { Split0(q[0], q[1]); }
    assert b[1] / 16 == q[1] % 16 && b[1] % 16 == q[2] / 4 by { Split1(q[1], q[2]); }
    assert b[0] % 4 * 16 + b[1] / 16 == q[1];
    assert b[1] % 16 * 4 == q[2];
  }

  lemma EncodeTwo(q: seq<sextet>)
    requires |q| == 2 && LeftOver(q) == 0
    ensures Encode(BytesOf(q)) == [EncodeChar(q[0]), EncodeChar(q[1]), PAD, PAD]
  {
    var b := BytesOf(q);
    assert q[1] % 16 == 0;
    assert b[0] / 4 == q[0] && b[0] % 4 == q[1] / 16 by { Split0(q[0], q[1]); }
    assert b[0] % 4 * 16 == q[1];
  }

  /** The characters a strict quantum was read from, from its values. */
  lemma StrictCharacters(s: seq<byte>)
    ensures var r := FirstQuantum(Strict, false, s);
            && |r.q| <= |s| && |r.q| <= 4 && (forall i | 0 <= i < |r.q| :: IsData(s[i]) && s[i] == EncodeChar(r.q[i]))
            && (r.padded && r.rest == [] && |r.q| < 4 ==>
                  |s| == 4 && 2 <= |r.q| && forall i | |r.q| <= i < 4 :: s[i] == PAD)
  {
    var r := FirstQuantum(Strict, false, s);
    StrictShape(s, []);
    forall i | 0 <= i < |r.q|
      ensures EncodeChar(r.q[i]) == s[i]
    {
      EncodeDecodeChar(s[i]);
    }
  }

  lemma EncodeShort(s: seq<byte>)
    requires s != [] && DecodeStrict(s).ok && |FirstQuantum(Strict, false, s).q| < 4
    ensures Encode(DecodeStrict(s).bytes) == s && DecodeStrict(s).rest == []
  {
    var q := FirstQuantum(Strict, false, s).q;
    StrictCharacters(s);
    if |q| == 3 {
      EncodeThree(q);
      assert s == [s[0], s[1], s[2], s[3]];
    } else {
      EncodeTwo(q);
      assert s == [s[0], s[1], s[2], s[3]];
    }
  }

  /** Whatever strict decoding accepts is the encoding of what it returns. */
  lemma {:induction false} EncodeDecode(s: seq<byte>)
    requires DecodeStrict(s).ok
    ensures Encode(DecodeStrict(s).bytes) == s && DecodeStrict(s).rest == []
    decreases |s|
  {
    if s != [] {
      var q := FirstQuantum(Strict, false, s).q;
      StrictCharacters(s);
      if |q| == 4 {
        FourData(Strict, false, s);
        EncodeDecode(s[4..]);
        EncodeFour(s, q);
      } else {
        EncodeShort(s);
      }
    }
  }

  lemma EncodeFour(s: seq<byte>, q: seq<sextet>)
    requires |s| >= 4 && |q| == 4 && forall i | 0 <= i < 4 :: EncodeChar(q[i]) == s[i]
    requires Encode(DecodeStrict(s[4..]).bytes) == s[4..]
    ensures Encode(BytesOf(q) + DecodeStrict(s[4..]).bytes) == s
  {
    EncodeQuantum(q);
    EncodeGroup(q, DecodeStrict(s[4..]).bytes);
    assert s == [s[0], s[1], s[2], s[3]] + s[4..];
  }

  lemma EncodeGroup(q: seq<sextet>, bs: seq<byte>)
    requires |q| == 4
    ensures Encode(BytesOf(q) + bs) == Group(Byte0(q), Byte1(q), Byte2(q)) + Encode(bs)
  {
    assert (BytesOf(q) + bs)[3..] == bs;
  }

  /** Strict decoding accepts exactly the encoder's image. */
  lemma StrictAcceptsExactlyEncodings(s: seq<byte>)
    ensures DecodeStrict(s).ok <==> exists bs: seq<byte> :: Encode(bs) == s
  {
    if DecodeStrict(s).ok {
      EncodeDecode(s);
    }
    if bs: seq<byte> :| Encode(bs) == s {
      DecodeEncode(bs);
    }
  }

  // ---------------------------------------------------------------- whitespace

  function Strip(s: seq<byte>): seq<byte> {
    if s == [] then [] else (if DecodeChar(s[0]) == SP then [] else [s[0]]) + Strip(s[1..])
  }

  /** What the parser that skips whitespace makes of the input, and the strict parser of the input without it. */
  predicate Agree(w: Quantum, t: Quantum) {
    && t == Quantum(w.q, w.padded, Strip(w.rest))
    && (|w.q| < 4 ==> w.rest == [] || DecodeChar(w.rest[0]) != SP)
  }

  /** Skipping whitespace while parsing is stripping it first. */
  lemma {:induction false} WhiteQuantum(illegalPads: bool, s: seq<byte>, q: seq<sextet>, pads: nat, padRest: seq<byte>)
    requires pads > 0 ==> padRest != [] && DecodeChar(padRest[0]) != SP
    ensures Agree(NextQuantum(White, illegalPads, s, q, pads, padRest),
                  NextQuantum(Strict, illegalPads, Strip(s), q, pads, Strip(padRest)))
    decreases |s|
  {
    if |q| < 4 && s != [] && DecodeChar(s[0]) == SP {
      WhiteSkips(illegalPads, s, q, pads, padRest);
      WhiteQuantum(illegalPads, s[1..], q, pads, padRest);
    } else if Extends(s, q, pads) {
      WhiteExtends(illegalPads, s, q, pads, padRest);
      WhiteQuantum(illegalPads, s[1..], q + [DecodeChar(s[0])], 0, []);
    } else if Pads(illegalPads, s, q, pads) {
      WhitePads(illegalPads, s, q, pads, padRest);
      WhiteQuantum(illegalPads, s[1..], q, pads + 1, if pads == 0 then s else padRest);
    } else {
      WhiteStops(illegalPads, s, q, pads, padRest);
    }
  }

  lemma WhiteSkips(illegalPads: bool, s: seq<byte>, q: seq<sextet>, pads: nat, padRest: seq<byte>)
    requires |q| < 4 && s != [] && DecodeChar(s[0]) == SP
    ensures NextQuantum(White, illegalPads, s, q, pads, padRest)
         == NextQuantum(White, illegalPads, s[1..], q, pads, padRest)
    ensures Strip(s) == Strip(s[1..])
  {
  }

  lemma StripKeeps(s: seq<byte>)
    requires s != [] && DecodeChar(s[0]) != SP
    ensures Strip(s) != [] && Strip(s)[0] == s[0] && Strip(s)[1..] == Strip(s[1..])
  {
    assert Strip(s) == [s[0]] + Strip(s[1..]);
  }

  lemma WhiteExtends(illegalPads: bool, s: seq<byte>, q: seq<sextet>, pads: nat, padRest: seq<byte>)
    requires Extends(s, q, pads)
    ensures NextQuantum(White, illegalPads, s, q, pads, padRest)
         == NextQuantum(White, illegalPads, s[1..], q + [DecodeChar(s[0])], 0, [])
    ensures NextQuantum(Strict, illegalPads, Strip(s), q, pads, Strip(padRest))
         == NextQuantum(Strict, illegalPads, Strip(s[1..]), q + [DecodeChar(s[0])], 0, Strip([]))
  {
    StripKeeps(s);
    Reads(White, illegalPads, s, q, pads, padRest);
    Reads(Strict, illegalPads, Strip(s), q, pads, Strip(padRest));
  }

  lemma WhitePads(illegalPads: bool, s: seq<byte>, q: seq<sextet>, pads: nat, padRest: seq<byte>)
    requires Pads(illegalPads, s, q, pads)
    ensures var from := if pads == 0 then s else padRest;
            && NextQuantum(White, illegalPads, s, q, pads, padRest)
               == NextQuantum(White, illegalPads, s[1..], q, pads + 1, from)
            && NextQuantum(Strict, illegalPads, Strip(s), q, pads, Strip(padRest))
               == NextQuantum(Strict, illegalPads, Strip(s[1..]), q, pads + 1, Strip(from))
  {
    StripKeeps(s);
    Reads(White, illegalPads, s, q, pads, padRest);
    Reads(Strict, illegalPads, Strip(s), q, pads, Strip(padRest));
  }

  lemma WhiteStops(illegalPads: bool, s: seq<byte>, q: seq<sextet>, pads: nat, padRest: seq<byte>)
    requires pads > 0 ==> padRest != [] && DecodeChar(padRest[0]) != SP
    requires |q| >= 4 || s == [] || DecodeChar(s[0]) != SP
    requires !Extends(s, q, pads) && !Pads(illegalPads, s, q, pads)
    ensures Agree(NextQuantum(White, illegalPads, s, q, pads, padRest),
                  NextQuantum(Strict, illegalPads, Strip(s), q, pads, Strip(padRest)))
  {
    if |q| < 4 && s != [] {
      StripKeeps(s);
      Reads(White, illegalPads, s, q, pads, padRest);
      Reads(Strict, illegalPads, Strip(s), q, pads, Strip(padRest));
    }
    FinishStrips(q, pads, padRest, s);
  }

  lemma FinishStrips(q: seq<sextet>, pads: nat, padRest: seq<byte>, s: seq<byte>)
    ensures var w := Finish(q, pads, padRest, s);
            Finish(q, pads, Strip(padRest), Strip(s)) == Quantum(w.q, w.padded, Strip(w.rest))
  {
  }

  lemma OnlyWhite(illegalPads: bool, s: seq<byte>)
    requires Strip(s) == []
    ensures FirstQuantum(White, illegalPads, s) == Quantum([], false, [])
  {
    WhiteQuantum(illegalPads, s, [], 0, []);
    var w := FirstQuantum(White, illegalPads, s);
    assert Strip(w.rest) == [];
  }

  /** With padding optional or forbidden, decoding that skips whitespace gives the bytes and the verdict of
      strict parsing without it. */
  lemma {:induction false} WhitespaceInsensitive(padding: Padding, s: seq<byte>)
    requires padding != Required
    ensures var w, t := Decode(White, padding, AtBuffer, s), Decode(Strict, padding, AtBuffer, Strip(s));
            w.bytes == t.bytes && w.ok == t.ok
    decreases |s|
  {
    if s != [] {
      var ip := padding == Forbidden;
      var w := FirstQuantum(White, ip, s);
      WhiteQuantum(ip, s, [], 0, []);
      QuantumProgress(White, ip, s, [], 0, []);
      if Strip(s) == [] {
        OnlyWhite(ip, s);
      } else if |w.q| == 4 {
        WhitespaceInsensitive(padding, w.rest);
      } else {
        assert w.rest == [] || Strip(w.rest) != [];
      }
    }
  }

  predicate EndsInWhite(s: seq<byte>) {
    s != [] && DecodeChar(s[|s| - 1]) == SP
  }

  predicate EndsInPad(s: seq<byte>) {
    s != [] && s[|s| - 1] == PAD
  }

  /** A whole quantum ends with the data character that completes it. */
  lemma {:induction false} WholeQuantumEnds(parse: Parse, illegalPads: bool, s: seq<byte>, q: seq<sextet>,
                                            pads: nat, padRest: seq<byte>)
    returns (n: nat)
    requires |q| < 4 && |NextQuantum(parse, illegalPads, s, q, pads, padRest).q| == 4
    ensures 0 < n <= |s| && IsData(s[n - 1]) && NextQuantum(parse, illegalPads, s, q, pads, padRest).rest == s[n..]
    decreases |s|
  {
    var v := DecodeChar(s[0]);
    if v < 64 {
      if |q| == 3 {
        n := 1;
      } else {
        n := WholeQuantumEnds(parse, illegalPads, s[1..], q + [v], 0, []);
        n := n + 1;
      }
    } else if v == PD && !illegalPads && |q| >= 2 && |q| + pads < 4 {
      n := WholeQuantumEnds(parse, illegalPads, s[1..], q, pads + 1, if pads == 0 then s else padRest);
      n := n + 1;
    } else {
      n := WholeQuantumEnds(parse, illegalPads, s[1..], q, pads, padRest);
      n := n + 1;
    }
  }

  lemma {:induction false} StripConcat(a: seq<byte>, b: seq<byte>)
    ensures Strip(a + b) == Strip(a) + Strip(b)
  {
    if a == [] {
      assert a + b == b;
    } else {
      assert (a + b)[1..] == a[1..] + b;
      StripConcat(a[1..], b);
    }
  }

  /** Cutting off a front that ends in a data character changes neither ending. */
  lemma {:induction false} EndingsAfter(s: seq<byte>, n: nat)
    requires 0 < n <= |s| && IsData(s[n - 1])
    ensures EndsInWhite(s) == EndsInWhite(s[n..]) && EndsInPad(Strip(s)) == EndsInPad(Strip(s[n..]))
    ensures Strip(s) != []
  {
    var front, x, tail := s[..n - 1], s[n - 1], s[n..];
    assert s == front + ([x] + tail);
    StripConcat(front, [x] + tail);
    StripConcat([x], tail);
    assert Strip([x]) == [x];
    EndOfConcat(Strip(front), x, Strip(tail));
  }

  lemma EndOfConcat(a: seq<byte>, x: byte, b: seq<byte>)
    ensures var s := a + ([x] + b); s[|s| - 1] == if b == [] then x else b[|b| - 1]
  {
  }

  /** With padding required, a short quantum is accepted only at the very end and if it ends in a pad. */
  lemma AcceptedShortEndsInPad(t: seq<byte>)
    requires t != [] && |FirstQuantum(Strict, false, t).q| < 4 && Decode(Strict, Required, AtBuffer, t).ok
    ensures EndsInPad(t)
  {
    StrictShape(t, []);
  }

  /** With padding required the bytes are the same too, and so is the verdict, but for one family: input
      that would be accepted without its whitespace, does not end in a pad, and has whitespace at the end,
      is refused, because the whitespace is read as one more quantum that lacks its padding. */
  lemma {:induction false} WhitespaceWhenPaddingRequired(s: seq<byte>)
    ensures var w, t := Decode(White, Required, AtBuffer, s), Decode(Strict, Required, AtBuffer, Strip(s));
            w.bytes == t.bytes && (w.ok <==> t.ok && !(EndsInWhite(s) && !EndsInPad(Strip(s))))
    decreases |s|
  {
    if s != [] {
      var w := FirstQuantum(White, false, s);
      WhiteQuantum(false, s, [], 0, []);
      QuantumProgress(White, false, s, [], 0, []);
      if Strip(s) == [] {
        OnlyWhite(false, s);
        AllWhite(s);
      } else if |w.q| == 4 {
        var n := WholeQuantumEnds(White, false, s, [], 0, []);
        EndingsAfter(s, n);
        WhitespaceWhenPaddingRequired(w.rest);
      } else {
        assert w.rest == [] || Strip(w.rest) != [];
        if Decode(Strict, Required, AtBuffer, Strip(s)).ok {
          AcceptedShortEndsInPad(Strip(s));
        }
      }
    }
  }

  lemma {:induction false} AllWhite(s: seq<byte>)
    requires s != [] && Strip(s) == []
    ensures EndsInWhite(s)
  {
    if |s| > 1 {
      AllWhite(s[1..]);
    }
  }

  predicate NoWhite(s: seq<byte>) {
    forall i | 0 <= i < |s| :: DecodeChar(s[i]) != SP
  }

  lemma {:induction false} StripNothing(s: seq<byte>)
    requires NoWhite(s)
    ensures Strip(s) == s
  {
    if s != [] {
      assert forall i | 0 <= i < |s| - 1 :: s[1..][i] == s[i + 1];
      StripNothing(s[1..]);
      assert s == [s[0]] + s[1..];
    }
  }

  /** The characters of the table are data. */
  lemma TableIsData(v: sextet)
    ensures DecodeChar(EncodeChar(v)) != SP && EncodeChar(v) != PAD
  {
    DecodeEncodeChar(v);
  }

  lemma GroupIsData(a: byte, b: byte, c: byte)
    ensures NoWhite(Group(a, b, c)) && Group(a, b, c)[3] != PAD
  {
    TableIsData(a / 4);
    TableIsData(a % 4 * 16 + b / 16);
    TableIsData(b % 16 * 4 + c / 64);
    TableIsData(c % 64);
  }

  lemma FourPlain(a: byte, b: byte, c: byte, d: byte)
    requires DecodeChar(a) != SP && DecodeChar(b) != SP && DecodeChar(c) != SP && DecodeChar(d) != SP
    ensures NoWhite([a, b, c, d])
  {
  }

  lemma OneIsData(v0: sextet, v1: sextet)
    ensures var s := [EncodeChar(v0), EncodeChar(v1), PAD, PAD]; NoWhite(s) && EndsInPad(s)
  {
    TableIsData(v0);
    TableIsData(v1);
    FourPlain(EncodeChar(v0), EncodeChar(v1), PAD, PAD);
  }

  lemma TwoAreData(v0: sextet, v1: sextet, v2: sextet)
    ensures var s := [EncodeChar(v0), EncodeChar(v1), EncodeChar(v2), PAD]; NoWhite(s) && EndsInPad(s)
  {
    TableIsData(v0);
    TableIsData(v1);
    TableIsData(v2);
    FourPlain(EncodeChar(v0), EncodeChar(v1), EncodeChar(v2), PAD);
  }

  lemma ShortIsData(bs: seq<byte>)
    requires 1 <= |bs| <= 2
    ensures NoWhite(Encode(bs)) && EndsInPad(Encode(bs))
  {
    if |bs| == 1 {
      OneIsData(bs[0] / 4, bs[0] % 4 * 16);
    } else {
      TwoAreData(bs[0] / 4, bs[0] % 4 * 16 + bs[1] / 16, bs[1] % 16 * 4);
    }
  }

  /** An encoding has no whitespace, and ends in a pad unless it is of whole groups. */
  lemma {:induction false} EncodeHasNoWhite(bs: seq<byte>)
    ensures NoWhite(Encode(bs))
    ensures EndsInPad(Encode(bs)) <==> |bs| % 3 != 0
    decreases |bs|
  {
    if |bs| >= 3 {
      var g, rest := Group(bs[0], bs[1], bs[2]), Encode(bs[3..]);
      GroupIsData(bs[0], bs[1], bs[2]);
      EncodeHasNoWhite(bs[3..]);
      Endings(g, rest);
    } else if bs != [] {
      ShortIsData(bs);
    }
  }

  lemma Endings(g: seq<byte>, rest: seq<byte>)
    requires |g| == 4 && NoWhite(g) && NoWhite(rest) && g[3] != PAD
    ensures NoWhite(g + rest) && EndsInPad(g + rest) == EndsInPad(rest)
  {
  }

  /** So an encoding followed by one whitespace character, such as a newline, is accepted with padding required
      exactly if it has padding. */
  lemma NewlineAfterEncoding(bs: seq<byte>, c: byte)
    requires DecodeChar(c) == SP
    ensures Decode(White, Required, AtBuffer, Encode(bs) + [c]).ok <==> |bs| % 3 != 0
  {
    var s := Encode(bs) + [c];
    EncodeHasNoWhite(bs);
    StripNothing(Encode(bs));
    StripConcat(Encode(bs), [c]);
    assert Strip([c]) == [];
    assert Strip(s) == Encode(bs);
    DecodeEncode(bs);
    WhitespaceWhenPaddingRequired(s);
    assert s[|s| - 1] == c;
  }

  // ---------------------------------------------------------------- the lax modes

  /** How decoding terminates decides nothing but the verdict: it must use all input, or leave no odd bits, or
      neither. */
  lemma {:induction false} TermModes(parse: Parse, padding: Padding, s: seq<byte>)
    ensures var b, c, t := Decode(parse, padding, AtBuffer, s), Decode(parse, padding, AtChar, s),
                           Decode(parse, padding, AtBit, s);
            && b.bytes == c.bytes == t.bytes && b.rest == c.rest == t.rest
            && (b.ok <==> c.ok && c.rest == []) && (c.ok ==> t.ok)
    decreases |s|
  {
    if s != [] {
      var r := FirstQuantum(parse, padding == Forbidden, s);
      QuantumProgress(parse, padding == Forbidden, s, [], 0, []);
      if |r.q| == 4 {
        TermModes(parse, padding, r.rest);
      }
    }
  }

  /** The data characters of the input. */
  function DataOnly(s: seq<byte>): seq<byte> {
    if s == [] then [] else (if IsData(s[0]) then [s[0]] else []) + DataOnly(s[1..])
  }

  /** In the laxest parsing mode a quantum is the next four data characters, whatever is between them. */
  lemma {:induction false} AnyCharQuantum(illegalPads: bool, s: seq<byte>, q: seq<sextet>, pads: nat,
                                          padRest: seq<byte>)
    requires illegalPads ==> pads == 0
    ensures var a, d := NextQuantum(AnyChar, illegalPads, s, q, pads, padRest),
                        NextQuantum(Strict, true, DataOnly(s), q, 0, []);
            && a.q == d.q && (|a.q| >= 4 ==> |q| >= 4 || DataOnly(a.rest) == d.rest)
            && (|a.q| < 4 ==> d.rest == [] && (illegalPads ==> a.rest == []))
    decreases |s|
  {
    if |q| < 4 && s != [] {
      var v := DecodeChar(s[0]);
      if v < 64 {
        assert DataOnly(s) == [s[0]] + DataOnly(s[1..]);
        assert DataOnly(s)[1..] == DataOnly(s[1..]);
        AnyCharQuantum(illegalPads, s[1..], q + [v], 0, []);
      } else {
        assert DataOnly(s) == DataOnly(s[1..]);
        if v == PD && !illegalPads && |q| >= 2 && |q| + pads < 4 {
          AnyCharQuantum(illegalPads, s[1..], q, pads + 1, if pads == 0 then s else padRest);
        } else {
          AnyCharQuantum(illegalPads, s[1..], q, pads, padRest);
        }
      }
    }
  }

  lemma {:induction false} DataOnlyIsData(s: seq<byte>)
    ensures AllData(DataOnly(s))
  {
    if s != [] {
      DataOnlyIsData(s[1..]);
    }
  }

  predicate AllData(s: seq<byte>) {
    forall i | 0 <= i < |s| :: IsData(s[i])
  }

  function CountPads(s: seq<byte>): nat {
    if s == [] then 0 else (if s[0] == PAD then 1 else 0) + CountPads(s[1..])
  }

  /** The pads after the last data character. */
  function TrailPads(s: seq<byte>): nat {
    if s == [] || DataOnly(s) == [] then CountPads(s) else TrailPads(s[1..])
  }

  lemma {:induction false} DataIn(s: seq<byte>, i: nat)
    requires i < |s| && IsData(s[i])
    ensures DataOnly(s) != []
  {
    if i > 0 {
      DataIn(s[1..], i - 1);
    }
  }

  lemma {:induction false} TrailSuffix(s: seq<byte>, n: nat)
    requires 0 < n <= |s| && IsData(s[n - 1])
    ensures TrailPads(s) == TrailPads(s[n..])
  {
    DataIn(s, n - 1);
    if n > 1 {
      TrailSuffix(s[1..], n - 1);
      assert s[1..][n - 1..] == s[n..];
    }
  }

  /** How many data characters a quantum takes, and how many are left. */
  lemma {:induction false} AnyCharCount(illegalPads: bool, s: seq<byte>, q: seq<sextet>, pads: nat, padRest: seq<byte>)
    requires |q| < 4
    ensures var r := NextQuantum(AnyChar, illegalPads, s, q, pads, padRest);
            && |r.q| == Min(4, |q| + |DataOnly(s)|)
            && (|r.q| == 4 ==> |DataOnly(r.rest)| == |q| + |DataOnly(s)| - 4)
    decreases |s|
  {
    if s != [] {
      var v := DecodeChar(s[0]);
      if v < 64 {
        if |q| < 3 {
          AnyCharCount(illegalPads, s[1..], q + [v], 0, []);
        }
      } else if v == PD && !illegalPads && |q| >= 2 && |q| + pads < 4 {
        AnyCharCount(illegalPads, s[1..], q, pads + 1, if pads == 0 then s else padRest);
      } else {
        AnyCharCount(illegalPads, s[1..], q, pads, padRest);
      }
    }
  }

  /** The pads counted when the input ends with `s`, for a last quantum of `n` data characters, when `pads` pads
      come right before `s`. */
  function PadsAtEnd(s: seq<byte>, n: nat, pads: nat): nat
    requires n < 4
  {
    if n < 2 then 0 else Min(4 - n, if DataOnly(s) == [] then pads + CountPads(s) else TrailPads(s))
  }

  lemma {:induction false} AnyCharPads(s: seq<byte>, q: seq<sextet>, pads: nat, padRest: seq<byte>)
    requires |q| < 4 && |q| + |DataOnly(s)| < 4
    requires pads > 0 ==> padRest != [] && |q| >= 2 && |q| + pads <= 4
    ensures var r, n := NextQuantum(AnyChar, false, s, q, pads, padRest), |q| + |DataOnly(s)|;
            && (r.padded <==> n + PadsAtEnd(s, n, pads) == 4)
            && (r.rest == [] <==> r.padded || PadsAtEnd(s, n, pads) == 0)
    decreases |s|
  {
    if s != [] {
      var v := DecodeChar(s[0]);
      if v < 64 {
        assert TrailPads(s) == TrailPads(s[1..]);
        AnyCharPads(s[1..], q + [v], 0, []);
      } else if v == PD && |q| >= 2 && |q| + pads < 4 {
        AnyCharPads(s[1..], q, pads + 1, if pads == 0 then s else padRest);
      } else {
        AnyCharPads(s[1..], q, pads, padRest);
      }
    }
  }

  /** What the padding mode asks for beyond the data characters.  Where padding is required, a short last quantum
      needs all its pads, and after a whole one nothing may follow; where it is allowed, one pad of two is not
      used up. */
  predicate PadsSuit(padding: Padding, term: Term, s: seq<byte>) {
    var n, p := |DataOnly(s)| % 4, TrailPads(s);
    match padding
    case Forbidden => true
    case Optional => !(term == AtBuffer && n == 2 && p == 1)
    case Required => if n == 0 then s == [] || IsData(s[|s| - 1]) else n >= 2 && p >= 4 - n
  }

  /** Nothing but the end of the input decides whether the pads suit. */
  lemma SuitsAfter(padding: Padding, term: Term, s: seq<byte>, n: nat)
    requires 0 < n <= |s| && IsData(s[n - 1]) && |DataOnly(s)| == 4 + |DataOnly(s[n..])|
    ensures PadsSuit(padding, term, s) <==> PadsSuit(padding, term, s[n..])
  {
    TrailSuffix(s, n);
    SameRemainder(|DataOnly(s[n..])|);
    if n < |s| {
      assert s[n..][|s| - n - 1] == s[|s| - 1];
    }
  }

  lemma SameRemainder(n: nat)
    ensures (4 + n) % 4 == n % 4
  {
  }

  /** An input of fewer than four data characters. */
  lemma AnyCharShort(padding: Padding, term: Term, s: seq<byte>)
    requires s != [] && |DataOnly(s)| < 4
    ensures var a, d := Decode(AnyChar, padding, term, s), Decode(Strict, Forbidden, term, DataOnly(s));
            a.ok <==> d.ok && PadsSuit(padding, term, s)
  {
    var ip := padding == Forbidden;
    AnyCharQuantum(ip, s, [], 0, []);
    AnyCharCount(ip, s, [], 0, []);
    if !ip {
      AnyCharPads(s, [], 0, []);
      PadsAtEndSuit(padding, term, s);
    }
  }

  lemma PadsAtEndSuit(padding: Padding, term: Term, s: seq<byte>)
    requires s != [] && |DataOnly(s)| < 4
    ensures var n := |DataOnly(s)|;
            var padded := n + PadsAtEnd(s, n, 0) == 4;
            && (padding == Required ==> (PadsSuit(padding, term, s) <==> padded))
            && (padding == Optional ==>
                  (PadsSuit(padding, term, s) <==> !(term == AtBuffer && !padded && PadsAtEnd(s, n, 0) > 0)))
  {
    if DataOnly(s) == [] && IsData(s[|s| - 1]) {
      DataIn(s, |s| - 1);
    }
  }

  /** Decoding in the laxest parsing mode gives the bytes of the data characters alone, in every padding and
      termination mode.  The verdict is that of the data characters, if the pads at the end suit the padding
      mode. */
  lemma {:induction false} AnyCharIsDataOnly(padding: Padding, term: Term, s: seq<byte>)
    ensures var a, d := Decode(AnyChar, padding, term, s), Decode(Strict, Forbidden, term, DataOnly(s));
            && a.bytes == d.bytes && d.rest == []
            && (a.ok <==> d.ok && PadsSuit(padding, term, s))
    decreases |s|
  {
    if s != [] {
      var ip := padding == Forbidden;
      var a := FirstQuantum(AnyChar, ip, s);
      AnyCharQuantum(ip, s, [], 0, []);
      AnyCharCount(ip, s, [], 0, []);
      QuantumProgress(AnyChar, ip, s, [], 0, []);
      if |a.q| == 4 {
        AnyCharIsDataOnly(padding, term, a.rest);
        var n := WholeQuantumEnds(AnyChar, ip, s, [], 0, []);
        SuitsAfter(padding, term, s, n);
      } else {
        AnyCharShort(padding, term, s);
      }
    }
  }

  /** How many characters n bytes determine fully. */
  function Determined(n: nat): nat {
    n * 4 / 3
  }

  /** What the data characters decode to: as many bytes as they have bits for, which encode back to every
      character that these bytes determine.  Odd bits at the end are ignored. */
  lemma {:induction false} DataDecodes(d: seq<byte>)
    requires AllData(d)
    ensures var b := Decode(Strict, Forbidden, AtBit, d).bytes;
            && |b| == |d| * 3 / 4 && Determined(|b|) <= |d| && Determined(|b|) <= |Encode(b)|
            && Encode(b)[..Determined(|b|)] == d[..Determined(|b|)]
    decreases |d|
  {
    if |d| >= 4 {
      var b := Decode(Strict, Forbidden, AtBit, d[4..]).bytes;
      DataDecodes(d[4..]);
      DataFour(d, b);
    } else if d != [] {
      DataShort(d);
    }
  }

  /** So whatever the laxest parsing mode is given, in every padding and termination mode the result encodes
      back to the data characters of the input, as far as it determines them. */
  lemma AnyCharDecodes(padding: Padding, term: Term, s: seq<byte>)
    ensures var b, d := Decode(AnyChar, padding, term, s).bytes, DataOnly(s);
            && |b| == |d| * 3 / 4 && Determined(|b|) <= |d| && Determined(|b|) <= |Encode(b)|
            && Encode(b)[..Determined(|b|)] == d[..Determined(|b|)]
  {
    AnyCharIsDataOnly(padding, term, s);
    TermModes(Strict, Forbidden, DataOnly(s));
    DataOnlyIsData(s);
    DataDecodes(DataOnly(s));
  }

  /** Fewer than four characters. */
  lemma DataShort(d: seq<byte>)
    requires 1 <= |d| <= 3 && AllData(d)
    ensures var b := Decode(Strict, Forbidden, AtBit, d).bytes;
            && |b| == |d| - 1 && |b| <= |Encode(b)| && Encode(b)[..|b|] == d[..|b|]
  {
    EncodeDecodeChar(d[0]);
    if |d| == 1 {
      assert [] + [DecodeChar(d[0])] == [DecodeChar(d[0])];
      assert NextQuantum(Strict, true, d, [], 0, []) == NextQuantum(Strict, true, d[1..], [DecodeChar(d[0])], 0, []);
    } else if |d| == 2 {
      TwoData(Strict, true, d);
      assert d[2..] == [];
      FirstCharacters([DecodeChar(d[0]), DecodeChar(d[1])]);
      assert d[..1] == [d[0]];
    } else {
      EncodeDecodeChar(d[1]);
      ThreeData(Strict, true, d);
      assert d[3..] == [];
      FirstCharacters([DecodeChar(d[0]), DecodeChar(d[1]), DecodeChar(d[2])]);
      assert d[..2] == [d[0], d[1]];
    }
  }

  /** The characters that the bytes of a short quantum determine. */
  lemma FirstCharacters(q: seq<sextet>)
    requires 2 <= |q| <= 3
    ensures |Encode(BytesOf(q))| == 4 && Encode(BytesOf(q))[0] == EncodeChar(q[0])
    ensures |q| == 3 ==> Encode(BytesOf(q))[1] == EncodeChar(q[1])
  {
    var b := BytesOf(q);
    Split0(q[0], q[1]);
    assert b[0] / 4 == q[0] && b[0] % 4 == q[1] / 16;
    if |q| == 2 {
      FirstOfOne(b);
    } else {
      Split1(q[1], q[2]);
      assert b[1] / 16 == q[1] % 16;
      FirstOfTwo(b);
      assert q[1] == q[1] / 16 * 16 + q[1] % 16;
    }
  }

  lemma FirstOfOne(b: seq<byte>)
    requires |b| == 1
    ensures |Encode(b)| == 4 && Encode(b)[0] == EncodeChar(b[0] / 4)
  {
  }

  lemma FirstOfTwo(b: seq<byte>)
    requires |b| == 2
    ensures |Encode(b)| == 4 && Encode(b)[0] == EncodeChar(b[0] / 4)
            && Encode(b)[1] == EncodeChar(b[0] % 4 * 16 + b[1] / 16)
  {
  }

  /** Four characters in front. */
  lemma DataFour(d: seq<byte>, b: seq<byte>)
    requires |d| >= 4 && AllData(d) && b == Decode(Strict, Forbidden, AtBit, d[4..]).bytes
    requires Determined(|b|) <= |d| - 4 && Determined(|b|) <= |Encode(b)|
             && Encode(b)[..Determined(|b|)] == d[4..][..Determined(|b|)]
    ensures var b' := Decode(Strict, Forbidden, AtBit, d).bytes;
            && |b'| == 3 + |b| && Determined(|b'|) == 4 + Determined(|b|) <= |Encode(b')|
            && Encode(b')[..Determined(|b'|)] == d[..Determined(|b'|)]
  {
    FourDecoded(d, b);
    FourTaken(d[..4], Encode(b), d, Determined(|b|));
  }

  lemma FourDecoded(d: seq<byte>, b: seq<byte>)
    requires |d| >= 4 && AllData(d) && b == Decode(Strict, Forbidden, AtBit, d[4..]).bytes
    ensures var b' := Decode(Strict, Forbidden, AtBit, d).bytes; |b'| == 3 + |b| && Encode(b') == d[..4] + Encode(b)
  {
    FourData(Strict, true, d);
    var q := FirstQuantum(Strict, true, d).q;
    EncodeQuantum(q);
    EncodeGroup(q, b);
    EncodeDecodeChar(d[0]);
    EncodeDecodeChar(d[1]);
    EncodeDecodeChar(d[2]);
    EncodeDecodeChar(d[3]);
    assert d[..4] == [d[0], d[1], d[2], d[3]];
  }

  lemma FourTaken(front: seq<byte>, e: seq<byte>, d: seq<byte>, m: nat)
    requires |d| >= 4 && front == d[..4] && m <= |e| && m <= |d| - 4 && e[..m] == d[4..][..m]
    ensures (front + e)[..4 + m] == d[..4 + m]
  {
    assert (front + e)[..4 + m] == front + e[..m];
    assert d[..4 + m] == d[..4] + d[4..][..m];
  }
}

module Base64Impl {
  import opened Basics
  import opened Base64Spec

  /** Encoding goes group by group. */
  lemma {:induction false} EncodeSplit(data: seq<byte>, start: nat, i: nat)
    requires start < |data| && i == if start + 3 <= |data| then start + 3 else |data|
    ensures Encode(data[start..]) == Encode(data[start..i]) + Encode(data[i..])
    ensures |Encode(data[start..i])| == 4
  {
    if start + 3 <= |data| {
      var group, rem := data[start..i], data[start..];
      assert rem[3..] == data[i..] && group[3..] == [];
      assert Encode(group) == Group(rem[0], rem[1], rem[2]) + [];
    } else {
      assert data[start..i] == data[start..] && data[i..] == [];
      assert Encode(data[start..]) + [] == Encode(data[start..]);
    }
  }

  lemma HighBits(b: byte)
    ensures b / 4 % 64 == b / 4 && b * 16 % 64 == b % 4 * 16
    ensures b / 16 % 16 == b / 16 && b * 4 % 64 == b % 16 * 4 && b / 64 % 4 == b / 64
  {
  }

  /** The characters of the next group, of three bytes or what is left, one after the other. */
  method EncodeGroup(data: seq<byte>, start: nat) returns (i: nat, chars: seq<byte>)
    requires start < |data|
    ensures i == if start + 3 <= |data| then start + 3 else |data|
    ensures chars == Encode(data[start..i])
  {
    i := start;
    var b: int := data[i];
    HighBits(b);
    var c: sextet := b / 4 % 64;
    chars := [EncodeChar(c)];

    c := b * 16 % 64;
    i := i + 1;
    if i < |data| {
      b := data[i];
      HighBits(b);
      c := c + b / 16 % 16;
    }
    chars := chars + [EncodeChar(c)];

    if i < |data| {
      c := b * 4 % 64;
      i := i + 1;
      if i < |data| {
        b := data[i];
        HighBits(b);
        c := c + b / 64 % 4;
      }
      chars := chars + [EncodeChar(c)];
    } else {
      chars := chars + [PAD];
    }

    if i < |data| {
      c := b % 64;
      chars := chars + [EncodeChar(c)];
      i := i + 1;
      assert data[start..i][3..] == [];
    } else {
      chars := chars + [PAD];
    }
  }

  method EncodeFromArray(data: seq<byte>) returns (result: array<byte>)
    ensures result[..] == Encode(data)
  {
    result := new byte[(|data| + 2) / 3 * 4];
    EncodeLength(data);
    var i, destIx := 0, 0;
    assert data[0..] == data;
    while i < |data|
      invariant i <= |data| && destIx <= result.Length
      invariant result[..destIx] + Encode(data[i..]) == Encode(data)
    {
      ghost var before, i0 := result[..destIx], i;
      EncodeSplit(data, i0, if i0 + 3 <= |data| then i0 + 3 else |data|);
      var chars;
      i, chars := EncodeGroup(data, i);
      Regroup(before, chars, Encode(data[i..]));
      forall k | 0 <= k < 4 {
        result[destIx + k] := chars[k];
      }
      assert result[..destIx + 4] == before + chars;
      destIx := destIx + 4;
    }
    assert result[..destIx] == result[..];
  }

  lemma Regroup(a: seq<byte>, b: seq<byte>, c: seq<byte>)
    ensures a + (b + c) == a + b + c
  {
  }

  ghost function PadRest(data: seq<byte>, padLen: nat, padStart: nat): seq<byte>
    requires padStart <= |data|
  {
    if padLen > 0 then data[padStart..] else []
  }

  /** What the reading loop makes of one character: whether it stops there, whether the character is data, and the
      pads seen then. */
  method ReadOne(parse: Parse, illegalPads: bool, data: seq<byte>, dpos: nat, byteLen: nat, padLen: nat, padStart: nat,
                 ghost q: seq<sextet>)
    returns (stop: bool, isData: bool, padLen': nat, padStart': nat)
    requires dpos < |data| && byteLen == |q| < 4 && padStart <= |data|
    ensures padStart' <= |data| && (isData ==> IsData(data[dpos]) && !stop)
    ensures var all := NextQuantum(parse, illegalPads, data[dpos..], q, padLen, PadRest(data, padLen, padStart));
            all == if stop then Finish(q, padLen', PadRest(data, padLen', padStart'), data[dpos..])
                   else NextQuantum(parse, illegalPads, data[dpos + 1..],
                                    if isData then q + [DecodeChar(data[dpos])] else q,
                                    padLen', PadRest(data, padLen', padStart'))
  {
    assert data[dpos..][0] == data[dpos] && data[dpos..][1..] == data[dpos + 1..];
    var v := DecodeChar(data[dpos]);
    stop, isData, padLen', padStart' := false, false, padLen, padStart;
    if v == IL || (illegalPads && v == PD) {
      stop := parse != AnyChar;
    } else if v == SP {
      stop := parse == Strict;
    } else if v == PD {
      if byteLen < 2 {
        stop := parse != AnyChar;
      } else if byteLen + padLen >= 4 {
        stop := parse != AnyChar;
      } else {
        padLen' := padLen + 1;
        if padLen' == 1 {
          padStart' := dpos;
        }
      }
    } else {
      if padLen > 0 {
        if parse != AnyChar {
          stop := true;
          return;
        }
        padLen' := 0;
      }
      isData := true;
    }
  }

  /** Where the reading loop is: `q` is what `qbuf` holds. */
  datatype Position = Position(dpos: nat, byteLen: nat, padLen: nat, padStart: nat)

  ghost predicate Holds(data: seq<byte>, qbuf: array<int>, at: Position, q: seq<sextet>)
    reads qbuf
  {
    && qbuf.Length == 4 && at.dpos <= |data| && at.padStart <= |data| && at.byteLen == |q| <= 4
    && forall k | 0 <= k < |q| :: qbuf[k] == q[k]
  }

  /** What is still to be read, and what is read if the loop stops. */
  ghost function ToRead(parse: Parse, illegalPads: bool, data: seq<byte>, at: Position, q: seq<sextet>): Quantum
    requires at.dpos <= |data| && at.padStart <= |data|
  {
    NextQuantum(parse, illegalPads, data[at.dpos..], q, at.padLen, PadRest(data, at.padLen, at.padStart))
  }

  ghost function HasRead(data: seq<byte>, at: Position, q: seq<sextet>): Quantum
    requires at.dpos <= |data| && at.padStart <= |data|
  {
    Finish(q, at.padLen, PadRest(data, at.padLen, at.padStart), data[at.dpos..])
  }

  /** The body of the reading loop. */
  method ReadNext(parse: Parse, illegalPads: bool, data: seq<byte>, qbuf: array<int>, at: Position,
                  ghost q: seq<sextet>)
    returns (stop: bool, at': Position, ghost q': seq<sextet>)
    requires Holds(data, qbuf, at, q) && at.byteLen < 4 && at.dpos < |data|
    modifies qbuf
    ensures Holds(data, qbuf, at', q') && (!stop ==> at'.dpos == at.dpos + 1)
    ensures ToRead(parse, illegalPads, data, at, q)
         == if stop then HasRead(data, at', q') else ToRead(parse, illegalPads, data, at', q')
  {
    var isData, padLen, padStart;
    stop, isData, padLen, padStart :=
      ReadOne(parse, illegalPads, data, at.dpos, at.byteLen, at.padLen, at.padStart, q);
    qbuf[at.byteLen] := DecodeChar(data[at.dpos]);
    q' := if isData then q + [DecodeChar(data[at.dpos])] else q;
    at' := Position(if stop then at.dpos else at.dpos + 1, if isData then at.byteLen + 1 else at.byteLen,
                    padLen, padStart);
  }

  /** The reading loop of GetNextQuantum; the pads begin at `at.padStart`, if there are any. */
  method ReadValues(parse: Parse, illegalPads: bool, data: seq<byte>, start: nat, qbuf: array<int>)
    returns (at: Position, ghost q: seq<sextet>)
    requires start <= |data| && qbuf.Length == 4
    modifies qbuf
    ensures Holds(data, qbuf, at, q) && FirstQuantum(parse, illegalPads, data[start..]) == HasRead(data, at, q)
  {
    at, q := Position(start, 0, 0, 0), [];
    ghost var all := FirstQuantum(parse, illegalPads, data[start..]);
    while at.byteLen < 4 && at.dpos < |data|
      invariant Holds(data, qbuf, at, q)
      invariant ToRead(parse, illegalPads, data, at, q) == all
      decreases |data| - at.dpos
    {
      var stop;
      stop, at, q := ReadNext(parse, illegalPads, data, qbuf, at, q);
      if stop {
        return;
      }
    }
  }

  /** Reads up to four values into `qbuf`, from position `start`, and goes back to the first pad if the
      padding is not complete. */
  method GetNextQuantum(parse: Parse, illegalPads: bool, data: seq<byte>, start: nat, qbuf: array<int>)
    returns (byteLen: nat, padded: bool, dpos: nat)
    requires start <= |data| && qbuf.Length == 4
    modifies qbuf
    ensures var r := FirstQuantum(parse, illegalPads, data[start..]);
            && byteLen == |r.q| <= 4 && padded == r.padded
            && dpos <= |data| && data[dpos..] == r.rest
            && forall k | 0 <= k < 4 :: qbuf[k] == At(r.q, k)
  {
    var at; ghost var q;
    at, q := ReadValues(parse, illegalPads, data, start, qbuf);
    byteLen, dpos := at.byteLen, at.dpos;
    for i := byteLen to 4
      invariant forall k | 0 <= k < i :: qbuf[k] == At(q, k)
    {
      qbuf[i] := 0;
    }
    if at.byteLen + at.padLen == 4 {
      padded := true;
    } else {
      padded := false;
      if at.padLen != 0 {
        dpos := at.padStart;
      }
    }
  }

  /** Turns the values in `qbuf` into bytes; `c` ends up with the bits that make no whole byte. */
  method Unpack(ghost q: seq<sextet>, qbuf: array<int>, qlen: nat) returns (bytes: seq<byte>, c: byte)
    requires qbuf.Length == 4 && qlen == |q| <= 4 && forall k | 0 <= k < 4 :: qbuf[k] == At(q, k)
    ensures bytes == BytesOf(q) && c == LeftOver(q)
  {
    bytes := [];
    c := qbuf[0] * 4 % 256 + qbuf[1] / 16 % 4;
    if qlen >= 2 {
      bytes := bytes + [c];
      c := qbuf[1] % 16 * 16 + qbuf[2] / 4 % 16;
      if qlen >= 3 {
        bytes := bytes + [c];
        c := qbuf[2] % 4 * 64 + qbuf[3];
        if qlen >= 4 {
          bytes := bytes + [c];
          c := 0;
        }
      }
    }
  }

  /** DecodeFromArrayTemplate. */
  method DecodeFromArray(parse: Parse, padding: Padding, term: Term, data: seq<byte>)
    returns (result: seq<byte>, success: bool, dataUsed: nat)
    ensures dataUsed <= |data|
    ensures Decode(parse, padding, term, data) == Decoded(result, success, data[dataUsed..])
  {
    result, success := [], true;
    var dpos := 0;
    var qbuf := new int[4];
    assert data[0..] == data;
    ghost var all := Decode(parse, padding, term, data);
    while dpos < |data|
      invariant dpos <= |data| && success
      invariant var d := Decode(parse, padding, term, data[dpos..]);
                all == Decoded(result + d.bytes, d.ok, d.rest)
    {
      ghost var r := FirstQuantum(parse, padding == Forbidden, data[dpos..]);
      ghost var was, before := result, dpos;
      QuantumProgress(parse, padding == Forbidden, data[dpos..], [], 0, []);
      var qlen, padded;
      qlen, padded, dpos := GetNextQuantum(parse, padding == Forbidden, data, dpos, qbuf);
      var bytes, c := Unpack(r.q, qbuf, qlen);
      result := result + bytes;
      if qlen < 4 {
        if term != AtBit && c != 0 {
          success := false;
        }
        if padding == Required && !padded {
          success := false;
        }
        break;
      }
      Regroup(was, bytes, Decode(parse, padding, term, data[dpos..]).bytes);
    }
    if term == AtBuffer && dpos != |data| {
      success := false;
    }
    dataUsed := dpos;
  }
}
