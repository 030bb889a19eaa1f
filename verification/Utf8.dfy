/**
 * UTF-8 as RFC 3629, sections 3 and 4 defines it, and the two differently written acceptors of the
 * rack: both accept exactly the encodings of sequences of Unicode scalar values, each of which decodes
 * in one way.
 */
module Utf8 {
  import opened Base

  predicate IsScalar(cp: bv32) {
    cp <= 0x10FFFF && !(0xD800 <= cp <= 0xDFFF)
  }

  function Lead2(cp: bv32): bv8
    requires cp < 0x800
  {
    0xC0 | ((cp >> 6) as bv8)
  }

  function Lead3(cp: bv32): bv8
    requires cp < 0x10000
  {
    0xE0 | ((cp >> 12) as bv8)
  }

  function Lead4(cp: bv32): bv8
    requires cp < 0x200000
  {
    0xF0 | ((cp >> 18) as bv8)
  }

  function Tail(bits: bv32): bv8 {
    0x80 | ((bits & 0x3F) as bv8)
  }

  /** The table of section 3: the number of octets follows from the range of the scalar value. */
  function Encode(cp: bv32): (r: Bytes)
    requires IsScalar(cp)
    ensures 1 <= |r| <= 4
  {
    if cp < 0x80 then [cp as bv8]
    else if cp < 0x800 then [Lead2(cp), Tail(cp)]
    else if cp < 0x10000 then [Lead3(cp), Tail(cp >> 6), Tail(cp)]
    else [Lead4(cp), Tail(cp >> 12), Tail(cp >> 6), Tail(cp)]
  }

  lemma TailBits(bits: bv32)
    ensures Tail(bits) & 0xC0 == 0x80 && (Tail(bits) & 0x3F) as bv32 == bits & 0x3F
  {
  }

  lemma LeadBits(cp: bv32)
    ensures cp < 0x80 ==> (cp as bv8) as bv32 == cp
    ensures cp < 0x800 ==> Lead2(cp) & 0xE0 == 0xC0 && (Lead2(cp) & 0x1F) as bv32 == cp >> 6
    ensures cp < 0x10000 ==> Lead3(cp) & 0xF0 == 0xE0 && (Lead3(cp) & 0x0F) as bv32 == cp >> 12
    ensures cp < 0x200000 ==> Lead4(cp) & 0xF8 == 0xF0 && (Lead4(cp) & 0x07) as bv32 == cp >> 18
  {
  }

  /** Section 3, octet by octet: the high bits of the first say how many follow, each following one begins
      with 10, and the remaining bits are those of the scalar value, six to an octet from the end. */
  lemma EncodeMeans(cp: bv32)
    requires IsScalar(cp)
    ensures var e := Encode(cp);
            && (cp < 0x80 ==> |e| == 1 && e[0] as bv32 == cp)
            && (0x80 <= cp < 0x800 ==> |e| == 2 && e[0] & 0xE0 == 0xC0 && (e[0] & 0x1F) as bv32 == cp >> 6)
            && (0x800 <= cp < 0x10000 ==> |e| == 3 && e[0] & 0xF0 == 0xE0 && (e[0] & 0x0F) as bv32 == cp >> 12)
            && (0x10000 <= cp ==> |e| == 4 && e[0] & 0xF8 == 0xF0 && (e[0] & 0x07) as bv32 == cp >> 18)
            && (|e| > 1 ==> e[|e| - 1] & 0xC0 == 0x80 && (e[|e| - 1] & 0x3F) as bv32 == cp & 0x3F)
            && (|e| > 2 ==> e[|e| - 2] & 0xC0 == 0x80 && (e[|e| - 2] & 0x3F) as bv32 == (cp >> 6) & 0x3F)
            && (|e| > 3 ==> e[1] & 0xC0 == 0x80 && (e[1] & 0x3F) as bv32 == (cp >> 12) & 0x3F)
  {
    LeadBits(cp);
    TailBits(cp);
    TailBits(cp >> 6);
    TailBits(cp >> 12);
    hide Tail, Lead2, Lead3, Lead4;
  }

  predicate AllScalar(cps: seq<bv32>) {
    forall i | 0 <= i < |cps| :: IsScalar(cps[i])
  }

  function EncodeAll(cps: seq<bv32>): Bytes
    requires AllScalar(cps)
  {
    if cps == [] then [] else Encode(cps[0]) + EncodeAll(cps[1..])
  }

  // ---- decoding ---------------------------------------------------------------------------------

  predicate IsTail(b: bv8) { b & 0xC0 == 0x80 }
  predicate Leads2(b: bv8) { b & 0xE0 == 0xC0 }
  predicate Leads3(b: bv8) { b & 0xF0 == 0xE0 }
  predicate Leads4(b: bv8) { b & 0xF8 == 0xF0 }

  function Bits(b: bv8): bv32 {
    (b & 0x3F) as bv32
  }

  function Join2(b0: bv8, b1: bv8): bv32 {
    (((b0 & 0x1F) as bv32) << 6) | Bits(b1)
  }

  function Join3(b0: bv8, b1: bv8, b2: bv8): bv32 {
    (((((b0 & 0x0F) as bv32) << 6) | Bits(b1)) << 6) | Bits(b2)
  }

  function Join4(b0: bv8, b1: bv8, b2: bv8, b3: bv8): bv32 {
    (((((((b0 & 0x07) as bv32) << 6) | Bits(b1)) << 6) | Bits(b2)) << 6) | Bits(b3)
  }

  datatype Scalar = Scalar(point: bv32, width: nat)

  /** The scalar value encoded at position `i`, and how many octets it takes. */
  function Read(bytes: Bytes, i: nat): (r: Option<Scalar>)
    ensures r.Some? ==> 1 <= r.value.width <= 4 && i + r.value.width <= |bytes|
  {
    if i >= |bytes| then None
    else if bytes[i] < 0x80 then Some(Scalar(bytes[i] as bv32, 1))
    else if Leads2(bytes[i]) then
      if i + 1 < |bytes| && IsTail(bytes[i + 1]) then Within(Join2(bytes[i], bytes[i + 1]), 0x80, 2) else None
    else if Leads3(bytes[i]) then
      if i + 2 < |bytes| && IsTail(bytes[i + 1]) && IsTail(bytes[i + 2]) then
        Within(Join3(bytes[i], bytes[i + 1], bytes[i + 2]), 0x800, 3)
      else None
    else if Leads4(bytes[i]) then
      if i + 3 < |bytes| && IsTail(bytes[i + 1]) && IsTail(bytes[i + 2]) && IsTail(bytes[i + 3]) then
        Within(Join4(bytes[i], bytes[i + 1], bytes[i + 2], bytes[i + 3]), 0x10000, 4)
      else None
    else None
  }

  /** Shortest form only, and scalar values only. */
  function Within(cp: bv32, minimum: bv32, width: nat): (r: Option<Scalar>) {
    if minimum <= cp && IsScalar(cp) then Some(Scalar(cp, width)) else None
  }

  lemma Octets2(b0: bv8, b1: bv8)
    requires Leads2(b0) && IsTail(b1)
    ensures Join2(b0, b1) < 0x800 && Lead2(Join2(b0, b1)) == b0 && Tail(Join2(b0, b1)) == b1
  {
  }

  lemma Octets3(b0: bv8, b1: bv8, b2: bv8)
    requires Leads3(b0) && IsTail(b1) && IsTail(b2)
    ensures Join3(b0, b1, b2) < 0x10000 && Lead3(Join3(b0, b1, b2)) == b0
    ensures Tail(Join3(b0, b1, b2) >> 6) == b1 && Tail(Join3(b0, b1, b2)) == b2
  {
  }

  lemma Octets4(b0: bv8, b1: bv8, b2: bv8, b3: bv8)
    requires Leads4(b0) && IsTail(b1) && IsTail(b2) && IsTail(b3)
    ensures Join4(b0, b1, b2, b3) < 0x200000 && Lead4(Join4(b0, b1, b2, b3)) == b0
    ensures Tail(Join4(b0, b1, b2, b3) >> 12) == b1
    ensures Tail(Join4(b0, b1, b2, b3) >> 6) == b2 && Tail(Join4(b0, b1, b2, b3)) == b3
  {
  }

  lemma Scalar2(cp: bv32)
    requires 0x80 <= cp < 0x800
    ensures Lead2(cp) >= 0x80 && Leads2(Lead2(cp)) && Join2(Lead2(cp), Tail(cp)) == cp
  {
  }

  lemma Scalar3(cp: bv32)
    requires 0x800 <= cp < 0x10000
    ensures Lead3(cp) >= 0x80 && !Leads2(Lead3(cp)) && Leads3(Lead3(cp))
    ensures Join3(Lead3(cp), Tail(cp >> 6), Tail(cp)) == cp
  {
  }

  lemma Scalar4(cp: bv32)
    requires 0x10000 <= cp < 0x200000
    ensures Lead4(cp) >= 0x80 && !Leads2(Lead4(cp)) && !Leads3(Lead4(cp)) && Leads4(Lead4(cp))
    ensures Join4(Lead4(cp), Tail(cp >> 12), Tail(cp >> 6), Tail(cp)) == cp
  {
  }

  lemma TailIsTail(bits: bv32)
    ensures IsTail(Tail(bits))
  {
  }

  lemma Encodes2(b0: bv8, b1: bv8)
    requires Leads2(b0) && IsTail(b1) && 0x80 <= Join2(b0, b1)
    ensures IsScalar(Join2(b0, b1)) && Encode(Join2(b0, b1)) == [b0, b1]
  {
    Octets2(b0, b1);
    hide Join2, Lead2, Tail, IsTail, Leads2;
  }

  lemma Encodes3(b0: bv8, b1: bv8, b2: bv8)
    requires Leads3(b0) && IsTail(b1) && IsTail(b2) && 0x800 <= Join3(b0, b1, b2) && IsScalar(Join3(b0, b1, b2))
    ensures Encode(Join3(b0, b1, b2)) == [b0, b1, b2]
  {
    hide Join3, Lead3, Tail, IsTail, Leads3;
    Octets3(b0, b1, b2);
  }

  lemma Encodes4(b0: bv8, b1: bv8, b2: bv8, b3: bv8)
    requires Leads4(b0) && IsTail(b1) && IsTail(b2) && IsTail(b3)
    requires 0x10000 <= Join4(b0, b1, b2, b3) && IsScalar(Join4(b0, b1, b2, b3))
    ensures Encode(Join4(b0, b1, b2, b3)) == [b0, b1, b2, b3]
  {
    hide Join4, Lead4, Tail, IsTail, Leads4;
    Octets4(b0, b1, b2, b3);
  }

  /** What stands at `i` is the encoding of what was read. */
  lemma ReadIsEncoding(bytes: Bytes, i: nat)
    requires Read(bytes, i).Some?
    ensures IsScalar(Read(bytes, i).value.point)
    ensures Encode(Read(bytes, i).value.point) == bytes[i..i + Read(bytes, i).value.width]
  {
    hide Join2, Join3, Join4, IsTail, Leads2, Leads3, Leads4, Encode, IsScalar;
    var b0 := bytes[i];
    if b0 < 0x80 {
      OneOctet(b0);
    } else if Leads2(b0) {
      Encodes2(b0, bytes[i + 1]);
    } else if Leads3(b0) {
      Encodes3(b0, bytes[i + 1], bytes[i + 2]);
    } else {
      Encodes4(b0, bytes[i + 1], bytes[i + 2], bytes[i + 3]);
    }
  }

  lemma OneOctet(b: bv8)
    requires b < 0x80
    ensures IsScalar(b as bv32) && Encode(b as bv32) == [b]
  {
  }

  lemma OneScalar(cp: bv32)
    requires cp < 0x80
    ensures (cp as bv8) < 0x80 && (cp as bv8) as bv32 == cp
  {
  }

  /** Reading finds the scalar value that was encoded, whatever follows. */
  lemma EncodingIsRead(cp: bv32, bytes: Bytes, i: nat)
    requires IsScalar(cp) && i + |Encode(cp)| <= |bytes| && bytes[i..i + |Encode(cp)|] == Encode(cp)
    ensures Read(bytes, i) == Some(Scalar(cp, |Encode(cp)|))
  {
    hide Join2, Join3, Join4, Lead2, Lead3, Lead4, Tail, IsTail, Leads2, Leads3, Leads4;
    var e := Encode(cp);
    assert forall k | 0 <= k < |e| :: bytes[i + k] == e[k] by {
      assert forall k | 0 <= k < |e| :: bytes[i..i + |e|][k] == e[k];
    }
    TailIsTail(cp);
    TailIsTail(cp >> 6);
    TailIsTail(cp >> 12);
    if cp < 0x80 {
      OneScalar(cp);
      assert bytes[i + 0] == e[0];
    } else if cp < 0x800 {
      Scalar2(cp);
      assert bytes[i + 0] == e[0] && bytes[i + 1] == e[1];
    } else if cp < 0x10000 {
      Scalar3(cp);
      assert bytes[i + 0] == e[0] && bytes[i + 1] == e[1] && bytes[i + 2] == e[2];
    } else {
      Scalar4(cp);
      assert bytes[i + 0] == e[0] && bytes[i + 1] == e[1] && bytes[i + 2] == e[2] && bytes[i + 3] == e[3];
    }
  }

  /** The scalar values from position `i` on, when that part is well formed. */
  function Decode(bytes: Bytes, i: nat): (r: Option<seq<bv32>>)
    requires i <= |bytes|
    decreases |bytes| - i
  {
    if i == |bytes| then Some([])
    else
      var head := Read(bytes, i);
      if head.None? then None
      else
        var rest := Decode(bytes, i + head.value.width);
        if rest.None? then None else Some([head.value.point] + rest.value)
  }

  /** What was decoded encodes back to the bytes read. */
  lemma {:induction false} DecodedEncodes(bytes: Bytes, i: nat)
    requires i <= |bytes| && Decode(bytes, i).Some?
    ensures AllScalar(Decode(bytes, i).value) && EncodeAll(Decode(bytes, i).value) == bytes[i..]
    decreases |bytes| - i
  {
    hide Read, Encode, IsScalar;
    if i < |bytes| {
      var w := Read(bytes, i).value.width;
      ReadIsEncoding(bytes, i);
      DecodedEncodes(bytes, i + w);
      assert bytes[i..] == bytes[i..i + w] + bytes[i + w..];
    }
  }

  /** What was encoded is what decoding finds. */
  lemma {:induction false} EncodedDecodes(bytes: Bytes, i: nat, cps: seq<bv32>)
    requires i <= |bytes| && AllScalar(cps) && EncodeAll(cps) == bytes[i..]
    ensures Decode(bytes, i) == Some(cps)
    decreases |cps|
  {
    hide Read, Encode, IsScalar;
    if cps != [] {
      assert cps == [cps[0]] + cps[1..] && IsScalar(cps[0]);
      var e := Encode(cps[0]);
      assert bytes[i..][..|e|] == e && bytes[i..][..|e|] == bytes[i..i + |e|];
      EncodingIsRead(cps[0], bytes, i);
      assert bytes[i + |e|..] == bytes[i..][|e|..] == EncodeAll(cps[1..]);
      EncodedDecodes(bytes, i + |e|, cps[1..]);
    }
  }

  /** Decoding succeeds with exactly the sequence whose encoding this is: well-formedness, the round
      trip in both directions, and uniqueness at once. */
  lemma DecodeIffEncoding(bytes: Bytes, cps: seq<bv32>)
    ensures Decode(bytes, 0) == Some(cps) <==> AllScalar(cps) && EncodeAll(cps) == bytes
  {
    assert bytes[0..] == bytes;
    if Decode(bytes, 0) == Some(cps) { DecodedEncodes(bytes, 0); }
    if AllScalar(cps) && EncodeAll(cps) == bytes { EncodedDecodes(bytes, 0, cps); }
  }

  ghost predicate WellFormed(bytes: Bytes) {
    exists cps :: AllScalar(cps) && EncodeAll(cps) == bytes
  }

  lemma WellFormedIffDecodes(bytes: Bytes)
    ensures WellFormed(bytes) <==> Decode(bytes, 0).Some?
  {
    if cps :| AllScalar(cps) && EncodeAll(cps) == bytes { DecodeIffEncoding(bytes, cps); }
    if Decode(bytes, 0).Some? { DecodeIffEncoding(bytes, Decode(bytes, 0).value); }
  }

  /** No byte string encodes two sequences. */
  lemma DecodingUnique(a: seq<bv32>, b: seq<bv32>)
    requires AllScalar(a) && AllScalar(b) && EncodeAll(a) == EncodeAll(b)
    ensures a == b
  {
    DecodeIffEncoding(EncodeAll(a), a);
    DecodeIffEncoding(EncodeAll(a), b);
  }

  // ---- the acceptors ----------------------------------------------------------------------------

  /** `count` trailing octets folded into the bits of the lead. */
  function Fold(bytes: Bytes, at: nat, count: nat, seed: bv32): bv32
    requires at + count <= |bytes|
  {
    if count == 0 then seed else Push(Fold(bytes, at, count - 1, seed), bytes[at + count - 1])
  }

  /** Six more bits from a trailing octet. */
  function Push(point: bv32, trail: bv8): bv32 {
    (point << 6) | Bits(trail)
  }

  predicate Tails(bytes: Bytes, at: nat, count: nat)
    requires at + count <= |bytes|
  {
    forall k | at <= k < at + count :: IsTail(bytes[k])
  }

  /** Fold the trailing octets, or find one that is none. */
  method FoldTails(bytes: Bytes, index: nat, extra: nat, seed: bv32) returns (ok: bool, point: bv32)
    requires index + extra < |bytes|
    ensures ok <==> Tails(bytes, index + 1, extra)
    ensures ok ==> point == Fold(bytes, index + 1, extra, seed)
  {
    hide IsTail, Push;
    point := seed;
    var offset := 1;
    while offset <= extra
      invariant 1 <= offset <= extra + 1 && Tails(bytes, index + 1, offset - 1)
      invariant point == Fold(bytes, index + 1, offset - 1, seed)
    {
      var trail := bytes[index + offset];
      if !IsTail(trail) { return false, point; }
      point := Push(point, trail);
      offset := offset + 1;
    }
    ok := true;
  }

  lemma Fold1(bytes: Bytes, at: nat, seed: bv32)
    requires at + 1 <= |bytes|
    ensures Fold(bytes, at, 1, seed) == Push(seed, bytes[at])
  {
    hide Push;
    assert Fold(bytes, at, 0, seed) == seed;
  }

  lemma Fold2(bytes: Bytes, at: nat, seed: bv32)
    requires at + 2 <= |bytes|
    ensures Fold(bytes, at, 2, seed) == Push(Push(seed, bytes[at]), bytes[at + 1])
  {
    hide Push;
    Fold1(bytes, at, seed);
  }

  lemma Fold3(bytes: Bytes, at: nat, seed: bv32)
    requires at + 3 <= |bytes|
    ensures Fold(bytes, at, 3, seed) == Push(Push(Push(seed, bytes[at]), bytes[at + 1]), bytes[at + 2])
  {
    hide Push;
    Fold2(bytes, at, seed);
  }

  // Bits of the leads that both acceptors start from.
  function Low5(b: bv8): bv32 { (b & 0x1F) as bv32 }
  function Low4(b: bv8): bv32 { (b & 0x0F) as bv32 }
  function Low3(b: bv8): bv32 { (b & 0x07) as bv32 }

  lemma JoinsArePushes(b0: bv8, b1: bv8, b2: bv8, b3: bv8)
    ensures Join2(b0, b1) == Push(Low5(b0), b1)
    ensures Join3(b0, b1, b2) == Push(Push(Low4(b0), b1), b2)
    ensures Join4(b0, b1, b2, b3) == Push(Push(Push(Low3(b0), b1), b2), b3)
  {
  }

  /** Reading, arranged as both acceptors do it: a seed from the lead, a number of tails, a minimum. */
  function ReadBy(bytes: Bytes, i: nat, extra: nat, seed: bv32, minimum: bv32): Option<Scalar> {
    if i + extra < |bytes| && Tails(bytes, i + 1, extra) then Within(Fold(bytes, i + 1, extra, seed), minimum, extra + 1)
    else None
  }

  lemma ReadCases(bytes: Bytes, i: nat)
    requires i < |bytes|
    ensures var lead := bytes[i];
            Read(bytes, i) ==
              if lead < 0x80 then Some(Scalar(lead as bv32, 1))
              else if Leads2(lead) then ReadBy(bytes, i, 1, Low5(lead), 0x80)
              else if Leads3(lead) then ReadBy(bytes, i, 2, Low4(lead), 0x800)
              else if Leads4(lead) then ReadBy(bytes, i, 3, Low3(lead), 0x10000)
              else None
  {
    hide Push, Join2, Join3, Join4, IsTail, Leads2, Leads3, Leads4, Low5, Low4, Low3, Fold, Within;
    var lead := bytes[i];
    if i + 1 < |bytes| { Fold1(bytes, i + 1, Low5(lead)); JoinsArePushes(lead, bytes[i + 1], 0, 0); }
    if i + 2 < |bytes| { Fold2(bytes, i + 1, Low4(lead)); JoinsArePushes(lead, bytes[i + 1], bytes[i + 2], 0); }
    if i + 3 < |bytes| { Fold3(bytes, i + 1, Low3(lead)); JoinsArePushes(lead, bytes[i + 1], bytes[i + 2], bytes[i + 3]); }
  }

  // ---- the acceptor of the runtime and of the catalog ---------------------------------------------

  lemma TwoOctetRange(lead: bv8, b: bv8)
    ensures Low5(lead) < 2 ==> Push(Low5(lead), b) < 0x80
    ensures Low5(lead) >= 2 ==> 0x80 <= Push(Low5(lead), b) < 0x800
  {
  }

  lemma ThreeOctetRange(lead: bv8, b1: bv8, b2: bv8)
    ensures Push(Push(Low4(lead), b1), b2) < 0x10000
  {
  }

  lemma FourOctetRange(lead: bv8, b1: bv8, b2: bv8, b3: bv8)
    ensures Low3(lead) > 4 ==> Push(Push(Push(Low3(lead), b1), b2), b3) > 0x10FFFF
  {
  }

  /** What the masked lead already decides about the scalar value. */
  lemma MaskRange(bytes: Bytes, i: nat, extra: nat, lead: bv8)
    requires i + extra < |bytes|
    ensures extra == 1 && Low5(lead) < 2 ==> Fold(bytes, i + 1, 1, Low5(lead)) < 0x80
    ensures extra == 1 && Low5(lead) >= 2 ==> 0x80 <= Fold(bytes, i + 1, 1, Low5(lead)) < 0x800
    ensures extra == 2 ==> Fold(bytes, i + 1, 2, Low4(lead)) < 0x10000
    ensures extra == 3 && Low3(lead) > 4 ==> Fold(bytes, i + 1, 3, Low3(lead)) > 0x10FFFF
  {
    hide Push, Low5, Low4, Low3, Fold;
    if extra == 1 { Fold1(bytes, i + 1, Low5(lead)); TwoOctetRange(lead, bytes[i + 1]); }
    if extra == 2 { Fold2(bytes, i + 1, Low4(lead)); ThreeOctetRange(lead, bytes[i + 1], bytes[i + 2]); }
    if extra == 3 { Fold3(bytes, i + 1, Low3(lead)); FourOctetRange(lead, bytes[i + 1], bytes[i + 2], bytes[i + 3]); }
  }

  /** Leads by mask; a short or wild lead is refused before its tail is looked at. */
  method AcceptByMask(bytes: Bytes) returns (ok: bool)
    ensures ok <==> WellFormed(bytes)
  {
    hide Read, WellFormed;
    WellFormedIffDecodes(bytes);
    var index := 0;
    while index < |bytes|
      invariant 0 <= index <= |bytes|
      invariant Decode(bytes, 0).Some? <==> Decode(bytes, index).Some?
    {
      var width := StepByMask(bytes, index);
      if width == 0 { return false; }
      index := index + width;
    }
    return true;
  }

  /** One scalar value by mask: its width, or zero where there is none. */
  method StepByMask(bytes: Bytes, index: nat) returns (width: nat)
    requires index < |bytes|
    ensures width == if Read(bytes, index).Some? then Read(bytes, index).value.width else 0
  {
    hide Read, IsTail, Leads2, Leads3, Leads4, Low5, Low4, Low3, Fold, Tails;
    var lead := bytes[index];
    ReadCases(bytes, index);
    if lead < 0x80 { return 1; }
    var extra: nat;
    var seed: bv32;
    if Leads2(lead) {
      extra, seed := 1, Low5(lead);
    } else if Leads3(lead) {
      extra, seed := 2, Low4(lead);
    } else if Leads4(lead) {
      extra, seed := 3, Low3(lead);
    } else {
      return 0;
    }
    if index + extra < |bytes| { MaskRange(bytes, index, extra, lead); }
    if extra == 1 && seed < 2 { return 0; }
    if extra == 3 && seed > 4 { return 0; }
    if index + extra >= |bytes| { return 0; }
    var tails, point := FoldTails(bytes, index, extra, seed);
    if !tails { return 0; }
    if extra == 2 && (point < 0x800 || 0xD800 <= point <= 0xDFFF) { return 0; }
    if extra == 3 && (point < 0x10000 || point > 0x10FFFF) { return 0; }
    return extra + 1;
  }

  // ---- the acceptor of the frontend ---------------------------------------------------------------

  lemma LeadRanges(lead: bv8)
    ensures 0xC2 <= lead <= 0xDF <==> Leads2(lead) && Low5(lead) >= 2
    ensures 0xE0 <= lead <= 0xEF <==> Leads3(lead)
    ensures 0xF0 <= lead <= 0xF4 <==> Leads4(lead) && Low3(lead) <= 4
    ensures lead < 0x80 ==> !Leads2(lead) && !Leads3(lead) && !Leads4(lead)
    ensures !(Leads2(lead) && Leads3(lead)) && !(Leads2(lead) && Leads4(lead)) && !(Leads3(lead) && Leads4(lead))
  {
  }

  /** Leads by range, one check at the end for shortest form, range and surrogates. */
  method AcceptByRange(bytes: Bytes) returns (ok: bool)
    ensures ok <==> WellFormed(bytes)
  {
    hide Read, WellFormed;
    WellFormedIffDecodes(bytes);
    var index := 0;
    while index < |bytes|
      invariant 0 <= index <= |bytes|
      invariant Decode(bytes, 0).Some? <==> Decode(bytes, index).Some?
    {
      var width := StepByRange(bytes, index);
      if width == 0 { return false; }
      index := index + width;
    }
    return true;
  }

  /** One scalar value by range: its width, or zero where there is none. */
  method StepByRange(bytes: Bytes, index: nat) returns (width: nat)
    requires index < |bytes|
    ensures width == if Read(bytes, index).Some? then Read(bytes, index).value.width else 0
  {
    hide Read, IsTail, Leads2, Leads3, Leads4, Low5, Low4, Low3, Fold, Tails;
    var lead := bytes[index];
    ReadCases(bytes, index);
    LeadRanges(lead);
    if lead <= 0x7F { return 1; }
    var trailing: nat;
    var seed: bv32;
    var minimum: bv32;
    if index + 1 < |bytes| { MaskRange(bytes, index, 1, lead); }
    if index + 3 < |bytes| { MaskRange(bytes, index, 3, lead); }
    if 0xC2 <= lead <= 0xDF {
      trailing, seed, minimum := 1, Low5(lead), 0x80;
    } else if 0xE0 <= lead <= 0xEF {
      trailing, seed, minimum := 2, Low4(lead), 0x800;
    } else if 0xF0 <= lead <= 0xF4 {
      trailing, seed, minimum := 3, Low3(lead), 0x10000;
    } else {
      return 0;
    }
    if trailing > |bytes| - index - 1 { return 0; }
    var tails, point := FoldTails(bytes, index, trailing, seed);
    if !tails { return 0; }
    if point < minimum || point > 0x10FFFF || 0xD800 <= point <= 0xDFFF { return 0; }
    return trailing + 1;
  }
}
