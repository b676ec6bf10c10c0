/** Unpadded base64url (RFC 4648 section 5), as the Invite Code uses it.

    The encoder walks the input in groups of three bytes; the decoder streams
    one character at a time through a bit accumulator. */
module Base64Url {
  import opened Wrappers

  type Byte = bv8

  // ----- Alphabet -----

  /** The letter of a six-bit value. */
  function Letter(v: bv32): Byte
    requires v < 64
  {
    if v < 26 then (v + 65) as Byte
    else if v < 52 then (v - 26 + 97) as Byte
    else if v < 62 then (v - 52 + 48) as Byte
    else if v == 62 then 45
    else 95
  }

  /** The decoder's view of one character: its value, or no value. */
  function Sextet(c: Byte): Option<bv32> {
    if 65 <= c <= 90 then Some((c - 65) as bv32)
    else if 97 <= c <= 122 then Some((c - 97) as bv32 + 26)
    else if 48 <= c <= 57 then Some((c - 48) as bv32 + 52)
    else if c == 45 then Some(62)
    else if c == 95 then Some(63)
    else None
  }

  lemma SextetOfLetter(v: bv32)
    requires v < 64
    ensures Sextet(Letter(v)) == Some(v)
  {
  }

  lemma LetterOfSextet(c: Byte)
    requires Sextet(c).Some?
    ensures Sextet(c).value < 64 && Letter(Sextet(c).value) == c
  {
  }

  // ----- Encoder -----

  /** The 24-bit group of up to three bytes; missing bytes count as zero. */
  function Group(b0: Byte, b1: Byte, b2: Byte): bv32 {
    ((b0 as bv32) << 16) | ((b1 as bv32) << 8) | (b2 as bv32)
  }

  function Slot(group: bv32, k: nat): (v: bv32)
    requires k < 4
    ensures v < 64
  {
    if k == 0 then (group >> 18) & 0x3f
    else if k == 1 then (group >> 12) & 0x3f
    else if k == 2 then (group >> 6) & 0x3f
    else group & 0x3f
  }

  function EncodeGroup(chunk: seq<Byte>): (r: seq<Byte>)
    requires 1 <= |chunk| <= 3
    ensures |r| == |chunk| + 1
  {
    var g := Group(chunk[0], if |chunk| > 1 then chunk[1] else 0, if |chunk| > 2 then chunk[2] else 0);
    [Letter(Slot(g, 0)), Letter(Slot(g, 1))]
    + (if |chunk| > 1 then [Letter(Slot(g, 2))] else [])
    + (if |chunk| > 2 then [Letter(Slot(g, 3))] else [])
  }

  function Encoded(input: seq<Byte>): seq<Byte>
    decreases |input|
  {
    if |input| == 0 then []
    else if |input| <= 3 then EncodeGroup(input)
    else EncodeGroup(input[..3]) + Encoded(input[3..])
  }

  // ----- Decoder -----

  /** The accumulator holds `bits` bits that have not yet become an output byte. */
  datatype Decoder = Decoder(accumulator: bv32, bits: bv32, output: seq<Byte>)

  function Feed(d: Decoder, value: bv32): Decoder
    requires d.bits < 8
  {
    var acc := (d.accumulator << 6) | value;
    var bits := d.bits + 6;
    if bits >= 8 then
      Decoder(acc & ((1 << (bits - 8)) - 1), bits - 8, d.output + [((acc >> (bits - 8)) & 0xff) as Byte])
    else
      Decoder(acc, bits, d.output)
  }

  function FeedAll(d: Decoder, text: seq<Byte>): (r: Option<Decoder>)
    requires d.bits < 8
    ensures r.Some? ==> r.value.bits < 8
    decreases |text|
  {
    if text == [] then Some(d)
    else match Sextet(text[0])
      case None => None
      case Some(v) => FeedAll(Feed(d, v), text[1..])
  }

  function Decoded(text: seq<Byte>): Option<seq<Byte>> {
    if |text| % 4 == 1 then None
    else match FeedAll(Decoder(0, 0, []), text)
      case None => None
      case Some(d) => if d.accumulator != 0 then None else Some(d.output)
  }

  // ----- Round trip -----

  lemma TwoSlots(b0: Byte, output: seq<Byte>)
    ensures var g := Group(b0, 0, 0);
            Feed(Feed(Decoder(0, 0, output), Slot(g, 0)), Slot(g, 1)) == Decoder(0, 4, output + [b0])
  {
  }

  lemma ThreeSlots(b0: Byte, b1: Byte, output: seq<Byte>)
    ensures var g := Group(b0, b1, 0);
            Feed(Feed(Feed(Decoder(0, 0, output), Slot(g, 0)), Slot(g, 1)), Slot(g, 2))
            == Decoder(0, 2, output + [b0, b1])
  {
    assert output + [b0] + [b1] == output + [b0, b1];
  }

  lemma FourSlots(b0: Byte, b1: Byte, b2: Byte, output: seq<Byte>)
    ensures var g := Group(b0, b1, b2);
            Feed(Feed(Feed(Feed(Decoder(0, 0, output), Slot(g, 0)), Slot(g, 1)), Slot(g, 2)), Slot(g, 3))
            == Decoder(0, 0, output + [b0, b1, b2])
  {
    assert output + [b0] + [b1] + [b2] == output + [b0, b1, b2];
  }

  lemma FeedLetter(d: Decoder, v: bv32, rest: seq<Byte>)
    requires d.bits < 8 && v < 64
    ensures FeedAll(d, [Letter(v)] + rest) == FeedAll(Feed(d, v), rest)
  {
    SextetOfLetter(v);
    assert ([Letter(v)] + rest)[1..] == rest;
  }

  /** The decoder run over one whole encoded group, wherever the group stands. */
  lemma FeedGroup(chunk: seq<Byte>, rest: seq<Byte>, output: seq<Byte>)
    requires 1 <= |chunk| <= 3
    ensures FeedAll(Decoder(0, 0, output), EncodeGroup(chunk) + rest)
         == FeedAll(Decoder(0, if |chunk| == 1 then 4 else if |chunk| == 2 then 2 else 0, output + chunk), rest)
  {
    hide Slot, Group, Letter, Sextet, Feed, FeedAll;
    FeedBits();
    var g := Group(chunk[0], if |chunk| > 1 then chunk[1] else 0, if |chunk| > 2 then chunk[2] else 0);
    var l := seq(4, k requires 0 <= k < 4 => Letter(Slot(g, k)));
    var d0 := Decoder(0, 0, output);
    var d1 := Feed(d0, Slot(g, 0));
    var d2 := Feed(d1, Slot(g, 1));
    if |chunk| == 1 {
      assert EncodeGroup(chunk) + rest == [l[0]] + ([l[1]] + rest);
      FeedLetter(d0, Slot(g, 0), [l[1]] + rest);
      FeedLetter(d1, Slot(g, 1), rest);
      TwoSlots(chunk[0], output);
      assert chunk == [chunk[0]];
    } else if |chunk| == 2 {
      assert EncodeGroup(chunk) + rest == [l[0]] + ([l[1]] + ([l[2]] + rest));
      FeedLetter(d0, Slot(g, 0), [l[1]] + ([l[2]] + rest));
      FeedLetter(d1, Slot(g, 1), [l[2]] + rest);
      FeedLetter(d2, Slot(g, 2), rest);
      ThreeSlots(chunk[0], chunk[1], output);
      assert chunk == [chunk[0], chunk[1]];
    } else {
      FeedFullGroup(chunk, rest, output);
    }
  }

  lemma FeedFullGroup(chunk: seq<Byte>, rest: seq<Byte>, output: seq<Byte>)
    requires |chunk| == 3
    ensures FeedAll(Decoder(0, 0, output), EncodeGroup(chunk) + rest) == FeedAll(Decoder(0, 0, output + chunk), rest)
  {
    hide Slot, Group, Letter, Sextet, Feed, FeedAll;
    FeedBits();
    var g := Group(chunk[0], chunk[1], chunk[2]);
    var l := seq(4, k requires 0 <= k < 4 => Letter(Slot(g, k)));
    var d1 := Feed(Decoder(0, 0, output), Slot(g, 0));
    var d2 := Feed(d1, Slot(g, 1));
    assert EncodeGroup(chunk) + rest == [l[0]] + ([l[1]] + ([l[2]] + ([l[3]] + rest)));
    FeedLetter(Decoder(0, 0, output), Slot(g, 0), [l[1]] + ([l[2]] + ([l[3]] + rest)));
    FeedLetter(d1, Slot(g, 1), [l[2]] + ([l[3]] + rest));
    FeedLetter(d2, Slot(g, 2), [l[3]] + rest);
    FeedLetter(Feed(d2, Slot(g, 2)), Slot(g, 3), rest);
    FourSlots(chunk[0], chunk[1], chunk[2], output);
    assert chunk == [chunk[0], chunk[1], chunk[2]];
  }

  lemma FeedBits()
    ensures forall d: Decoder, v: bv32 | d.bits < 8 :: Feed(d, v).bits < 8
  {
  }

  lemma {:induction false} FeedEncoded(input: seq<Byte>, output: seq<Byte>)
    ensures |Encoded(input)| % 4 != 1
    ensures var r := FeedAll(Decoder(0, 0, output), Encoded(input));
            r.Some? && r.value.accumulator == 0 && r.value.output == output + input
    decreases |input|
  {
    hide EncodeGroup, Feed;
    if |input| == 0 {
      assert output + input == output;
    } else if |input| <= 3 {
      FeedGroup(input, [], output);
      assert EncodeGroup(input) + [] == Encoded(input);
    } else {
      FeedGroup(input[..3], Encoded(input[3..]), output);
      FeedEncoded(input[3..], output + input[..3]);
      assert output + input[..3] + input[3..] == output + input;
    }
  }

  /** Decoding undoes encoding, for every byte string. */
  lemma RoundTrip(input: seq<Byte>)
    ensures Decoded(Encoded(input)) == Some(input)
  {
    FeedEncoded(input, []);
    assert [] + input == input;
  }

  // ----- Canonicity -----

  lemma TwoValues(v0: bv32, v1: bv32, output: seq<Byte>)
    requires v0 < 64 && v1 < 64
    ensures var d := Feed(Feed(Decoder(0, 0, output), v0), v1);
            && d.bits == 4 && |d.output| == |output| + 1 && d.output[..|output|] == output
            && (d.accumulator == 0 ==>
                  var g := Group(d.output[|output|], 0, 0); Slot(g, 0) == v0 && Slot(g, 1) == v1)
  {
  }

  lemma ThreeValues(v0: bv32, v1: bv32, v2: bv32, output: seq<Byte>)
    requires v0 < 64 && v1 < 64 && v2 < 64
    ensures var d := Feed(Feed(Feed(Decoder(0, 0, output), v0), v1), v2);
            && d.bits == 2 && |d.output| == |output| + 2 && d.output[..|output|] == output
            && (d.accumulator == 0 ==>
                  var g := Group(d.output[|output|], d.output[|output| + 1], 0);
                  Slot(g, 0) == v0 && Slot(g, 1) == v1 && Slot(g, 2) == v2)
  {
  }

  lemma FourValues(v0: bv32, v1: bv32, v2: bv32, v3: bv32, output: seq<Byte>)
    requires v0 < 64 && v1 < 64 && v2 < 64 && v3 < 64
    ensures var d := Feed(Feed(Feed(Feed(Decoder(0, 0, output), v0), v1), v2), v3);
            && d.bits == 0 && d.accumulator == 0
            && |d.output| == |output| + 3 && d.output[..|output|] == output
            && var g := Group(d.output[|output|], d.output[|output| + 1], d.output[|output| + 2]);
               Slot(g, 0) == v0 && Slot(g, 1) == v1 && Slot(g, 2) == v2 && Slot(g, 3) == v3
  {
  }

  lemma EncodeGroupFromSlots(text: seq<Byte>, chunk: seq<Byte>)
    requires 2 <= |text| <= 4 && |chunk| == |text| - 1
    requires forall k | 0 <= k < |text| :: Sextet(text[k]).Some?
    requires var g := Group(chunk[0], if |chunk| > 1 then chunk[1] else 0, if |chunk| > 2 then chunk[2] else 0);
             forall k | 0 <= k < |text| :: Slot(g, k) == Sextet(text[k]).value
    ensures EncodeGroup(chunk) == text
  {
    hide Group, Slot, Letter, Sextet;
    forall k | 0 <= k < |text|
      ensures Sextet(text[k]).value < 64 && Letter(Sextet(text[k]).value) == text[k]
    {
      LetterOfSextet(text[k]);
    }
    var g := Group(chunk[0], if |chunk| > 1 then chunk[1] else 0, if |chunk| > 2 then chunk[2] else 0);
    assert Slot(g, 0) == Sextet(text[0]).value && Slot(g, 1) == Sextet(text[1]).value;
  }

  /** What the decoder can have been fed when it stops with an empty
      accumulator: text it accepted was the encoding of what it put out. */
  lemma {:induction false} FedWasEncoded(text: seq<Byte>, output: seq<Byte>)
    requires |text| % 4 != 1
    requires var r := FeedAll(Decoder(0, 0, output), text); r.Some? && r.value.accumulator == 0
    ensures var d := FeedAll(Decoder(0, 0, output), text).value;
            output <= d.output && Encoded(d.output[|output|..]) == text
    decreases |text|
  {
    if 0 < |text| <= 4 {
      FedShort(text, output);
    } else if |text| > 4 {
      hide Group, Slot, Letter, Sextet, Feed, EncodeGroup, FeedAll;
      var d := FeedAll(Decoder(0, 0, output), text).value;
      var chunk, mid := FedHead(text, output, 4);
      EncodeGroupFromSlots(text[..4], chunk);
      FedWasEncoded(text[4..], mid);
      EncodedLonger(chunk, d.output[|mid|..]);
      assert d.output[|output|..] == chunk + d.output[|mid|..];
      assert text == text[..4] + text[4..];
    }
  }

  lemma EncodedLonger(chunk: seq<Byte>, rest: seq<Byte>)
    requires |chunk| == 3 && Encoded(rest) != []
    ensures Encoded(chunk + rest) == EncodeGroup(chunk) + Encoded(rest)
  {
    hide EncodeGroup;
    assert (chunk + rest)[..3] == chunk && (chunk + rest)[3..] == rest;
  }

  lemma FedShort(text: seq<Byte>, output: seq<Byte>)
    requires 2 <= |text| <= 4
    requires var r := FeedAll(Decoder(0, 0, output), text); r.Some? && r.value.accumulator == 0
    ensures var d := FeedAll(Decoder(0, 0, output), text).value;
            output <= d.output && Encoded(d.output[|output|..]) == text
  {
    FeedNothing();
    hide Group, Slot, Letter, Sextet, Feed, EncodeGroup, FeedAll;
    var chunk, mid := FedHead(text, output, |text|);
    assert text[..|text|] == text && text[|text|..] == [];
    EncodeGroupFromSlots(text, chunk);
    assert mid[|output|..] == chunk;
  }

  lemma FeedNothing()
    ensures forall d: Decoder | d.bits < 8 :: FeedAll(d, []) == Some(d)
  {
  }

  lemma FedHead(text: seq<Byte>, output: seq<Byte>, n: nat) returns (chunk: seq<Byte>, mid: seq<Byte>)
    requires 2 <= n <= 4 && n <= |text| && (n < 4 ==> n == |text|)
    requires var r := FeedAll(Decoder(0, 0, output), text); r.Some? && r.value.accumulator == 0
    ensures |chunk| == n - 1 && mid == output + chunk
    ensures forall k | 0 <= k < n :: Sextet(text[k]).Some?
    ensures var g := Group(chunk[0], if n > 2 then chunk[1] else 0, if n > 3 then chunk[2] else 0);
            forall k | 0 <= k < n :: Slot(g, k) == Sextet(text[k]).value
    ensures n == 4 ==> FeedAll(Decoder(0, 0, output), text) == FeedAll(Decoder(0, 0, mid), text[4..])
    ensures n < 4 ==> FeedAll(Decoder(0, 0, output), text).value.output == mid
  {
    hide Group, Slot, Letter, Sextet, Feed;
    FeedBits();
    assert Sextet(text[0]).Some?;
    var d1 := Feed(Decoder(0, 0, output), Sextet(text[0]).value);
    assert FeedAll(Decoder(0, 0, output), text) == FeedAll(d1, text[1..]);
    assert text[1..][0] == text[1] && text[1..][1..] == text[2..];
    assert Sextet(text[1]).Some?;
    var d2 := Feed(d1, Sextet(text[1]).value);
    assert FeedAll(Decoder(0, 0, output), text) == FeedAll(d2, text[2..]);
    LetterOfSextet(text[0]);
    LetterOfSextet(text[1]);
    if n == 2 {
      assert text[2..] == [];
      TwoValues(Sextet(text[0]).value, Sextet(text[1]).value, output);
      chunk, mid := [d2.output[|output|]], d2.output;
      return;
    }
    assert text[2..][0] == text[2] && text[2..][1..] == text[3..];
    assert Sextet(text[2]).Some?;
    LetterOfSextet(text[2]);
    var d3 := Feed(d2, Sextet(text[2]).value);
    assert FeedAll(Decoder(0, 0, output), text) == FeedAll(d3, text[3..]);
    if n == 3 {
      assert text[3..] == [];
      ThreeValues(Sextet(text[0]).value, Sextet(text[1]).value, Sextet(text[2]).value, output);
      chunk, mid := [d3.output[|output|], d3.output[|output| + 1]], d3.output;
      return;
    }
    assert text[3..][0] == text[3] && text[3..][1..] == text[4..];
    assert Sextet(text[3]).Some?;
    LetterOfSextet(text[3]);
    var d4 := Feed(d3, Sextet(text[3]).value);
    FourValues(Sextet(text[0]).value, Sextet(text[1]).value, Sextet(text[2]).value, Sextet(text[3]).value, output);
    chunk, mid := [d4.output[|output|], d4.output[|output| + 1], d4.output[|output| + 2]], d4.output;
  }

  /** Whenever decoding succeeds, encoding the result gives back that very text:
      no two texts decode alike, and the leftover bits carry nothing. */
  lemma Canonical(text: seq<Byte>)
    requires Decoded(text).Some?
    ensures Encoded(Decoded(text).value) == text
  {
    FedWasEncoded(text, []);
    var d := FeedAll(Decoder(0, 0, []), text).value;
    assert d.output[0..] == d.output;
  }

  /** The decoder accepts exactly the encoder's image. */
  lemma AcceptsExactlyTheImage(text: seq<Byte>)
    ensures Decoded(text).Some? <==> exists input: seq<Byte> :: Encoded(input) == text
  {
    if Decoded(text).Some? {
      Canonical(text);
    }
    if input: seq<Byte> :| Encoded(input) == text {
      RoundTrip(input);
    }
  }

  // ----- The accumulator's bit budget -----

  /** At most six bits wait in the accumulator, and it holds no higher bit. */
  ghost predicate WithinBudget(d: Decoder) {
    || (d.bits == 0 && d.accumulator == 0)
    || (d.bits == 2 && d.accumulator < 4)
    || (d.bits == 4 && d.accumulator < 16)
    || (d.bits == 6 && d.accumulator < 64)
  }

  /** One step keeps the budget, and shifting the accumulator up pushes no bit
      out of its 32 and leaves the low six free for the new value. */
  lemma FeedKeepsBudget(d: Decoder, v: bv32)
    requires WithinBudget(d) && v < 64
    ensures WithinBudget(Feed(d, v))
    ensures ((d.accumulator << 6) >> 6) == d.accumulator && (d.accumulator << 6) & v == 0
  {
  }

  lemma {:induction false} FeedAllKeepsBudget(d: Decoder, text: seq<Byte>)
    requires WithinBudget(d) && FeedAll(d, text).Some?
    ensures WithinBudget(FeedAll(d, text).value)
    decreases |text|
  {
    hide Feed;
    if text != [] {
      LetterOfSextet(text[0]);
      FeedBits();
      FeedKeepsBudget(d, Sextet(text[0]).value);
      FeedAllKeepsBudget(Feed(d, Sextet(text[0]).value), text[1..]);
    }
  }

  // ----- Reference: the RFC's table and layout -----

  /** Table 2 of RFC 4648, in order. */
  lemma AlphabetIsTheRfcTable()
    ensures [65, 66, 67, 68, 69, 70, 71, 72, 73, 74, 75, 76, 77, 78, 79, 80, 81, 82, 83, 84, 85, 86,
             87, 88, 89, 90, 97, 98, 99, 100, 101, 102, 103, 104, 105, 106, 107, 108, 109, 110, 111,
             112, 113, 114, 115, 116, 117, 118, 119, 120, 121, 122, 48, 49, 50, 51, 52, 53, 54, 55,
             56, 57, 45, 95]
         == [Letter(0), Letter(1), Letter(2), Letter(3), Letter(4), Letter(5), Letter(6), Letter(7),
             Letter(8), Letter(9), Letter(10), Letter(11), Letter(12), Letter(13), Letter(14), Letter(15),
             Letter(16), Letter(17), Letter(18), Letter(19), Letter(20), Letter(21), Letter(22), Letter(23),
             Letter(24), Letter(25), Letter(26), Letter(27), Letter(28), Letter(29), Letter(30), Letter(31),
             Letter(32), Letter(33), Letter(34), Letter(35), Letter(36), Letter(37), Letter(38), Letter(39),
             Letter(40), Letter(41), Letter(42), Letter(43), Letter(44), Letter(45), Letter(46), Letter(47),
             Letter(48), Letter(49), Letter(50), Letter(51), Letter(52), Letter(53), Letter(54), Letter(55),
             Letter(56), Letter(57), Letter(58), Letter(59), Letter(60), Letter(61), Letter(62), Letter(63)]
  {
  }

  /** The layout drawn in section 4 of the RFC: each letter takes the next six
      bits of the group, high bits first, and missing bytes leave zero bits. */
  lemma GroupLayout(chunk: seq<Byte>)
    requires 1 <= |chunk| <= 3
    ensures EncodeGroup(chunk)[0] == Letter((chunk[0] >> 2) as bv32)
    ensures EncodeGroup(chunk)[1]
         == Letter((((chunk[0] & 3) << 4) | (if |chunk| > 1 then chunk[1] >> 4 else 0)) as bv32)
    ensures |chunk| > 1 ==>
              EncodeGroup(chunk)[2] == Letter((((chunk[1] & 15) << 2) | (if |chunk| > 2 then chunk[2] >> 6 else 0)) as bv32)
    ensures |chunk| > 2 ==> EncodeGroup(chunk)[3] == Letter((chunk[2] & 63) as bv32)
  {
    SlotsByByte(chunk[0], if |chunk| > 1 then chunk[1] else 0, if |chunk| > 2 then chunk[2] else 0);
    hide Slot, Group, Letter;
  }

  lemma SlotsByByte(b0: Byte, b1: Byte, b2: Byte)
    ensures var g := Group(b0, b1, b2);
            && Slot(g, 0) == (b0 >> 2) as bv32
            && Slot(g, 1) == (((b0 & 3) << 4) | (b1 >> 4)) as bv32
            && Slot(g, 2) == (((b1 & 15) << 2) | (b2 >> 6)) as bv32
            && Slot(g, 3) == (b2 & 63) as bv32
  {
  }

  // ----- The two loops -----

  method EncodeText(input: seq<Byte>) returns (output: seq<Byte>)
    ensures output == Encoded(input)
  {
    hide EncodeGroup;
    output := [];
    var i := 0;
    while i < |input|
      invariant 0 <= i <= |input|
      invariant output + Encoded(input[i..]) == Encoded(input)
    {
      var chunk := input[i..if i + 3 <= |input| then i + 3 else |input|];
      output := output + EncodeGroup(chunk);
      EncodedStep(input[i..], chunk);
      assert input[i..][|chunk|..] == input[i + |chunk|..];
      i := i + |chunk|;
    }
  }

  lemma EncodedStep(input: seq<Byte>, chunk: seq<Byte>)
    requires input != [] && chunk == if |input| <= 3 then input else input[..3]
    ensures Encoded(input) == EncodeGroup(chunk) + Encoded(input[|chunk|..])
  {
  }

  method DecodeText(input: seq<Byte>) returns (r: Option<seq<Byte>>)
    ensures r == Decoded(input)
  {
    if |input| % 4 == 1 {
      return None;
    }
    hide Sextet, Feed;
    var d := Decoder(0, 0, []);
    for i := 0 to |input|
      invariant WithinBudget(d)
      invariant FeedAll(Decoder(0, 0, []), input) == FeedAll(d, input[i..])
    {
      assert input[i..][0] == input[i] && input[i..][1..] == input[i + 1..];
      var value := Sextet(input[i]);
      if value.None? {
        return None;
      }
      LetterOfSextet(input[i]);
      FeedKeepsBudget(d, value.value);
      d := Feed(d, value.value);
    }
    assert input[|input|..] == [];
    return if d.accumulator != 0 then None else Some(d.output);
  }
}
