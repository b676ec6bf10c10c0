/** The four-lane transfer digest: every byte is xored into each 64-bit lane,
    and the lane is then multiplied by the FNV prime with wrap-around. */
module TransferDigest {

  type Byte = bv8
  type Lane = bv64

  const SEED: seq<Lane> :=
    [0xcbf29ce484222325, 0x84222325cbf29ce4, 0x9e3779b185ebca87, 0xd6e8feb86659fd93]

  /** One byte into one lane: xor, then a wrapping multiplication by the prime. */
  function Mix(lane: Lane, b: Byte): Lane {
    Scaled(Salted(lane, b))
  }

  function Salted(lane: Lane, b: Byte): Lane {
    lane ^ (b as Lane)
  }

  /** The prime is odd, so scaling has an inverse modulo 2^64. */
  function Scaled(lane: Lane): (r: Lane)
    ensures Unscaled(r) == lane
  {
    assert (lane * 0x100000001b3) * 0xce965057aff6957b == lane;
    lane * 0x100000001b3
  }

  function Unscaled(lane: Lane): Lane {
    lane * 0xce965057aff6957b
  }

  function Absorb(lane: Lane, bytes: seq<Byte>): Lane
    decreases |bytes|
  {
    if bytes == [] then lane else Absorb(Mix(lane, bytes[0]), bytes[1..])
  }

  function Updated(state: seq<Lane>, bytes: seq<Byte>): (r: seq<Lane>)
    ensures |r| == |state|
  {
    seq(|state|, i requires 0 <= i < |state| => Absorb(state[i], bytes))
  }

  /** The eight little-endian bytes of a lane. */
  function LittleEndian(lane: Lane): (r: seq<Byte>)
    ensures |r| == 8
  {
    [(lane & 0xff) as Byte, ((lane >> 8) & 0xff) as Byte,
     ((lane >> 16) & 0xff) as Byte, ((lane >> 24) & 0xff) as Byte,
     ((lane >> 32) & 0xff) as Byte, ((lane >> 40) & 0xff) as Byte,
     ((lane >> 48) & 0xff) as Byte, ((lane >> 56) & 0xff) as Byte]
  }

  function Finalized(state: seq<Lane>): (r: seq<Byte>)
    ensures |r| == 8 * |state|
  {
    if state == [] then [] else LittleEndian(state[0]) + Finalized(state[1..])
  }

  function Digest(bytes: seq<Byte>): seq<Byte> {
    Finalized(Updated(SEED, bytes))
  }

  lemma FinalizedFour(a: Lane, b: Lane, c: Lane, d: Lane)
    ensures Finalized([a, b, c, d]) == LittleEndian(a) + LittleEndian(b) + LittleEndian(c) + LittleEndian(d)
  {
    hide LittleEndian;
    assert [a, b, c, d][1..] == [b, c, d] && [b, c, d][1..] == [c, d] && [c, d][1..] == [d] && [d][1..] == [];
    assert Finalized([d]) == LittleEndian(d);
    assert Finalized([c, d]) == LittleEndian(c) + LittleEndian(d);
    assert Finalized([b, c, d]) == LittleEndian(b) + (LittleEndian(c) + LittleEndian(d));
  }

  lemma SeedBytes()
    ensures LittleEndian(0xcbf29ce484222325) == [0x25, 0x23, 0x22, 0x84, 0xe4, 0x9c, 0xf2, 0xcb]
    ensures LittleEndian(0x84222325cbf29ce4) == [0xe4, 0x9c, 0xf2, 0xcb, 0x25, 0x23, 0x22, 0x84]
    ensures LittleEndian(0x9e3779b185ebca87) == [0x87, 0xca, 0xeb, 0x85, 0xb1, 0x79, 0x37, 0x9e]
    ensures LittleEndian(0xd6e8feb86659fd93) == [0x93, 0xfd, 0x59, 0x66, 0xb8, 0xfe, 0xe8, 0xd6]
  {
  }

  /** The digest of nothing is the four starting values, least significant byte first. */
  lemma EmptyDigest()
    ensures Digest([]) ==
            [0x25, 0x23, 0x22, 0x84, 0xe4, 0x9c, 0xf2, 0xcb] + [0xe4, 0x9c, 0xf2, 0xcb, 0x25, 0x23, 0x22, 0x84]
            + [0x87, 0xca, 0xeb, 0x85, 0xb1, 0x79, 0x37, 0x9e] + [0x93, 0xfd, 0x59, 0x66, 0xb8, 0xfe, 0xe8, 0xd6]
  {
    hide LittleEndian, Finalized;
    assert Updated(SEED, []) == [0xcbf29ce484222325, 0x84222325cbf29ce4, 0x9e3779b185ebca87, 0xd6e8feb86659fd93];
    FinalizedFour(0xcbf29ce484222325, 0x84222325cbf29ce4, 0x9e3779b185ebca87, 0xd6e8feb86659fd93);
    SeedBytes();
  }

  lemma ScaledIs(lane: Lane)
    ensures Scaled(lane) == lane * 0x100000001b3
  {
    hide Unscaled;
  }

  lemma MixIs(lane: Lane, b: Byte)
    ensures Mix(lane, b) == (lane ^ (b as Lane)) * 0x100000001b3
  {
    hide Scaled, Unscaled;
    ScaledIs(lane ^ (b as Lane));
  }

  lemma AbsorbOne(lane: Lane, b: Byte)
    ensures Absorb(lane, [b]) == Mix(lane, b)
  {
    hide Mix;
    assert [b][1..] == [];
  }

  lemma UpdatedOne(b: Byte)
    ensures Updated(SEED, [b]) == [Mix(0xcbf29ce484222325, b), Mix(0x84222325cbf29ce4, b),
                                   Mix(0x9e3779b185ebca87, b), Mix(0xd6e8feb86659fd93, b)]
  {
    hide Mix, Absorb;
    AbsorbOne(0xcbf29ce484222325, b);
    AbsorbOne(0x84222325cbf29ce4, b);
    AbsorbOne(0x9e3779b185ebca87, b);
    AbsorbOne(0xd6e8feb86659fd93, b);
  }

  /** The digest of one byte: each lane is its starting value xored with the byte
      and multiplied by the FNV prime modulo 2^64. */
  lemma OneByteDigest(b: Byte)
    ensures var x := b as Lane;
            Digest([b]) ==
            LittleEndian((0xcbf29ce484222325 ^ x) * 0x100000001b3) + LittleEndian((0x84222325cbf29ce4 ^ x) * 0x100000001b3)
            + LittleEndian((0x9e3779b185ebca87 ^ x) * 0x100000001b3) + LittleEndian((0xd6e8feb86659fd93 ^ x) * 0x100000001b3)
  {
    hide LittleEndian, Finalized, Mix, Updated;
    UpdatedOne(b);
    FinalizedFour(Mix(0xcbf29ce484222325, b), Mix(0x84222325cbf29ce4, b), Mix(0x9e3779b185ebca87, b), Mix(0xd6e8feb86659fd93, b));
    MixIs(0xcbf29ce484222325, b);
    MixIs(0x84222325cbf29ce4, b);
    MixIs(0x9e3779b185ebca87, b);
    MixIs(0xd6e8feb86659fd93, b);
  }

  lemma {:induction false} AbsorbConcat(lane: Lane, a: seq<Byte>, b: seq<Byte>)
    ensures Absorb(lane, a + b) == Absorb(Absorb(lane, a), b)
    decreases |a|
  {
    if a == [] {
      assert a + b == b;
    } else {
      assert (a + b)[1..] == a[1..] + b;
      AbsorbConcat(Mix(lane, a[0]), a[1..], b);
    }
  }

  lemma UpdatedConcat(state: seq<Lane>, a: seq<Byte>, b: seq<Byte>)
    ensures Updated(state, a + b) == Updated(Updated(state, a), b)
  {
    forall i | 0 <= i < |state| ensures Absorb(state[i], a + b) == Absorb(Absorb(state[i], a), b) {
      AbsorbConcat(state[i], a, b);
    }
  }

  function Joined(chunks: seq<seq<Byte>>): seq<Byte> {
    if chunks == [] then [] else chunks[0] + Joined(chunks[1..])
  }

  function UpdatedByChunks(state: seq<Lane>, chunks: seq<seq<Byte>>): seq<Lane>
    decreases |chunks|
  {
    if chunks == [] then state else UpdatedByChunks(Updated(state, chunks[0]), chunks[1..])
  }

  /** However a byte string is cut into chunks, updating chunk by chunk ends in
      the state that one update over the whole string ends in. */
  lemma {:induction false} ChunkingIsIrrelevant(state: seq<Lane>, chunks: seq<seq<Byte>>)
    ensures UpdatedByChunks(state, chunks) == Updated(state, Joined(chunks))
    decreases |chunks|
  {
    if chunks != [] {
      UpdatedConcat(state, chunks[0], Joined(chunks[1..]));
      ChunkingIsIrrelevant(Updated(state, chunks[0]), chunks[1..]);
    }
  }

  lemma ScaledInjective(x: Lane, y: Lane)
    ensures Scaled(x) == Scaled(y) ==> x == y
  {
    hide *;
  }

  lemma SaltedInjective(x: Lane, y: Lane, b: Byte)
    ensures Salted(x, b) == Salted(y, b) ==> x == y
  {
    assert x ^ (b as Lane) == y ^ (b as Lane) ==> x == y;
  }

  lemma SaltedSeparates(x: Lane, b: Byte, c: Byte)
    ensures Salted(x, b) == Salted(x, c) ==> b == c
  {
    assert x ^ (b as Lane) == x ^ (c as Lane) ==> b == c;
  }

  lemma MixInjective(x: Lane, y: Lane, b: Byte)
    ensures Mix(x, b) == Mix(y, b) ==> x == y
  {
    hide Scaled, Unscaled, Salted;
    ScaledInjective(Salted(x, b), Salted(y, b));
    SaltedInjective(x, y, b);
  }

  lemma MixSeparates(x: Lane, b: Byte, c: Byte)
    ensures Mix(x, b) == Mix(x, c) ==> b == c
  {
    hide Scaled, Unscaled, Salted;
    ScaledInjective(Salted(x, b), Salted(x, c));
    SaltedSeparates(x, b, c);
  }

  /** Absorbing the same bytes never merges two different lanes. */
  lemma {:induction false} AbsorbInjective(x: Lane, y: Lane, bytes: seq<Byte>)
    requires x != y
    ensures Absorb(x, bytes) != Absorb(y, bytes)
    decreases |bytes|
  {
    if bytes != [] {
      hide Mix;
      MixInjective(x, y, bytes[0]);
      AbsorbInjective(Mix(x, bytes[0]), Mix(y, bytes[0]), bytes[1..]);
    }
  }

  /** Changing one byte, with any bytes around it, changes the lane. */
  lemma OneByteMovesLane(lane: Lane, before: seq<Byte>, b: Byte, c: Byte, after: seq<Byte>)
    requires b != c
    ensures Absorb(lane, before + [b] + after) != Absorb(lane, before + [c] + after)
  {
    var mid := Absorb(lane, before);
    AbsorbAround(lane, before, b, after);
    AbsorbAround(lane, before, c, after);
    hide Mix;
    MixSeparates(mid, b, c);
    AbsorbInjective(Mix(mid, b), Mix(mid, c), after);
  }

  lemma AbsorbAround(lane: Lane, before: seq<Byte>, b: Byte, after: seq<Byte>)
    ensures Absorb(lane, before + [b] + after) == Absorb(Mix(Absorb(lane, before), b), after)
  {
    assert before + [b] + after == before + ([b] + after);
    AbsorbConcat(lane, before, [b] + after);
    assert ([b] + after)[1..] == after;
  }

  /** The lane a little-endian rendering came from. */
  function FromLittleEndian(r: seq<Byte>): Lane
    requires |r| == 8
  {
    (r[0] as Lane) | ((r[1] as Lane) << 8) | ((r[2] as Lane) << 16) | ((r[3] as Lane) << 24)
    | ((r[4] as Lane) << 32) | ((r[5] as Lane) << 40) | ((r[6] as Lane) << 48) | ((r[7] as Lane) << 56)
  }

  lemma LittleEndianRoundTrip(lane: Lane)
    ensures FromLittleEndian(LittleEndian(lane)) == lane
  {
  }

  /** Finalization renders states of equal length without loss. */
  lemma {:induction false} FinalizedInjective(s: seq<Lane>, t: seq<Lane>)
    requires |s| == |t| && Finalized(s) == Finalized(t)
    ensures s == t
    decreases |s|
  {
    if s != [] {
      var u, v := LittleEndian(s[0]), LittleEndian(t[0]);
      assert u == Finalized(s)[..8] && v == Finalized(t)[..8];
      assert Finalized(s[1..]) == Finalized(s)[8..] && Finalized(t[1..]) == Finalized(t)[8..];
      LittleEndianRoundTrip(s[0]);
      LittleEndianRoundTrip(t[0]);
      FinalizedInjective(s[1..], t[1..]);
      assert s == [s[0]] + s[1..] && t == [t[0]] + t[1..];
    }
  }

  /** Two inputs of equal length that differ in exactly one byte have different
      digests, and the states differ in every one of the four lanes. */
  lemma OneByteChangesDigest(a: seq<Byte>, b: seq<Byte>, k: nat)
    requires |a| == |b| && k < |a| && a[k] != b[k]
    requires forall i | 0 <= i < |a| && i != k :: a[i] == b[i]
    ensures Digest(a) != Digest(b)
    ensures forall i | 0 <= i < 4 :: Updated(SEED, a)[i] != Updated(SEED, b)[i]
  {
    assert a == a[..k] + [a[k]] + a[k + 1..];
    assert b == a[..k] + [b[k]] + a[k + 1..];
    forall i | 0 <= i < 4 ensures Updated(SEED, a)[i] != Updated(SEED, b)[i] {
      OneByteMovesLane(SEED[i], a[..k], a[k], b[k], a[k + 1..]);
    }
    assert Updated(SEED, a)[0] != Updated(SEED, b)[0];
    if Digest(a) == Digest(b) {
      FinalizedInjective(Updated(SEED, a), Updated(SEED, b));
    }
  }

  /** The in-place update: bytes outside, lanes inside. */
  method UpdateTransferDigest(state: array<Lane>, bytes: seq<Byte>)
    modifies state
    ensures state[..] == Updated(old(state[..]), bytes)
  {
    hide Scaled, Unscaled, Salted;
    ghost var start := state[..];
    for k := 0 to |bytes|
      invariant state[..] == Updated(start, bytes[..k])
    {
      ghost var before := state[..];
      for i := 0 to state.Length
        invariant forall j | 0 <= j < i :: state[j] == Mix(before[j], bytes[k])
        invariant forall j | i <= j < state.Length :: state[j] == before[j]
      {
        state[i] := Salted(state[i], bytes[k]);
        state[i] := Scaled(state[i]);
      }
      forall j | 0 <= j < state.Length ensures state[j] == Absorb(start[j], bytes[..k + 1]) {
        assert bytes[..k + 1] == bytes[..k] + [bytes[k]] + [];
        AbsorbAround(start[j], bytes[..k], bytes[k], []);
      }
    }
    assert bytes[..|bytes|] == bytes;
  }

  method FinalizeTransferDigest(state: seq<Lane>) returns (digest: seq<Byte>)
    ensures digest == Finalized(state)
  {
    digest := [];
    for index := 0 to |state|
      invariant digest + Finalized(state[index..]) == Finalized(state)
    {
      assert state[index..][1..] == state[index + 1..];
      digest := digest + LittleEndian(state[index]);
    }
  }

  method ComputeTransferDigest(bytes: seq<Byte>) returns (digest: seq<Byte>)
    ensures digest == Digest(bytes) && |digest| == 32
  {
    var state := new Lane[4](i requires 0 <= i < 4 => SEED[i]);
    assert state[..] == SEED;
    UpdateTransferDigest(state, bytes);
    digest := FinalizeTransferDigest(state[..]);
  }
}
