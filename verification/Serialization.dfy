/**
 * Blocks as bytes: signature, then parent hash, then the encoded body. The body encoding is any encoding that decodes to
 * what was encoded; hash and signatures have 64 bytes (section 6.4 of FIPS 180-4, section 5.1 of RFC 8032).
 */
module Serialization {
  import opened Basics

  type Bytes = seq<Byte>

  datatype Sig = Absent | NoSig | ProposerSig(bytes: Bytes)

  datatype Cert = Cert(digest: Bytes, n: nat, view: nat, sigs: seq<(Node, Bytes)>)

  datatype ProtoBlock = ProtoBlock(
    n: nat, parent: Bytes, view: nat, viewIsStable: bool, configNum: nat, qcs: seq<Cert>, txs: seq<Bytes>, sig: Sig)

  datatype Error = InvalidNewBlock | InvalidLength | UndecodableBody | InvalidHash | InvalidSignature | InvalidQc | QcWithoutSignature

  datatype Result<+T> = Ok(value: T) | Err(error: Error)

  datatype Codec = Codec(encode: ProtoBlock -> Bytes, decode: Bytes -> Option<ProtoBlock>)

  ghost predicate Lawful(c: Codec) {
    forall b :: c.decode(c.encode(b)) == Some(b)
  }

  function Zeros(n: nat): (z: Bytes)
    ensures |z| == n && forall i :: 0 <= i < n ==> z[i] == 0
  {
    if n == 0 then [] else Zeros(n - 1) + [0]
  }

  const ZEROS := Zeros(64)

  function Bare(b: ProtoBlock): ProtoBlock {
    b.(parent := [], sig := Absent)
  }

  /** A block whose parent hash and signature are not known yet. */
  function Nascent(c: Codec, b: ProtoBlock): Result<Bytes> {
    if b.parent != [] || b.sig.ProposerSig? then Err(InvalidNewBlock) else Ok(ZEROS + ZEROS + c.encode(b))
  }

  function Prefilled(c: Codec, b: ProtoBlock): Bytes {
    (if b.sig.ProposerSig? then b.sig.bytes else ZEROS) + b.parent + c.encode(Bare(b))
  }

  function ParentHash(ser: Bytes): Option<Bytes> {
    if |ser| < 128 then None else Some(ser[64..128])
  }

  function Deserialize(c: Codec, ser: Bytes): Result<ProtoBlock> {
    if |ser| < 128 then Err(InvalidLength)
    else match c.decode(ser[128..])
      case None => Err(UndecodableBody)
      case Some(b) =>
        Ok(b.(parent := ser[64..128], sig := if ser[..64] == ZEROS then NoSig else ProposerSig(ser[..64])))
  }

  // ---------------------------------------------------------------- round trips

  /** What comes back from a serialized block: a missing signature is marked as such. */
  function Marked(b: ProtoBlock): ProtoBlock {
    if b.sig == Absent then b.(sig := NoSig) else b
  }

  predicate FixedSizes(b: ProtoBlock) {
    |b.parent| == 64 && (b.sig.ProposerSig? ==> |b.sig.bytes| == 64)
  }

  lemma Pieces(a: Bytes, p: Bytes, body: Bytes)
    requires |a| == 64 && |p| == 64
    ensures var ser := a + p + body;
            |ser| >= 128 && ser[..64] == a && ser[64..128] == p && ser[128..] == body && ser[64..] == p + body
  {
  }

  /** A block comes back as it was, marked, unless its signature is all zeros; then the signature is lost. */
  lemma {:induction false} PrefilledRoundTrip(c: Codec, b: ProtoBlock)
    requires Lawful(c) && FixedSizes(b)
    ensures Deserialize(c, Prefilled(c, b)) == Ok(Marked(b)) <==> b.sig != ProposerSig(ZEROS)
    ensures Deserialize(c, Prefilled(c, b)).Ok? && Deserialize(c, Prefilled(c, b)).value.(sig := b.sig) == b
    ensures ParentHash(Prefilled(c, b)) == Some(b.parent)
  {
    Pieces(if b.sig.ProposerSig? then b.sig.bytes else ZEROS, b.parent, c.encode(Bare(b)));
  }

  /** A new block is one without a parent hash and without a signature; it gets 128 zeros in front of its body. */
  lemma NascentIff(c: Codec, b: ProtoBlock, i: nat)
    ensures Nascent(c, b).Ok? <==> b.parent == [] && !b.sig.ProposerSig?
    ensures Nascent(c, b).Ok? ==> |Nascent(c, b).value| == 128 + |c.encode(b)| && Nascent(c, b).value[128..] == c.encode(b)
    ensures Nascent(c, b).Ok? && i < 128 ==> Nascent(c, b).value[i] == 0
  {
    Pieces(ZEROS, ZEROS, c.encode(b));
  }

  /** Serializing a new block, reading it back and serializing the result gives the same bytes, if and only if it was not marked. */
  lemma {:induction false} NascentRoundTrip(c: Codec, b: ProtoBlock)
    requires Lawful(c) && Nascent(c, b).Ok?
    ensures Deserialize(c, Nascent(c, b).value).Ok?
    ensures Prefilled(c, Deserialize(c, Nascent(c, b).value).value) == Nascent(c, b).value <==> b.sig == Absent
  {
    var ser := Nascent(c, b).value;
    Pieces(ZEROS, ZEROS, c.encode(b));
    var back := Deserialize(c, ser).value;
    assert Bare(back) == Bare(b);
    Pieces(ZEROS, ZEROS, c.encode(Bare(b)));
    if Prefilled(c, back) == ser {
      assert c.encode(Bare(b)) == Prefilled(c, back)[128..] == ser[128..] == c.encode(b);
      assert Some(Bare(b)) == c.decode(c.encode(Bare(b))) == c.decode(c.encode(b)) == Some(b);
    }
  }

  const PLAIN := ProtoBlock(0, ZEROS, 0, false, 0, [], [], NoSig)

  /** A block signed with zeros comes back unsigned. */
  lemma {:induction false} ZeroSignatureIsLost(c: Codec)
    requires Lawful(c)
    ensures var b := PLAIN.(sig := ProposerSig(ZEROS));
            Deserialize(c, Prefilled(c, b)) == Ok(PLAIN) && Marked(b) == b != PLAIN
  {
    var b := PLAIN.(sig := ProposerSig(ZEROS));
    PrefilledRoundTrip(c, b);
    Pieces(ZEROS, ZEROS, c.encode(Bare(b)));
  }

  /** A new block already marked unsigned does not serialize back to the same bytes. */
  lemma {:induction false} MarkedBlockChangesBytes(c: Codec)
    requires Lawful(c)
    ensures var b := PLAIN.(parent := []);
            Nascent(c, b).Ok? && Deserialize(c, Nascent(c, b).value).Ok?
            && Prefilled(c, Deserialize(c, Nascent(c, b).value).value) != Nascent(c, b).value
  {
    NascentRoundTrip(c, PLAIN.(parent := []));
  }

  // ---------------------------------------------------------------- patching a buffer in place

  /** Overwrites the bytes from `at` on and nothing else. */
  method CopyInto(buf: array<Byte>, at: nat, bytes: Bytes)
    requires at + |bytes| <= buf.Length
    modifies buf
    ensures buf[..] == old(buf[..at]) + bytes + old(buf[at + |bytes|..])
  {
    for i := 0 to |bytes|
      invariant forall k :: 0 <= k < buf.Length && !(at <= k < at + i) ==> buf[k] == old(buf[k])
      invariant forall k :: 0 <= k < i ==> buf[at + k] == bytes[k]
    {
      buf[at + i] := bytes[i];
    }
    ghost var now := old(buf[..at]) + bytes + old(buf[at + |bytes|..]);
    assert forall k :: at <= k < at + |bytes| ==> buf[k] == bytes[k - at] by {
      forall k | at <= k < at + |bytes| ensures buf[k] == bytes[k - at] {
        assert buf[at + (k - at)] == bytes[k - at];
      }
    }
    assert forall k :: 0 <= k < buf.Length ==> buf[k] == now[k];
  }

  method UpdateParentHash(buf: array<Byte>, parent: Bytes)
    requires buf.Length >= 128 && |parent| == 64
    modifies buf
    ensures buf[..] == old(buf[..64]) + parent + old(buf[128..])
  {
    CopyInto(buf, 64, parent);
  }

  method UpdateSignature(buf: array<Byte>, sig: Bytes)
    requires buf.Length >= 64 && |sig| == 64
    modifies buf
    ensures buf[..] == sig + old(buf[64..])
  {
    CopyInto(buf, 0, sig);
    assert old(buf[..0]) == [];
  }

  method SerializeNascent(c: Codec, b: ProtoBlock) returns (buf: Result<array<Byte>>)
    ensures buf.Ok? ==> fresh(buf.value) && Nascent(c, b) == Ok(buf.value[..])
    ensures buf.Err? ==> Nascent(c, b) == Err(buf.error)
  {
    if b.parent != [] || b.sig.ProposerSig? {
      return Err(InvalidNewBlock);
    }
    var bytes := ZEROS + ZEROS + c.encode(b);
    var a := new Byte[|bytes|](i requires 0 <= i < |bytes| => bytes[i]);
    assert a[..] == bytes;
    return Ok(a);
  }
}
