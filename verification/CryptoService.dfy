/**
 * The crypto service: a block is hashed in pieces while its buffer is still being filled, and what it hands out is what
 * every receiver accepts. SHA-512 and Ed25519 are parameters with the laws they are used by.
 */
module CryptoServices {
  import opened Basics
  import opened Quorums
  import opened Serialization

  datatype Crypto = Crypto(
    codec: Codec,
    hash: Bytes -> Bytes,
    sign: Bytes -> Bytes,
    known: Node -> bool,
    verify: (Node, Bytes, Bytes) -> bool,
    leader: nat -> Node,
    me: Node)

  /** Signatures have 64 bytes. */
  ghost predicate FixedLength(cr: Crypto) {
    forall x :: |cr.sign(x)| == 64
  }

  /** What is encoded decodes to itself, and a node's own signatures verify under its name. */
  ghost predicate Sane(cr: Crypto) {
    && Lawful(cr.codec)
    && FixedLength(cr)
    && (forall x :: cr.verify(cr.me, cr.sign(x), x))
  }

  ghost predicate CollisionFree(cr: Crypto) {
    forall x, y :: cr.hash(x) == cr.hash(y) ==> x == y
  }

  /** Body first, then parent hash, then signature: the order in which they become known. */
  function HashSer(cr: Crypto, ser: Bytes): Bytes
    requires |ser| >= 128
  {
    cr.hash(ser[128..] + ser[64..128] + ser[..64])
  }

  lemma {:induction false} HashSerOrder(cr: Crypto, sig: Bytes, parent: Bytes, body: Bytes)
    requires |sig| == 64 && |parent| == 64
    ensures |sig + parent + body| >= 128 && HashSer(cr, sig + parent + body) == cr.hash(body + parent + sig)
  {
    Pieces(sig, parent, body);
  }

  /** The order is not that of the buffer, and still no two buffers share a hash. */
  lemma {:induction false} HashSerInjective(cr: Crypto, a: Bytes, b: Bytes)
    requires CollisionFree(cr) && |a| >= 128 && |b| >= 128 && HashSer(cr, a) == HashSer(cr, b)
    ensures a == b
  {
    var x, y := a[128..] + a[64..128] + a[..64], b[128..] + b[64..128] + b[..64];
    assert x == y;
    var m := |x| - 128;
    assert a[128..] == x[..m] && a[64..128] == x[m..m + 64] && a[..64] == x[m + 64..];
    assert b[128..] == y[..m] && b[64..128] == y[m..m + 64] && b[..64] == y[m + 64..];
    assert a == a[..64] + a[64..128] + a[128..] && b == b[..64] + b[64..128] + b[128..];
  }

  // ---------------------------------------------------------------- preparing a block

  datatype CachedBlock = CachedBlock(block: ProtoBlock, ser: Bytes, hash: Bytes)

  function Signature(cr: Crypto, parent: Bytes, body: Bytes): Bytes {
    cr.sign(cr.hash(parent + body))
  }

  function ParentOr(parent: Option<Bytes>): Bytes {
    if parent == None then ZEROS else parent.value
  }

  function Prepared(cr: Crypto, b: ProtoBlock, mustSign: bool, parent: Option<Bytes>): (p: CachedBlock)
    requires parent.Some? ==> |parent.value| == 64
    requires |cr.sign(cr.hash(ParentOr(parent) + cr.codec.encode(Bare(b))))| == 64
    ensures |p.ser| >= 128
  {
    var par, body := ParentOr(parent), cr.codec.encode(Bare(b));
    var sig := if mustSign then Signature(cr, par, body) else ZEROS;
    var ser := sig + par + body;
    CachedBlock(Bare(b).(parent := par, sig := if mustSign then ProposerSig(sig) else Absent), ser, HashSer(cr, ser))
  }

  /** The finished buffer, piece by piece: the signature on what is behind it or zeros, the parent hash or zeros, the body. */
  lemma {:induction false} PreparedLayout(cr: Crypto, b: ProtoBlock, mustSign: bool, parent: Option<Bytes>)
    requires FixedLength(cr) && (parent.Some? ==> |parent.value| == 64)
    ensures var p := Prepared(cr, b, mustSign, parent);
            && p.ser[..64] == (if mustSign then cr.sign(cr.hash(p.ser[64..])) else Zeros(64))
            && p.ser[64..128] == (if parent.Some? then parent.value else Zeros(64))
            && p.ser[128..] == cr.codec.encode(b.(parent := [], sig := Absent))
            && p.hash == cr.hash(p.ser[128..] + p.ser[64..128] + p.ser[..64])
            && p.block == b.(parent := p.ser[64..128], sig := if mustSign then ProposerSig(p.ser[..64]) else Absent)
  {
    var par, body := ParentOr(parent), cr.codec.encode(Bare(b));
    Pieces(if mustSign then Signature(cr, par, body) else ZEROS, par, body);
  }

  /** The incremental hasher. */
  class Hasher {
    var fed: Bytes

    constructor ()
      ensures fed == []
    {
      fed := [];
    }

    method Update(bytes: Bytes)
      modifies this
      ensures fed == old(fed) + bytes
    {
      fed := fed + bytes;
    }
  }

  /** The signature is on everything behind the place where it goes. */
  method SignBuffer(cr: Crypto, buf: array<Byte>, ghost parent: Bytes, ghost body: Bytes) returns (sig: Bytes)
    requires FixedLength(cr) && |parent| == 64 && buf[..] == ZEROS + parent + body
    modifies buf
    ensures sig == Signature(cr, parent, body) && buf[..] == sig + parent + body
  {
    Pieces(ZEROS, parent, body);
    var partial := cr.hash(buf[64..]);
    sig := cr.sign(partial);
    assert buf[64..] == buf[..][64..];
    UpdateSignature(buf, sig);
    assert sig + (parent + body) == sig + parent + body;
  }

  /** Each piece is hashed as soon as it is final; the result is the hash of the finished buffer. */
  method PrepareBlock(cr: Crypto, b: ProtoBlock, mustSign: bool, parent: Option<Bytes>)
    returns (block: ProtoBlock, buf: array<Byte>, hsh: Bytes)
    requires FixedLength(cr) && (parent.Some? ==> |parent.value| == 64)
    ensures fresh(buf) && CachedBlock(block, buf[..], hsh) == Prepared(cr, b, mustSign, parent)
  {
    block := b.(sig := Absent, parent := []);
    var nascent := SerializeNascent(cr.codec, block);
    buf := nascent.value;
    ghost var body := cr.codec.encode(Bare(b));
    Pieces(ZEROS, ZEROS, body);
    var hasher := new Hasher();
    hasher.Update(buf[128..]);
    assert buf[128..] == buf[..][128..] && buf[..64] == buf[..][..64];
    assert hasher.fed == body;
    var par := ParentOr(parent);
    UpdateParentHash(buf, par);
    Pieces(ZEROS, par, body);
    block := block.(parent := par);
    hasher.Update(buf[64..128]);
    assert buf[64..128] == buf[..][64..128];
    assert hasher.fed == body + par;
    ghost var sig := ZEROS;
    if mustSign {
      var signature := SignBuffer(cr, buf, par, body);
      block := block.(sig := ProposerSig(signature));
      sig := signature;
    }
    Pieces(sig, par, body);
    hasher.Update(buf[..64]);
    assert buf[..64] == buf[..][..64];
    hsh := cr.hash(hasher.fed);
  }

  // ---------------------------------------------------------------- checking a block

  /** At least `min` signatures, each well-formed, by a known signer, and on the certificate's digest. */
  ghost predicate ValidQc(cr: Crypto, qc: Cert, min: nat) {
    && |qc.sigs| >= min
    && forall i :: 0 <= i < |qc.sigs| ==> |qc.sigs[i].1| == 64 && cr.known(qc.sigs[i].0) && cr.verify(qc.sigs[i].0, qc.sigs[i].1, qc.digest)
  }

  /** Batch verification succeeds when every signature of the batch verifies. */
  predicate VerifyBatch(cr: Crypto, keys: seq<Node>, sigs: seq<Bytes>, msg: Bytes)
    requires |keys| == |sigs|
  {
    forall i :: 0 <= i < |keys| ==> cr.verify(keys[i], sigs[i], msg)
  }

  method VerifyQc(cr: Crypto, qc: Cert, min: nat) returns (ok: bool)
    ensures ok <==> ValidQc(cr, qc, min)
    ensures ok <==> |qc.sigs| >= min && forall i :: 0 <= i < |qc.sigs| ==>
                      |qc.sigs[i].1| == 64 && cr.known(qc.sigs[i].0) && cr.verify(qc.sigs[i].0, qc.sigs[i].1, qc.digest)
  {
    var keys: seq<Node>, sigs: seq<Bytes> := [], [];
    for i := 0 to |qc.sigs|
      invariant |keys| == |sigs| == i
      invariant forall k :: 0 <= k < i ==> keys[k] == qc.sigs[k].0 && sigs[k] == qc.sigs[k].1 && |sigs[k]| == 64 && cr.known(keys[k])
    {
      if |qc.sigs[i].1| != 64 {
        return false;
      }
      if !cr.known(qc.sigs[i].0) {
        return false;
      }
      keys := keys + [qc.sigs[i].0];
      sigs := sigs + [qc.sigs[i].1];
    }
    if |keys| < min {
      return false;
    }
    ok := VerifyBatch(cr, keys, sigs, qc.digest);
    if ok {
      forall k | 0 <= k < |qc.sigs|
        ensures |qc.sigs[k].1| == 64 && cr.known(qc.sigs[k].0) && cr.verify(qc.sigs[k].0, qc.sigs[k].1, qc.digest) {
        assert cr.verify(keys[k], sigs[k], qc.digest);
      }
    }
  }

  // ---------------------------------------------------------------- signatures and signers

  function Signers(sigs: seq<(Node, Bytes)>): set<Node> {
    set i | 0 <= i < |sigs| :: sigs[i].0
  }

  /** How many signatures are by someone who has already signed further up the list. */
  function Repeats(sigs: seq<(Node, Bytes)>): nat {
    if sigs == [] then 0
    else
      var before, last := sigs[..|sigs| - 1], sigs[|sigs| - 1];
      Repeats(before) + if last.0 in Signers(before) then 1 else 0
  }

  lemma {:induction false} SignersAndRepeats(sigs: seq<(Node, Bytes)>)
    ensures |Signers(sigs)| + Repeats(sigs) == |sigs|
  {
    if sigs != [] {
      var before, last := sigs[..|sigs| - 1], sigs[|sigs| - 1];
      SignersAndRepeats(before);
      assert Signers(sigs) == Signers(before) + {last.0} by {
        assert forall i :: 0 <= i < |before| ==> before[i] == sigs[i];
      }
      if last.0 in Signers(before) {
        assert Signers(before) + {last.0} == Signers(before);
      }
    } else {
      assert Signers(sigs) == {};
    }
  }

  /** An accepted certificate has `min` different signers exactly when its signatures outnumber `min` by the repeated ones. */
  lemma {:induction false} EnoughSignersIff(cr: Crypto, qc: Cert, min: nat)
    requires ValidQc(cr, qc, min)
    ensures |Signers(qc.sigs)| >= min <==> |qc.sigs| >= min + Repeats(qc.sigs)
  {
    SignersAndRepeats(qc.sigs);
  }

  predicate NoNameTwice(sigs: seq<(Node, Bytes)>) {
    forall i, j :: 0 <= i < j < |sigs| ==> sigs[i].0 != sigs[j].0
  }

  lemma {:induction false} NoRepeatsIff(sigs: seq<(Node, Bytes)>)
    ensures Repeats(sigs) == 0 <==> NoNameTwice(sigs)
  {
    if sigs != [] {
      var before, last := sigs[..|sigs| - 1], sigs[|sigs| - 1];
      NoRepeatsIff(before);
      assert forall i :: 0 <= i < |before| ==> before[i] == sigs[i];
      if last.0 in Signers(before) {
        var i :| 0 <= i < |before| && before[i].0 == last.0;
        assert sigs[i].0 == last.0;
      } else {
        assert forall i :: 0 <= i < |before| ==> before[i].0 in Signers(before);
      }
    }
  }

  lemma {:induction false} SignersOfFirst(sigs: seq<(Node, Bytes)>, k: nat)
    requires k <= |sigs|
    ensures |Signers(sigs[..k])| <= |Signers(sigs)|
  {
    assert forall i :: 0 <= i < k ==> sigs[..k][i] == sigs[i];
    SubsetSize(Signers(sigs[..k]), Signers(sigs));
  }

  /** No name twice among the first `min` is enough; where there are no more than those, it is also needed. */
  lemma {:induction false} DifferentNamesSuffice(cr: Crypto, qc: Cert, min: nat)
    requires ValidQc(cr, qc, min)
    ensures NoNameTwice(qc.sigs[..min]) ==> |Signers(qc.sigs)| >= min
    ensures |qc.sigs| == min ==> (|Signers(qc.sigs)| >= min <==> NoNameTwice(qc.sigs))
  {
    SignersAndRepeats(qc.sigs[..min]);
    NoRepeatsIff(qc.sigs[..min]);
    SignersOfFirst(qc.sigs, min);
    assert |qc.sigs| == min ==> qc.sigs[..min] == qc.sigs;
  }

  /** One known signer, `min` times. */
  lemma {:induction false} OneSignerAccepted(cr: Crypto, x: Node, sig: Bytes, digest: Bytes, min: nat)
    requires |sig| == 64 && cr.known(x) && cr.verify(x, sig, digest) && min > 0
    ensures var qc := Cert(digest, 0, 0, seq(min, i => (x, sig))); ValidQc(cr, qc, min) && Signers(qc.sigs) == {x}
  {
    var sigs := seq(min, i => (x, sig));
    assert sigs[0].0 == x;
  }

  /** Two accepted certificates with no name twice among the first n - u, all signers nodes: n - 2u nodes signed both. */
  lemma {:induction false} CertificatesOverlap(cr: Crypto, a: Cert, b: Cert, nodes: set<Node>, u: nat)
    requires nodes != {} && ValidConfig(|nodes|, u)
    requires ValidQc(cr, a, |nodes| - u) && ValidQc(cr, b, |nodes| - u)
    requires NoNameTwice(a.sigs[..|nodes| - u]) && NoNameTwice(b.sigs[..|nodes| - u])
    requires Signers(a.sigs) <= nodes && Signers(b.sigs) <= nodes
    ensures |Signers(a.sigs) * Signers(b.sigs)| >= |nodes| - 2 * u >= 1
  {
    DifferentNamesSuffice(cr, a, |nodes| - u);
    DifferentNamesSuffice(cr, b, |nodes| - u);
    Overlap(nodes, Signers(a.sigs), Signers(b.sigs));
  }

  ghost predicate AllQcsValid(cr: Crypto, qcs: seq<Cert>, min: nat) {
    forall i :: 0 <= i < |qcs| ==> ValidQc(cr, qcs[i], min)
  }

  ghost function VerifyDecoded(cr: Crypto, min: nat, ser: Bytes, b: ProtoBlock): Result<CachedBlock>
    requires |ser| >= 128
  {
    if b.sig.ProposerSig? then
      if !cr.verify(cr.leader(b.view), b.sig.bytes, cr.hash(ser[64..])) then Err(InvalidSignature)
      else if !AllQcsValid(cr, b.qcs, min) then Err(InvalidQc)
      else Ok(CachedBlock(b, ser, HashSer(cr, ser)))
    else if b.qcs != [] then Err(QcWithoutSignature)
    else Ok(CachedBlock(b, ser, HashSer(cr, ser)))
  }

  ghost function Verify(cr: Crypto, min: nat, ser: Bytes): Result<CachedBlock>
    requires |ser| >= 128
  {
    var decoded := Deserialize(cr.codec, ser);
    if decoded.Err? then Err(decoded.error) else VerifyDecoded(cr, min, ser, decoded.value)
  }

  function Check(cr: Crypto, hsh: Bytes, ser: Bytes): Result<CachedBlock>
    requires |ser| >= 128
  {
    if HashSer(cr, ser) != hsh then Err(InvalidHash)
    else match Deserialize(cr.codec, ser)
      case Err(e) => Err(e)
      case Ok(b) => Ok(CachedBlock(b, ser, hsh))
  }

  method VerifyBlockSer(cr: Crypto, min: nat, ser: Bytes) returns (r: Result<CachedBlock>)
    requires |ser| >= 128
    ensures r == Verify(cr, min, ser)
  {
    var decoded := Deserialize(cr.codec, ser);
    var hsh := HashSer(cr, ser);
    if decoded.Err? {
      return Err(decoded.error);
    }
    var b := decoded.value;
    if b.sig.ProposerSig? {
      if !cr.verify(cr.leader(b.view), b.sig.bytes, cr.hash(ser[64..])) {
        return Err(InvalidSignature);
      }
      for i := 0 to |b.qcs|
        invariant forall k :: 0 <= k < i ==> ValidQc(cr, b.qcs[k], min)
      {
        var ok := VerifyQc(cr, b.qcs[i], min);
        if !ok {
          return Err(InvalidQc);
        }
      }
    } else if b.qcs != [] {
      return Err(QcWithoutSignature);
    }
    r := Ok(CachedBlock(b, ser, hsh));
  }

  // ---------------------------------------------------------------- prepared blocks are accepted

  /** The block a receiver reads out of a prepared buffer, and when it is the prepared one. */
  lemma {:induction false} PreparedDecodes(cr: Crypto, b: ProtoBlock, mustSign: bool, parent: Option<Bytes>)
    requires Sane(cr) && (parent.Some? ==> |parent.value| == 64)
    ensures var p := Prepared(cr, b, mustSign, parent);
            && p.ser == Prefilled(cr.codec, p.block) && FixedSizes(p.block)
            && Deserialize(cr.codec, p.ser).Ok?
            && Deserialize(cr.codec, p.ser).value.(sig := p.block.sig) == p.block
            && (Deserialize(cr.codec, p.ser) == Ok(Marked(p.block)) <==> p.block.sig != ProposerSig(ZEROS))
  {
    var p := Prepared(cr, b, mustSign, parent);
    assert Bare(p.block) == Bare(b);
    PrefilledRoundTrip(cr.codec, p.block);
  }

  /** The store's check accepts a prepared buffer under its hash, and under that hash nothing else. */
  lemma {:induction false} PreparedChecks(cr: Crypto, b: ProtoBlock, mustSign: bool, parent: Option<Bytes>, other: Bytes)
    requires Sane(cr) && (parent.Some? ==> |parent.value| == 64) && |other| >= 128
    ensures var p := Prepared(cr, b, mustSign, parent);
            && Check(cr, p.hash, p.ser).Ok?
            && (p.block.sig != ProposerSig(ZEROS) ==> Check(cr, p.hash, p.ser) == Ok(CachedBlock(Marked(p.block), p.ser, p.hash)))
            && (CollisionFree(cr) ==> (Check(cr, p.hash, other).Ok? <==> other == p.ser))
  {
    PreparedDecodes(cr, b, mustSign, parent);
    var p := Prepared(cr, b, mustSign, parent);
    if CollisionFree(cr) && HashSer(cr, other) == p.hash {
      HashSerInjective(cr, other, p.ser);
    }
  }

  /**
   * When a receiver accepts a prepared block. Signed: the signature must verify for the leader of the block's view and the
   * certificates must be valid. Unsigned, or signed with an all-zero signature: it must carry no certificates.
   */
  lemma {:induction false} PreparedVerifiesExactly(cr: Crypto, b: ProtoBlock, mustSign: bool, parent: Option<Bytes>, min: nat)
    requires Sane(cr) && (parent.Some? ==> |parent.value| == 64)
    ensures var p := Prepared(cr, b, mustSign, parent);
            Verify(cr, min, p.ser).Ok? <==>
              if mustSign && p.block.sig.bytes != ZEROS
              then cr.verify(cr.leader(b.view), p.block.sig.bytes, cr.hash(p.ser[64..])) && AllQcsValid(cr, b.qcs, min)
              else b.qcs == []
    ensures var p := Prepared(cr, b, mustSign, parent);
            (p.block.sig != ProposerSig(ZEROS) && Verify(cr, min, p.ser).Ok?)
            ==> Verify(cr, min, p.ser) == Ok(CachedBlock(Marked(p.block), p.ser, p.hash))
  {
    hide AllQcsValid, Deserialize;
    PreparedDecodes(cr, b, mustSign, parent);
    var p := Prepared(cr, b, mustSign, parent);
    var back := Deserialize(cr.codec, p.ser).value;
    ReadSignature(cr.codec, p.ser);
    Pieces(if mustSign then p.block.sig.bytes else ZEROS, p.block.parent, cr.codec.encode(Bare(b)));
    assert back.view == b.view && back.qcs == b.qcs;
  }

  /** A signed block whose signature comes out as all zeros, and that carries a certificate, is turned away by everyone. */
  lemma {:induction false} ZeroSignatureTurnedAway(cr: Crypto, b: ProtoBlock, parent: Option<Bytes>, min: nat)
    requires Sane(cr) && (parent.Some? ==> |parent.value| == 64) && b.qcs != []
    requires Signature(cr, ParentOr(parent), cr.codec.encode(Bare(b))) == ZEROS
    ensures Verify(cr, min, Prepared(cr, b, true, parent).ser) == Err(QcWithoutSignature)
  {
    hide Deserialize;
    var p := Prepared(cr, b, true, parent);
    PreparedDecodes(cr, b, true, parent);
    ReadSignature(cr.codec, p.ser);
    Pieces(ZEROS, ParentOr(parent), cr.codec.encode(Bare(b)));
    assert Deserialize(cr.codec, p.ser).value.qcs == b.qcs;
  }

  lemma ReadSignature(c: Codec, ser: Bytes)
    requires |ser| >= 128 && Deserialize(c, ser).Ok?
    ensures Deserialize(c, ser).value.sig == if ser[..64] == ZEROS then NoSig else ProposerSig(ser[..64])
  {
  }

  /** A leader's own blocks are accepted by every receiver, with the same block and the same hash. */
  lemma {:induction false} PreparedVerifies(cr: Crypto, b: ProtoBlock, mustSign: bool, parent: Option<Bytes>, min: nat)
    requires Sane(cr) && (parent.Some? ==> |parent.value| == 64) && cr.leader(b.view) == cr.me
    requires if mustSign then AllQcsValid(cr, b.qcs, min) else b.qcs == []
    requires Prepared(cr, b, mustSign, parent).block.sig != ProposerSig(ZEROS)
    ensures var p := Prepared(cr, b, mustSign, parent);
            Verify(cr, min, p.ser) == Ok(CachedBlock(Marked(p.block), p.ser, p.hash))
  {
    hide AllQcsValid;
    PreparedVerifiesExactly(cr, b, mustSign, parent, min);
    var par, body := ParentOr(parent), cr.codec.encode(Bare(b));
    Pieces(if mustSign then Signature(cr, par, body) else ZEROS, par, body);
  }
}
