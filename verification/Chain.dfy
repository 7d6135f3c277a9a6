/**
 * Blocks, hash links, and the plain hash chain that the log server stands for.
 *
 * SHA-512 (section 6.4 of FIPS 180-4) is taken to be collision-free: the digest of a block is
 * the constructor `Sha` applied to it, and `Raw` stands for every other digest-sized string.
 */
module Chain {
  import opened Basics

  datatype Digest = Raw(tag: nat) | Sha(of: Block)

  datatype Qc = Qc(n: nat, view: nat, id: nat)

  type Tx = nat

  datatype Block = Block(
    n: nat, parent: Digest, view: nat, viewIsStable: bool, configNum: nat,
    qcs: seq<Qc>, txs: seq<Tx>, signed: bool)

  /** `default_hash()`: the parent of a block prepared with no predecessor. */
  const ZERO_HASH := Raw(0)

  datatype Hint = Hint(n: nat, digest: Digest)

  /** Numbered from 1 and hash-linked. The parent of block 1 is never looked at. */
  ghost predicate Linked(c: seq<Block>) {
    && (forall i :: 0 <= i < |c| ==> c[i].n == i + 1)
    && (forall i :: 0 < i < |c| ==> NamesParent(c, i))
  }

  ghost predicate NamesParent(c: seq<Block>, i: nat)
    requires 0 < i < |c|
  {
    c[i].parent == Sha(c[i - 1])
  }

  /** The two chains hold the same block n; n == 0 is the point before the first block. */
  predicate AgreeAt(a: seq<Block>, b: seq<Block>, n: nat) {
    n == 0 || (n <= |a| && n <= |b| && a[n - 1] == b[n - 1])
  }

  /** One common block fixes everything before it. */
  lemma {:induction false} AgreementIsPrefix(a: seq<Block>, b: seq<Block>, n: nat)
    requires Linked(a) && Linked(b) && AgreeAt(a, b, n)
    ensures n <= |a| && n <= |b| && a[..n] == b[..n]
  {
    if n > 0 {
      if n > 1 {
        assert NamesParent(a, n - 1) && NamesParent(b, n - 1);
      }
      AgreementIsPrefix(a, b, n - 1);
      assert a[..n] == a[..n - 1] + [a[n - 1]] && b[..n] == b[..n - 1] + [b[n - 1]];
    }
  }

  lemma {:induction false} AgreementIsDownwardClosed(a: seq<Block>, b: seq<Block>, m: nat, n: nat)
    requires Linked(a) && Linked(b) && AgreeAt(a, b, n) && m <= n
    ensures AgreeAt(a, b, m)
  {
    AgreementIsPrefix(a, b, n);
    if m > 0 {
      assert a[m - 1] == a[..n][m - 1] == b[..n][m - 1] == b[m - 1];
    }
  }

  // ---------------------------------------------------------------- what a plain chain answers

  function Lookup(c: seq<Block>, n: nat): Option<Block> {
    if 1 <= n <= |c| then Some(c[n - 1]) else None
  }

  predicate CheckHash(c: seq<Block>, n: nat, h: Digest) {
    n == 0 || (n <= |c| && Sha(c[n - 1]) == h)
  }

  /** A block is appended when it is the next one and, unless it is the first, names the tip as its parent. */
  function Append(c: seq<Block>, b: Block): seq<Block> {
    if b.n == |c| + 1 && (c == [] || b.parent == Sha(c[|c| - 1])) then c + [b] else c
  }

  /** Rolling back to a byzantine-committed block or below keeps one block past the committed ones. */
  function Clamp(n: nat, bci: nat): nat {
    if n <= bci then bci + 1 else n
  }

  function Truncate(c: seq<Block>, n: nat): seq<Block> {
    if n <= |c| then c[..n] else c
  }

  /** Collecting a hint list into a hash map: the last hint for a number wins. */
  function HintMap(hints: seq<Hint>): map<nat, Digest> {
    if hints == [] then map[]
    else HintMap(hints[..|hints| - 1])[hints[|hints| - 1].n := hints[|hints| - 1].digest]
  }

  predicate Matches(c: seq<Block>, hm: map<nat, Digest>, i: nat) {
    1 <= i <= |c| && i in hm && hm[i] == Sha(c[i - 1])
  }

  /** Blocks i, i - 1, ... down to `first`, stopping at a missing block or at a matching hint. */
  function FillDown(c: seq<Block>, first: nat, i: int, hm: map<nat, Digest>): seq<Block>
    decreases i
  {
    if i < first || i < 0 || Lookup(c, i) == None || Matches(c, hm, i) then []
    else FillDown(c, first, i - 1, hm) + [c[i - 1]]
  }

  const JUMP_START := 1000

  function HintAt(c: seq<Block>, n: nat): Hint
    requires 1 <= n <= |c|
  {
    Hint(c[n - 1].n, Sha(c[n - 1]))
  }

  /** The jump grows tenfold after ten uses. */
  function NextJump(jump: nat, used: nat): (nat, nat) {
    if used + 1 >= 10 then (jump * 10, 0) else (jump, used + 1)
  }

  function HintsFrom(c: seq<Block>, curr: nat, jump: nat, used: nat): seq<Hint>
    requires curr >= 1 && jump >= 1
    decreases |c| - curr
  {
    if curr < |c| then [HintAt(c, curr)] + HintsFrom(c, curr + jump, NextJump(jump, used).0, NextJump(jump, used).1)
    else if c != [] then [HintAt(c, |c|)]
    else []
  }

  function HintStart(needed: nat): nat {
    if needed == 0 then 1 else needed
  }

  function Hints(c: seq<Block>, needed: nat): seq<Hint> {
    HintsFrom(c, HintStart(needed), JUMP_START, 0)
  }
}
