/**
 BMR/Key.h and the KeyVector of BMR/Register.h: keys under exclusive or, with a signal bit.
 The other modules use the laws below only; the blocks of the program have them.
 Each law is a named predicate that a proof asserts where it needs it.
 */
module Keys {

  datatype KeyGroup<!K> = KeyGroup(
    xor: (K, K) -> K,
    zero: K,
    one: K,             // the block with only the signal bit set
    signal: K -> bool)

  ghost predicate XorComm<K>(G: KeyGroup<K>, a: K, b: K) {
    G.xor(a, b) == G.xor(b, a)
  }

  ghost predicate XorAssoc<K>(G: KeyGroup<K>, a: K, b: K, c: K) {
    G.xor(G.xor(a, b), c) == G.xor(a, G.xor(b, c))
  }

  ghost predicate XorSelf<K>(G: KeyGroup<K>, a: K) {
    G.xor(a, a) == G.zero && G.xor(a, G.zero) == a && G.xor(G.zero, a) == a
  }

  ghost predicate XorSignal<K>(G: KeyGroup<K>, a: K, b: K) {
    G.signal(G.xor(a, b)) <==> G.signal(a) != G.signal(b)
  }

  ghost predicate IsKeyGroup<K(!new)>(G: KeyGroup<K>) {
    && G.signal(G.one)
    && (forall a, b :: XorComm(G, a, b))
    && (forall a, b, c :: XorAssoc(G, a, b, c))
    && (forall a :: XorSelf(G, a))
    && (forall a, b :: XorSignal(G, a, b))
  }

  lemma XorCancel<K(!new)>(G: KeyGroup<K>, a: K, b: K)
    requires IsKeyGroup(G)
    ensures G.xor(G.xor(a, b), b) == a && G.xor(b, G.xor(b, a)) == a
  {
    assert XorAssoc(G, a, b, b) && XorAssoc(G, b, b, a) && XorSelf(G, a) && XorSelf(G, b);
  }

  /** Interchanges the middle two of four keys. */
  lemma XorSwap<K(!new)>(G: KeyGroup<K>, a: K, b: K, c: K, d: K)
    requires IsKeyGroup(G)
    ensures G.xor(G.xor(a, b), G.xor(c, d)) == G.xor(G.xor(a, c), G.xor(b, d))
  {
    assert XorAssoc(G, a, b, G.xor(c, d)) && XorAssoc(G, a, c, G.xor(b, d));
    assert XorAssoc(G, b, c, d) && XorAssoc(G, c, b, d) && XorComm(G, b, c);
  }

  /** The correction that init applies to fresh keys: the signal bit of a b-key becomes b. */
  function WithSignal<K>(G: KeyGroup<K>, k: K, b: bool): K {
    if G.signal(k) != b then G.xor(k, G.one) else k
  }

  function XorVec<K>(G: KeyGroup<K>, a: seq<K>, b: seq<K>): (r: seq<K>)
    requires |a| == |b|
  {
    seq(|a|, i requires 0 <= i < |a| => G.xor(a[i], b[i]))
  }

  function ZeroVec<K>(G: KeyGroup<K>, n: nat): seq<K> {
    seq(n, _ => G.zero)
  }

  // ---------- blocks ----------

  /** A block, given by the positions of its one bits: exclusive or is symmetric difference, and
      the signal bit is the lowest. The blocks of 128 bits are the subsets of 0..127. */
  function Blocks(): KeyGroup<set<int>> {
    KeyGroup((a: set<int>, b: set<int>) => (a - b) + (b - a), {}, {0}, (a: set<int>) => 0 in a)
  }

  lemma BlocksAreKeys()
    ensures IsKeyGroup(Blocks())
  {
    var G := Blocks();
    assert G.signal(G.one);
    forall a, b
      ensures XorComm(G, a, b) && XorSignal(G, a, b)
    {
      assert G.xor(a, b) == G.xor(b, a);
    }
    forall a, b, c
      ensures XorAssoc(G, a, b, c)
    {
      assert G.xor(G.xor(a, b), c) == G.xor(a, G.xor(b, c));
    }
    forall a
      ensures XorSelf(G, a)
    {
      assert G.xor(a, a) == {} && G.xor(a, {}) == a && G.xor({}, a) == a;
    }
  }
}
