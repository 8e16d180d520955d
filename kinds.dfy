/** The kind of a join-point filter: a PHP integer used as a bit mask, one
    bit per sort of join point the filter can be asked about. */
module Kinds {
  type Kind = bv64

  /** The capability bits of a filter's kind. */
  const KIND_METHOD: Kind := 1
  const KIND_PROPERTY: Kind := 2
  const KIND_CLASS: Kind := 4

  /** `kind & bit` taken as a PHP truth value. */
  predicate HasKind(kind: Kind, bit: Kind)
  {
    kind & bit != 0
  }

  // Bit-mask facts behind the kind laws of `OrPointFilter`, one per lemma:
  // stated together they cost the solver far more than apart.

  lemma UnionKeepsBits(x: Kind, y: Kind)
    ensures (x | y) & x == x && (x | y) & y == y
  {
  }

  lemma UnionCommutes(x: Kind, y: Kind)
    ensures x | y == y | x
  {
  }

  lemma UnionHasKind(x: Kind, y: Kind, bit: Kind)
    ensures HasKind(x | y, bit) <==> HasKind(x, bit) || HasKind(y, bit)
  {
    var u, v := x & bit, y & bit;
    AndDistributes(x, y, bit);
    OrNonZero(u, v);
    assert (x | y) & bit == u | v;
  }

  lemma AndDistributes(x: Kind, y: Kind, bit: Kind)
    ensures (x | y) & bit == (x & bit) | (y & bit)
  {
  }

  lemma OrNonZero(u: Kind, v: Kind)
    ensures u | v != 0 <==> u != 0 || v != 0
  {
  }
}
