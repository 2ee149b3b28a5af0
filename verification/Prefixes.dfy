/**
 Address prefixes of any width: netip.Prefix as the route assessment and the
 TUN address search use it, net.IPNet as routing rules use it. An address is a
 number below 2^width, so a prefix is an aligned block of addresses.
 */
module Prefixes {

  function Pow2(n: nat): (r: nat)
    ensures r > 0
  {
    if n == 0 then 1 else 2 * Pow2(n - 1)
  }

  // The start of the block of d addresses that holds a: what masking computes.
  function Floor(a: nat, d: nat): (r: nat)
    requires d > 0
    ensures r <= a < r + d
  {
    if a < d then 0 else d + Floor(a - d, d)
  }

  // The address may carry host bits: 10.0.0.7/24 is a prefix of 10.0.0.0.
  datatype Prefix = Prefix(width: nat, address: nat, bits: nat) {
    predicate IsValid() {
      bits <= width && address < Pow2(width)
    }

    function Size(): (r: nat)
      requires bits <= width
      ensures r > 0
    {
      Pow2(width - bits)
    }

    function First(): nat
      requires bits <= width
    {
      Floor(address, Size())
    }

    function Last(): nat
      requires bits <= width
    {
      First() + Size() - 1
    }

    function Masked(): Prefix
      requires bits <= width
    {
      this.(address := First())
    }

    // net.IPNet.Contains: equal network parts; another family never matches.
    predicate Contains(family: nat, target: nat) {
      bits <= width && width == family && Floor(target, Size()) == First()
    }

    // netip.Prefix.Overlaps: both masked to the shorter length are equal.
    predicate Overlaps(other: Prefix) {
      && IsValid() && other.IsValid() && width == other.width
      && var common := if bits <= other.bits then bits else other.bits;
         Floor(address, Pow2(width - common)) == Floor(other.address, Pow2(width - common))
    }
  }

  // ---- blocks of one size ----

  lemma {:induction false} SameBlock(a: nat, b: nat, d: nat)
    requires d > 0
    ensures Floor(b, d) <= a < Floor(b, d) + d ==> Floor(a, d) == Floor(b, d)
  {
    if a >= d && b >= d {
      SameBlock(a - d, b - d, d);
    }
  }

  // Two blocks of one size are equal or disjoint.
  lemma BlocksDisjoint(a: nat, b: nat, d: nat)
    requires d > 0
    ensures Floor(a, d) < Floor(b, d) ==> Floor(a, d) + d <= Floor(b, d)
    ensures Floor(Floor(a, d), d) == Floor(a, d)
  {
    SameBlock(Floor(a, d), a, d);
    SameBlock(Floor(b, d), b, d);
    SameBlock(Floor(b, d), a, d);
  }

  lemma {:induction false} BlockInDoubledBlock(a: nat, s: nat)
    requires s > 0
    ensures Floor(a, 2 * s) <= Floor(a, s) && Floor(a, s) + s <= Floor(a, 2 * s) + 2 * s
  {
    if a >= 2 * s {
      BlockInDoubledBlock(a - 2 * s, s);
      assert Floor(a, s) == s + Floor(a - s, s);
      assert Floor(a - s, s) == s + Floor(a - 2 * s, s);
    }
  }

  // ---- prefixes as intervals ----

  // One prefix contains exactly the addresses of one interval.
  lemma ContainsIsInterval(p: Prefix, target: nat)
    requires p.bits <= p.width
    ensures p.Contains(p.width, target) <==> p.First() <= target <= p.Last()
  {
    SameBlock(target, p.address, p.Size());
  }

  // A block lies inside the coarser block that holds any one of its addresses.
  lemma {:induction false} CoarserBlock(p: Prefix, bits: nat)
    requires bits <= p.bits <= p.width
    ensures var coarse := Prefix(p.width, p.address, bits);
            coarse.First() <= p.First() && p.Last() <= coarse.Last()
    decreases p.bits - bits
  {
    if bits < p.bits {
      CoarserBlock(p, bits + 1);
      BlockInDoubledBlock(p.address, Pow2(p.width - bits - 1));
    }
  }

  lemma NestedOverlap(p: Prefix, q: Prefix)
    requires p.IsValid() && q.IsValid() && p.width == q.width && p.bits <= q.bits
    ensures p.Overlaps(q) <==> p.First() <= q.Last() && q.First() <= p.Last()
    ensures p.Overlaps(q) <==> p.First() <= q.First() && q.Last() <= p.Last()
    ensures p.Overlaps(q) <==> q.Overlaps(p)
  {
    CoarserBlock(q, p.bits);
    BlocksDisjoint(p.address, q.address, p.Size());
    BlocksDisjoint(q.address, p.address, p.Size());
  }

  // Overlap is a shared address, which for aligned blocks is interval overlap.
  lemma OverlapIsInterval(p: Prefix, q: Prefix)
    requires p.IsValid() && q.IsValid() && p.width == q.width
    ensures p.Overlaps(q) <==> p.First() <= q.Last() && q.First() <= p.Last()
    ensures p.Overlaps(q) <==> q.Overlaps(p)
  {
    if p.bits <= q.bits {
      NestedOverlap(p, q);
    } else {
      NestedOverlap(q, p);
    }
  }

  // Two prefixes that contain one address are nested: the wider one contains
  // every address of the narrower one.
  lemma ContainingPrefixesNest(wide: Prefix, narrow: Prefix, family: nat, target: nat)
    requires wide.Contains(family, target) && narrow.Contains(family, target)
    requires wide.bits <= narrow.bits
    ensures forall a: nat :: narrow.Contains(family, a) ==> wide.Contains(family, a)
  {
    forall a: nat | narrow.Contains(family, a)
      ensures wide.Contains(family, a)
    {
      var coarse := Prefix(family, narrow.address, wide.bits);
      ContainsIsInterval(narrow, a);
      ContainsIsInterval(narrow, target);
      CoarserBlock(narrow, wide.bits);
      ContainsIsInterval(coarse, target);
      ContainsIsInterval(coarse, a);
    }
  }

  // An aligned block never reaches past the end of its address family.
  lemma TopOfFamily(p: Prefix)
    requires p.IsValid()
    ensures p.Last() < Pow2(p.width)
  {
    CoarserBlock(p, 0);
  }

  // Masking leaves the same interval.
  lemma MaskedPrefix(p: Prefix)
    requires p.IsValid()
    ensures p.Masked().IsValid() && p.Masked().First() == p.First() == p.Masked().address
  {
    BlocksDisjoint(p.address, p.address, p.Size());
  }
}
