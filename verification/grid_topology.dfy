/** Sizing of the global conformal-cubic grid: the rows, horizontal and
    3-D point counts and the index-table bound used by the grid generators,
    all derived from the panel edge length `il`, the panel count `npanels`
    and the level count `kl`. */
module GridTopology {
  import opened IntDiv

  /** Independent literals set beside the grid sizes; nothing is derived from them. */
  const Ksl: nat := 3
  const Ms: nat := 6

  /** The derived grid parameters. `ij` is a second name for `ifull`. */
  datatype GridParameters = GridParameters(
    il: nat,
    npanels: nat,
    jl: nat,
    kl: nat,
    ifull: nat,
    ij: nat,
    ijk: nat,
    iquad: nat)

  /** The relations every set of grid parameters must satisfy, with the
      index-table bound stated through the truncated-quotient inequality
      rather than through `/`. */
  ghost predicate Consistent(g: GridParameters) {
    && g.jl == g.il + g.npanels * g.il
    && g.ifull == g.il * g.jl
    && g.ij == g.ifull
    && g.ijk == g.il * g.jl * g.kl
    && exists q: nat | IsQuotient(8 * g.npanels, g.npanels + 4, q) :: g.iquad == 1 + g.il * q
  }

  /** The per-edge-point factor of the index-table bound: `8*npanels` over
      `npanels+4`, truncated. */
  function QuadFactor(npanels: nat): (q: nat)
    ensures IsQuotient(8 * npanels, npanels + 4, q)
  {
    TruncDiv(8 * npanels, npanels + 4)
  }

  /** The grid parameters for edge length `il`, `npanels` further panels and
      `kl` levels. Defined for every panel count, as the formula is. */
  function Derive(il: nat, npanels: nat, kl: nat): (g: GridParameters)
    ensures g.il == il && g.npanels == npanels && g.kl == kl
    ensures g.jl == il * (npanels + 1)
    ensures g.ij == g.ifull
    ensures g.ijk == g.ifull * kl
    ensures Consistent(g)
  {
    var jl: nat := il + npanels * il;
    assert jl == il * (npanels + 1);
    var ifull: nat := il * jl;
    var ijk: nat := ifull * kl;
    var q := QuadFactor(npanels);
    var iquad: nat := 1 + il * q;
    GridParameters(il, npanels, jl, kl, ifull, ifull, ijk, iquad)
  }

  /** A parameter set satisfies the grid relations exactly when it is the
      one derived from its own edge length, panel count and level count. */
  lemma ConsistentIffDerived(g: GridParameters)
    ensures Consistent(g) <==> g == Derive(g.il, g.npanels, g.kl)
  {
    if Consistent(g) {
      var q: nat :| IsQuotient(8 * g.npanels, g.npanels + 4, q) && g.iquad == 1 + g.il * q;
      QuotientUnique(8 * g.npanels, g.npanels + 4, q);
    }
  }

  /** The documented table: for 0, 5 and 13 further panels the rows and
      the index-table bound have these closed forms for every edge length. */
  lemma DocumentedTable(il: nat, kl: nat)
    ensures Derive(il, 0, kl).jl == il && Derive(il, 0, kl).iquad == 1
    ensures Derive(il, 5, kl).jl == 6 * il && Derive(il, 5, kl).iquad == 4 * il + 1
    ensures Derive(il, 13, kl).jl == 14 * il && Derive(il, 13, kl).iquad == 6 * il + 1
  {
    QuotientUnique(0, 4, 0);
    QuotientUnique(40, 9, 4);
    QuotientUnique(104, 17, 6);
  }

  /** The configuration the header ships: `il=48`, `npanels=5`, `kl=18`. */
  const Shipped: GridParameters := Derive(48, 5, 18)

  lemma ShippedValues()
    ensures Shipped.jl == 288
    ensures Shipped.ifull == 13824 && Shipped.ij == 13824
    ensures Shipped.ijk == 248832
    ensures Shipped.iquad == 193
  {
    DocumentedTable(48, 18);
  }

  /** The factor never reaches 8: `8*npanels < 8*(npanels+4)`. */
  lemma QuadFactorBelowEight(npanels: nat)
    ensures QuadFactor(npanels) < 8
  {
    var q := QuadFactor(npanels);
    if q >= 8 {
      MulMono(8, q, npanels + 4);
    }
  }

  /** The index-table bound is at most `7*il + 1` whatever the panel count. */
  lemma IquadBound(il: nat, npanels: nat, kl: nat)
    ensures Derive(il, npanels, kl).iquad <= 7 * il + 1
  {
    QuadFactorBelowEight(npanels);
    MulMono(QuadFactor(npanels), 7, il);
  }

  /** More panels never give a smaller factor. */
  lemma QuadFactorMonotone(n: nat, m: nat)
    requires n <= m
    ensures QuadFactor(n) <= QuadFactor(m)
  {
    var q := QuadFactor(n);
    var r := QuadFactor(m);
    QuadFactorBelowEight(n);
    MulMono(q, 8, m - n);
    assert q * (m + 4) == q * (n + 4) + q * (m - n);
    assert q * (m + 4) <= 8 * m;
    if q > r {
      MulMono(r + 1, q, m + 4);
    }
  }

  /** For a fixed edge length the index-table bound is non-decreasing in
      the panel count, as the documented table shows for 0, 5 and 13. */
  lemma IquadMonotone(il: nat, n: nat, m: nat, kl: nat)
    requires n <= m
    ensures Derive(il, n, kl).iquad <= Derive(il, m, kl).iquad
  {
    var q, r := QuadFactor(n), QuadFactor(m);
    QuadFactorMonotone(n, m);
    MulMono(q, r, il);
    assert il * q <= il * r;
  }
}
