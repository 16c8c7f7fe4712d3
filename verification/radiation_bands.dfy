/** The fixed band counts of the longwave and shortwave radiation code and
    the offsets derived from them. The fields are `int` so that the `- 1`
    offsets `nblm`, `nb1` and `ko2m` need no precondition. */
module RadiationBands {

  /** The primitive counts: approximate, approximate-cts and exact-cts
      longwave bands, NLTE levels, the NLTE band index, and the shortwave
      parameters `nb` and `ko2`. */
  datatype BandCounts = BandCounts(
    nblw: int,
    nblx: int,
    nbly: int,
    nb: int,
    inlte: int,
    nnlte: int,
    ko2: int)

  /** The primitive counts together with the derived offsets. */
  datatype BandTable = BandTable(
    nblw: int,
    nblx: int,
    nbly: int,
    nblm: int,
    nb: int,
    nb1: int,
    inlte: int,
    inltep: int,
    nnlte: int,
    ko2: int,
    ko21: int,
    ko2m: int)

  /** The counts the model is configured with. */
  const Standard: BandCounts := BandCounts(163, 47, 15, 12, 3, 56, 12)

  /** The primitive part of a table. */
  function Primitives(t: BandTable): BandCounts {
    BandCounts(t.nblw, t.nblx, t.nbly, t.nb, t.inlte, t.nnlte, t.ko2)
  }

  /** Each derived offset sits one step from the count it comes from. */
  predicate Consistent(t: BandTable) {
    && t.nblm + 1 == t.nbly
    && t.inltep - 1 == t.inlte
    && t.nb1 + 1 == t.nb
    && t.ko2m < t.ko2 < t.ko21
    && t.ko21 - t.ko2m == 2
  }

  /** The table derived from the primitive counts; it keeps the counts as
      given and adds the offsets. */
  function Derive(p: BandCounts): (t: BandTable)
    ensures Primitives(t) == p
    ensures Consistent(t)
  {
    BandTable(
      p.nblw, p.nblx, p.nbly, p.nbly - 1,
      p.nb, p.nb - 1,
      p.inlte, p.inlte + 1, p.nnlte,
      p.ko2, p.ko2 + 1, p.ko2 - 1)
  }

  /** A table satisfies the offset relations exactly when it is the one
      derived from its own primitive counts. */
  lemma ConsistentIffDerived(t: BandTable)
    ensures Consistent(t) <==> t == Derive(Primitives(t))
  {
  }

  /** The configured table. */
  const Table: BandTable := Derive(Standard)

  lemma TableValues()
    ensures Table == BandTable(163, 47, 15, 14, 12, 11, 3, 4, 56, 12, 13, 11)
    ensures Table.ko2m < Table.ko2 < Table.ko21
  {
  }
}
