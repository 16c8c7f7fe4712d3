# Conformal-cubic grid sizing and radiation band parameters

A Dafny model of two compile-time parameter layers of a global atmospheric
model on a conformal-cubic (cubed-sphere) grid:

- **Grid sizing** (`newmpar_gx.h`): from the panel edge length `il`, the
  number of further panels `npanels` and the number of levels `kl`, the row
  count `jl`, the horizontal point count `ifull` (also called `ij`), the 3-D
  point count `ijk` and the index-table bound `iquad` used by the grid
  generators. Module `GridTopology`, with the truncating integer division of
  the Fortran source in module `IntDiv`.
- **Radiation band parameters** (`rdparm.h`): the fixed band counts of the
  longwave and shortwave code and the offsets `nblm`, `inltep`, `nb1`,
  `ko21`, `ko2m` derived from them. Module `RadiationBands`.

Each layer is a pure function building an immutable record, a predicate
stating the relations the record must satisfy independently of the
function (for `iquad`, through the quotient inequality
`q*(npanels+4) <= 8*npanels < (q+1)*(npanels+4)` rather than `/`), and a
lemma that a record satisfies the relations exactly when it is the derived
one. The closed forms in the header's comment table and the shipped
configuration are proved as lemmas.

The header applies one formula to every panel count and has no error
path, so `GridTopology.Derive` is total over naturals. The comment table writes `-` for `jl` at
`npanels = 0`; the formula gives `jl = il` there, and that is what the model
proves.

## Model

| member | source | states |
|---|---|---|
| IntDiv.TruncDiv | newmpar_gx.h:8 | the header's integer `/` on non-negative operands, counted as how often `b` fits in `a`, yields the largest `q` with `q*b <= a`, i.e. it truncates |
| IntDiv.TruncDivAgrees | newmpar_gx.h:8 | on naturals the truncating `/` of the header coincides with Dafny's `/` |
| IntDiv.QuotientUnique | newmpar_gx.h:8 | any `q` satisfying the truncation inequality is the result of `/`, so the bound is determined without floating point |
| GridTopology.QuadFactor | newmpar_gx.h:8 | the factor `(8*npanels)/(npanels+4)` is the truncated quotient of `8*npanels` by `npanels+4` |
| GridTopology.Derive | newmpar_gx.h:5-8 | rows are `il*(npanels+1)`; `ij` equals `ifull`; `ijk` is `ifull*kl`; and the record satisfies all grid relations: `ifull = il*jl`, `ijk = il*jl*kl`, and `iquad - 1` is `il` times the truncated quotient of `8*npanels` by `npanels+4` |
| GridTopology.ConsistentIffDerived | newmpar_gx.h:4-8 | a parameter set satisfies the grid relations if and only if it equals the set derived from its own `il`, `npanels`, `kl` |
| GridTopology.DocumentedTable | newmpar_gx.h:8-11 | for every `il`: `npanels=0` gives `jl=il`, `iquad=1`; `npanels=5` gives `jl=6*il`, `iquad=4*il+1`; `npanels=13` gives `jl=14*il`, `iquad=6*il+1` |
| GridTopology.ShippedValues | newmpar_gx.h:6-8 | `il=48`, `npanels=5`, `kl=18` give `jl=288`, `ifull=ij=13824`, `ijk=248832`, `iquad=193` |
| GridTopology.QuadFactorBelowEight | newmpar_gx.h:8 | the factor `(8*npanels)/(npanels+4)` is below 8 for every panel count |
| GridTopology.IquadBound | newmpar_gx.h:8 | `iquad <= 7*il + 1` for every panel count |
| GridTopology.QuadFactorMonotone | newmpar_gx.h:8-11 | the factor never decreases as the panel count grows |
| GridTopology.IquadMonotone | newmpar_gx.h:8-11 | for fixed `il`, `iquad` is non-decreasing in the panel count |
| RadiationBands.Derive | rdparm.h:22-28 | the derived table keeps the primitive counts as given and satisfies `nblm+1 = nbly`, `inltep-1 = inlte`, `nb1+1 = nb`, `ko2m < ko2 < ko21` with `ko21-ko2m = 2` |
| RadiationBands.ConsistentIffDerived | rdparm.h:22-28 | a band table satisfies the offset relations if and only if it equals the table derived from its own primitive counts |
| RadiationBands.TableValues | rdparm.h:22-28 | the configured counts 163, 47, 15, 12, 3, 56, 12 give `nblm=14`, `nb1=11`, `inltep=4`, `ko21=13`, `ko2m=11`, and `11 < 12 < 13` |

## Left out

- The runtime variables of the `rdparm` common block (`l`, `imax`, `lp1`, ..., `ll3pi`, rdparm.h:30-32): they are storage filled by code that is not part of this model, and the header gives no formulas for them.
- The consistency check against the standard `newmpar.h` (newmpar_gx.h:2): that header and the check are not part of this model.
- `ksl` and `ms` (newmpar_gx.h:6) appear only as the constants `GridTopology.Ksl` and `GridTopology.Ms`; nothing relates them to other parameters.
- Rejection of panel counts other than 0, 5 and 13: the source has none, so the model has none either; the closed forms are proved for the three documented counts only.
- Fortran `/` with negative operands: every division in these headers has a non-negative numerator and a positive denominator, so `IntDiv.TruncDiv` is stated on naturals only.
- Fixed-width integer overflow: Fortran default integers are 32-bit, but the shipped values are far below that range, so the model uses unbounded integers.
- The grid generators and radiative-transfer routines that consume these values: they are not part of this model and work in floating point.
