# MLS-MPM substep of the 3D snow/fluid demo, modelled in Dafny

The demo moves a cloud of particles through a dense `n x n x n` background
grid. Each substep runs four kernels in a fixed order:

- `clear_buffer` zeroes every grid node's momentum and mass.
- `p2g` scatters each particle's mass and affine (APIC) momentum onto the
  27 nodes of its quadratic B-spline stencil. A weakly compressible stress
  `E * (J - 1)` is folded into the diagonal of the affine matrix.
- `grid_op` does two things per node, in this order:
  - for a node with positive mass, it turns momentum into velocity and adds
    gravity;
  - it zeroes outward velocity components near the six faces of the domain.
- `g2p` gathers a velocity and an APIC matrix `C` back from the same
  stencil, scales `J` by `1 + dt * trace(C)` and advects the position.

`reset` places the particles in a box with a downward velocity.

The model is imperative where the program is. `Mpm.Simulation` holds the
fields:

- the grid as one flat array of nodes, with node `(a, b, c)` at index
  `(a * n + b) * n + c`;
- the particles as an array of `(x, v, C, J)` records.

Each kernel is a method with the program's loops. Each method is proved
against a specification function over sequences, as follows:

| kernel | specification |
|---|---|
| `clear_buffer` | `Grid.ClearedGrid` |
| `p2g` | `Scatter.ScatterAll`, built from the per-particle `Scatter.ScatterParticle` |
| `grid_op` | `Grid.SolvedNode` |
| `g2p` | `Gather.G2PParticle` |

The stencil code mirrors the kernels: the base corner, the local offset
`fx` and the weights are pure functions (module `Stencils`).

Lemmas about the specification functions state what the transfers mean:

- the weights are a partition of unity with first moment `fx`;
- so every particle deposits exactly its mass and its momentum, and only on
  its own 27 nodes;
- the boundary rule holds on node indices;
- the gather reads only the particle's stencil;
- the gather reproduces a uniform grid velocity exactly;
- the gathered particles carry in total exactly the grid's mass-weighted
  velocity `sum_i m_i u_i`, when the grid's masses are those the same
  particles scattered (module `Conservation`).

Values are exact reals in place of single-precision floats. The
simulation constants match the program:

| constant | value |
|---|---|
| `dt` | `1e-4` |
| `dx` | `1/n` |
| `inv_dx` | `n` |
| mass | 1 |
| `vol` | 1 |
| `E` | 1000 |
| gravity | `-200` |
| boundary width | 5 |
| grid block size | 8 |
| particle block size | 256 |
| reference `n` | 128 |
| reference particle count | `8192 * 16` |

## Model

| member | source | states |
|---|---|---|
| `Mpm.Simulation.constructor` | src/tests/mpm_full.cpp:45-81 | Under the start-up assertions (power-of-two `n`, `n % 8 == 0`, particle count `% 256 == 0`), the fields are allocated with `n^3` cleared nodes and the requested number of zeroed particles. |
| `Mpm.Simulation.ClearBuffer` | src/tests/mpm_full.cpp:83-93 | Afterwards every grid node has zero momentum and zero mass. Only the grid may change, so no particle field changes. |
| `Mpm.Simulation.ScatterOne` | src/tests/mpm_full.cpp:97-137 | One particle's 27 atomic additions (inline `dpos`, `weight`, `node`) turn the grid into `ScatterParticle` of the old grid. |
| `Mpm.Simulation.P2G` | src/tests/mpm_full.cpp:95-139 | The grid becomes the old grid with every particle scattered onto it in turn. The loop needs every stencil inside the grid. |
| `Mpm.Simulation.SolveNode` | src/tests/mpm_full.cpp:148-173 | The locals `v0..v2`, updated step by step (divide by mass, gravity, high-side min, low-side max), give exactly `SolvedNode` for node `(a, b, c)`. |
| `Mpm.Simulation.GridOp` | src/tests/mpm_full.cpp:143-175 | Every node, addressed both by flat index and by coordinates `(a, b, c)`, is replaced by its solved value for those coordinates. Mass stays the same. |
| `Mpm.Simulation.GatherSums` | src/tests/mpm_full.cpp:188-219 | Starting from zero `v` and `C`, the 27-node loop computes exactly the gathered velocity `GatherV` and matrix `GatherC` of the stencil. It changes nothing. |
| `Mpm.Simulation.GatherParticle` | src/tests/mpm_full.cpp:179-227 | The new particle equals `G2PParticle` of the current grid: the gathered `v` and `C`, `J * (1 + dt * trace C)` and `x + dt * v`. |
| `Mpm.Simulation.G2P` | src/tests/mpm_full.cpp:177-229 | Each particle `p` becomes `G2PParticle` of its own old value; no other particle's value enters. The grid is not modified. |
| `Mpm.Simulation.Substep` | src/tests/mpm_full.cpp:255-260 | After clear, scatter, grid update and gather, in this order: each node is the solved value of the particles' scatter onto a cleared grid; total grid mass equals particle count times particle mass; each particle is gathered from that grid; the particles' total momentum `m * sum_p v_p` then equals the grid's `sum_i m_i u_i`. |
| `Mpm.Simulation.Reset` | src/tests/mpm_full.cpp:232-242 | From three unit samples per particle, in order: `x` in `[0.3,0.7) x [0.15,0.9) x [0.3,0.7)`, `v = (0, -0.3, 0)`, `J = 1`, and `C` untouched. On a grid of at least 16 cells every stencil is then inside the grid. |
| `Mpm.ResetStencilInside` | src/tests/mpm_full.cpp:234-236 | A position drawn by `reset` has its whole stencil inside any grid with `n >= 16`. |
| `Mpm.AxisInside` | src/tests/mpm_full.cpp:104-105 | On one axis, a coordinate in `[0.15, 0.9]` gives `0 <= base` and `base + 2 < n` when `n >= 16`. |
| `Particles.ResetParticle` | src/tests/mpm_full.cpp:234-240 | The reset particle's position lies in the box, its velocity is `(0, -0.3, 0)`, `J = 1`, and its `C` is the old one. |
| `Config.DxInverse` | src/tests/mpm_full.cpp:33 | `dx * inv_dx == 1` for `dx = 1/n`. |
| `Config.ReferenceConfigurationValid` | src/tests/mpm_full.cpp:54-81 | `n = 128` with `8192 * 16` particles passes the three start-up assertions. |
| `Config.ValidResolutionAtLeastEight` | src/tests/mpm_full.cpp:75-81 | A resolution passing the assertions is at least 8 cells. |
| `Stencils.LocalOffset` | src/tests/mpm_full.cpp:104-105 | With `base = floor(t - 0.5)`, `fx = t - base` lies in `[0.5, 1.5)` and `base + fx == t`. |
| `Stencils.WeightPolynomials` | src/tests/mpm_full.cpp:108-110 | For every `fx`: `w0 + w1 + w2 == 1` and `w1 + 2 * w2 == fx`. So the first moment `sum w_i * (i - fx)` is zero. |
| `Stencils.WeightsNonNegative` | src/tests/mpm_full.cpp:108-110 | For `fx` in `[0.5, 1.5]`: `w0 >= 0`, `w1 >= 0.5` and `w2 >= 0`. |
| `Stencils.StencilOfWeights` | src/tests/mpm_full.cpp:104-110 | The stencil computed in both `p2g` and `g2p` (the same function of the unchanged `x`) has non-negative weights with unit sum and first moment `fx` on each axis. |
| `Stencils.StencilOfPosition` | src/tests/mpm_full.cpp:104-105 | The same stencil has offsets in `[0.5, 1.5)` and `base + fx == inv_dx * x` on each axis. |
| `Stencils.SplineAxis` | src/tests/mpm_full.cpp:108-110 | For an offset in `[0.5, 1.5]` the three weights of an axis are non-negative, sum to 1 and have first moment `fx`. |
| `Stencils.Weight3NonNegative` | src/tests/mpm_full.cpp:128 | The node weight `w[i].x * w[j].y * w[k].z` is non-negative. |
| `Stencils.OffsetNumbering` | src/tests/mpm_full.cpp:121-123 | Loop position `(i, j, k)` is step `9i + 3j + k` of the 27 steps, and decodes back to `(i, j, k)`. |
| `Stencils.OffsetRange` | src/tests/mpm_full.cpp:121-123 | Every step number below 27 decodes to an offset in `{0,1,2}^3` and re-encodes to itself. |
| `Grid.NodeIndex` | src/tests/mpm_full.cpp:76-78 | A node of the `n^3` grid has a flat index in `[0, n^3)`. |
| `Grid.NodeIndexInjective` | src/tests/mpm_full.cpp:76-78 | Distinct nodes have distinct flat indices. |
| `Grid.NodeIndexDecode` | src/tests/mpm_full.cpp:76-78 | Decoding a node's flat index (`q/n/n`, `q/n%n`, `q%n`) gives back its coordinates. |
| `Grid.NodeDecodeInGrid` | src/tests/mpm_full.cpp:76-78 | Every flat index in `[0, n^3)` decodes to a node of the grid whose index it is. The flat loops of `clear_buffer` and `grid_op` therefore visit every node exactly once. |
| `Grid.ClearedGrid` | src/tests/mpm_full.cpp:87-92 | The cleared grid has the requested size and every node has zero momentum and zero mass. |
| `Grid.TotalsOfClearedGrid` | src/tests/mpm_full.cpp:87-92 | A cleared grid has total mass 0 and total momentum 0. |
| `Grid.TotalsAddAt` | src/tests/mpm_full.cpp:132-134 | An atomic addition at one node raises the grid's total mass and total momentum by exactly the added amounts. |
| `Grid.TotalMassOfSameMasses` | src/tests/mpm_full.cpp:147-174 | Grids with the same node masses have the same total mass, as before and after `grid_op`. |
| `Grid.NonNegativeMassesAddAt` | src/tests/mpm_full.cpp:134 | Adding a non-negative mass at one node keeps every node mass non-negative. |
| `Grid.ClampAxis` | src/tests/mpm_full.cpp:163-169 | The min-then-max select on one axis zeroes the component exactly when it points outward inside a boundary layer (`idx > n - 5` and positive, or `idx < 5` and negative). Otherwise the component is kept. |
| `Grid.GridVelocityMomentum` | src/tests/mpm_full.cpp:151-161 | With `m > 0`: velocity times mass gives back the momentum; on the vertical axis the gravity increment `dt * gravity` is taken off first. With `m <= 0`: no division and no gravity, so the value is unchanged. |
| `Grid.GridUpdateBoundary` | src/tests/mpm_full.cpp:163-173 | After the grid update: on an axis with index `> n - 5` the component is `<= 0`; with index `< 5` it is `>= 0`; with `5 <= idx <= n - 5` it is the computed velocity. Mass is unchanged. |
| `Sums.AxisAffineSum` | src/tests/mpm_full.cpp:108-110 | On one axis, weights with unit sum and first moment `f` reproduce any affine function exactly. |
| `Sums.PrefixStepAt` | src/tests/mpm_full.cpp:121-123 | Offset `(i, j, k)` is the term added at step `9i + 3j + k`. |
| `Sums.RowSum` | src/tests/mpm_full.cpp:123 | The innermost loop over `k` sums to the row value, with the z axis summed out. |
| `Sums.PlaneSum` | src/tests/mpm_full.cpp:122-123 | The middle loop over `j` sums to the plane value, with the y axis summed out. |
| `Sums.StencilAffineSum` | src/tests/mpm_full.cpp:121-137 | Over all 27 nodes, the weighted terms of an affine quantity with value `c` at the particle add up to exactly `c`, for every slope. |
| `Scatter.AffineAtRest` | src/tests/mpm_full.cpp:112-118 | For a particle at rest volume (`J == 1`), `cauchy == 0` and `affine == particle_mass * C`. |
| `Scatter.AffineUnderCompression` | src/tests/mpm_full.cpp:112-118 | A compressed particle (`J < 1`) gets a strictly larger affine diagonal than `particle_mass * C`, on all three axes. |
| `Scatter.ShareAffine` | src/tests/mpm_full.cpp:124-134 | A node's momentum share is, per component, an affine term with value `m v` and slope `dx * affine` row. Its mass share is a term with value `particle_mass` and no slope. |
| `Scatter.ShareMassNonNegative` | src/tests/mpm_full.cpp:128-134 | The mass deposited at a node is never negative. |
| `Scatter.DepositPrefixAffine` | src/tests/mpm_full.cpp:121-137 | The sum of the first `t` shares is a node of affine prefix sums. |
| `Scatter.ParticleDepositTotal` | src/tests/mpm_full.cpp:121-137 | The 27 shares of one particle sum to exactly momentum `m v` and mass `particle_mass`. The `affine * dpos` terms, and with them `cauchy`, cancel. |
| `Scatter.StencilIndex` | src/tests/mpm_full.cpp:129-131 | Stencil node number `t` of a stencil inside the grid has a valid flat index. |
| `Scatter.ApplySharesStep` | src/tests/mpm_full.cpp:129-134 | One loop step adds the share of `(i, j, k)` at node `base + (i, j, k)` and changes nothing else. |
| `Scatter.ApplySharesTotals` | src/tests/mpm_full.cpp:129-134 | After `t` atomic additions, total mass and total momentum have grown by exactly the first `t` shares. |
| `Scatter.ApplySharesAt` | src/tests/mpm_full.cpp:129-134 | After `t` steps, stencil node `(i, j, k)` holds its share if `9i + 3j + k < t`, and its old value otherwise. |
| `Scatter.ApplySharesOutside` | src/tests/mpm_full.cpp:129-134 | A node outside the particle's 27 stencil nodes is unchanged. |
| `Scatter.ApplySharesMassNonNegative` | src/tests/mpm_full.cpp:134 | Non-negative node masses stay non-negative through a particle's additions. |
| `Scatter.ScatterParticleTotals` | src/tests/mpm_full.cpp:97-137 | One particle raises total grid mass by exactly `particle_mass` and total grid momentum by exactly `particle_mass * v`. |
| `Scatter.ScatterAllTotals` | src/tests/mpm_full.cpp:95-139 | After `p2g`, total mass has grown by `count * particle_mass` and total momentum by the particles' total momentum. |
| `Scatter.ScatterOnClearedGrid` | src/tests/mpm_full.cpp:95-139 | Scattered onto a cleared grid, the grid's total mass and momentum are exactly the particles' total mass and momentum. |
| `Scatter.ScatterAllOutside` | src/tests/mpm_full.cpp:95-139 | A node in no particle's stencil is left unchanged by `p2g`. |
| `Scatter.ScatterAllMassNonNegative` | src/tests/mpm_full.cpp:95-139 | `p2g` keeps every node mass non-negative. |
| `Gather.GatherStep` | src/tests/mpm_full.cpp:207-216 | With the inline `dpos`, `weight` and `wv` at `(i, j, k)`, the sums advance by `wv` and by `4 inv_dx * outer(wv, dpos)`. |
| `Gather.GatheredStep` | src/tests/mpm_full.cpp:178-228 | One pass of the particle loop replaces particle `p` by its gathered value, keeps the earlier gathered ones and leaves the later ones untouched. |
| `Gather.GatherReadsStencil` | src/tests/mpm_full.cpp:212-214 | Two grids that agree on the 27 stencil nodes give the same gathered `v` and `C` at every step. |
| `Gather.G2PReadsStencil` | src/tests/mpm_full.cpp:212-214 | The new particle depends only on the old particle and its 27 stencil nodes. |
| `Gather.UniformGatherV` | src/tests/mpm_full.cpp:215 | Under a uniform velocity `u`, the gathered velocity is, per component, an affine prefix sum of `u` without slope. |
| `Gather.UniformGatherC` | src/tests/mpm_full.cpp:216 | Under a uniform velocity `u`, the gathered matrix is, per entry, an affine prefix sum with slope only. |
| `Gather.SlopeRowVanishes` | src/tests/mpm_full.cpp:216 | Over the whole stencil, the slope-only sums vanish (zero first moment). |
| `Gather.UniformVelocityTotal` | src/tests/mpm_full.cpp:204-215 | If all 27 stencil nodes carry velocity `u`, the gathered velocity is exactly `u`. |
| `Gather.UniformMatrixTotal` | src/tests/mpm_full.cpp:204-216 | If all 27 stencil nodes carry the same velocity, the gathered APIC matrix is zero. |
| `Gather.VolumeAtRest` | src/tests/mpm_full.cpp:221 | With `C = 0` the update of `J` leaves it unchanged. |
| `Gather.G2PUniformVelocity` | src/tests/mpm_full.cpp:204-222 | If all 27 stencil nodes carry velocity `u`, the particle gets `v = u`, `C = 0`, keeps its `J` and moves by `dt * u`. |
| `Gather.G2PAtRest` | src/tests/mpm_full.cpp:188-227 | If all 27 stencil velocities are zero, `v` and `C` become zero, and `J` and `x` are unchanged. |
| `Conservation.MassWeightedAddAt` | src/tests/mpm_full.cpp:132-134 | An atomic addition of mass `d.m` at node `i` raises `sum_i m_i h_i` by exactly `d.m * h_i`, for any vectors `h`. |
| `Conservation.MassWeightedCleared` | src/tests/mpm_full.cpp:87-92 | A cleared grid's masses weight any vectors to zero. |
| `Conservation.MassWeightedSameMasses` | src/tests/mpm_full.cpp:147-174 | Only node masses enter `sum_i m_i h_i`, so `grid_op`, which keeps masses, does not change the weights. |
| `Conservation.ApplySharesWeighted` | src/tests/mpm_full.cpp:121-134 | The masses one particle deposits weight any grid vectors `h` exactly as that particle's gather of `h` over the same stencil, times the particle mass. |
| `Conservation.ScatterAllWeighted` | src/tests/mpm_full.cpp:95-139 | After `p2g`, the mass-weighted sum of any grid vectors has grown by `m * sum_p` of what each particle gathers from those vectors. |
| `Conservation.GatheredParticles` | src/tests/mpm_full.cpp:177-229 | After `g2p`, the particles' total momentum is `m * sum_p` of their gathered velocities. |
| `Conservation.G2PConservesMomentum` | src/tests/mpm_full.cpp:254-260 | On the grid `g2p` reads in a substep, whose masses are the scatter of the same particles, the gathered particles' total momentum equals the grid's `sum_i m_i u_i`. |

## Left out

- Single-precision rounding: all values are exact reals, so bit-exact float behaviour, overflow and NaN are not modelled.
- Parallel execution of the `For` loops and the atomicity of `Atomic(...) +=`. The kernels are sequential loops with ordinary additions: particles in index order, nodes in flat-index order. Over exact reals the order of the additions does not change the sums.
- The block-tiled storage layout (`dense` of `n / 8` blocks of 8, particles in blocks of 256). Only its three assertions are kept, as the precondition `ValidConfiguration`.
- The unused fields `particle_F` and `Jp`.
- The 1000-frame outer loop, the GUI, the canvas and its rotated projection, profiling timers, and the Partio output: UI, I/O and floating-point trigonometry. `Substep` models one pass of the inner loop; the 20 repetitions per frame are only the constant `SUBSTEPS_PER_FRAME`.
- `rand()` is a library call that is not part of this model. `Reset` takes its samples as a parameter sequence of values in `[0, 1)`, three per particle, in call order.
- The kernels do no bounds checking on `base + {0,1,2}`. The model makes the demand explicit: `P2G`, `G2P` and `Substep` require every particle's stencil to lie inside the grid.
- The momentum round trip is stated for its `g2p` half only (`Conservation.G2PConservesMomentum`), next to the `p2g` half (`Scatter.ScatterOnClearedGrid`). `grid_op` between them does not conserve momentum in this program: gravity (`-200`) and the boundary clamps are fixed constants, so the zero-gravity, clamp-free round trip cannot be set up, and a particle cloud at rest does not stay at rest (every node with mass gains `dt * gravity` in `v_y`).
- `Substep` does not re-establish that demand for the next substep. Whether advected particles stay inside depends on the boundary layers and the time step, and is not proved.
- `Mpm.Simulation.constructor`: the fields start zeroed, as the runtime's field memory does at allocation. The program itself states no initial value.
- `Reset`: the stencil-inside consequence is proved only for `n >= 16`. It needs room above the box's upper edge `0.9`: for `x` near `0.9` the stencil reaches `floor(0.9 n - 0.5) + 2`, which is below `n` only on grids of about 16 cells or more. The program's `n` is 128.
