# Frehg2 verification model

Frehg2 couples a two-dimensional free-surface solver with a three-dimensional variably saturated
groundwater solver over MPI ranks. This project models its stepping, ledgers, protocols and
self-contained algorithms in Dafny and proves what they keep. `dafny verify dfyconfig.toml`
checks all of it, with Dafny 4.11's default options.

Arithmetic is over `real`: every identity below is exact. Views and solver fields are arrays and
class fields that methods update in place. Kernels whose iterations only write their own slots are
simultaneous (`forall`) assignments; kernels that read what other iterations write, and
reductions, visit their cells in an arbitrary order, so what is proved holds for every schedule.

## What the modules cover

- **Groundwater step.** `Retention` (closures over an uninterpreted power function), `FaceFlux`
  (the corrector's face fluxes), `Surplus` and `SendWalk` (post-allocation: the gradient split and the
  column walks), `TopExchange` (the coupled top of one column over a window), `Telescoping`,
  `GroundwaterTerms`, `SweepLedger` and `Corrector` (what the kernels' terms add up to), `CellLedger` (the
  same for every single cell over a whole step), `AdaptiveStep` (the step controller) and `Richards`,
  the class whose `Step` runs all of it on its arrays.
- **Coupling.** `Coupling` holds the coupler: a surface solve, any number of subsurface steps, the
  application of the accumulator, and the ledger of the whole window. `SurfaceStep` is the whole
  free-surface phase (beds and stages, solve, depth limiter, rain and evaporation, audit);
  `CoupledStep` joins the two into one coupled step, and `CoupledRun` is the time loop over such steps
  with the running totals of their audits.
- **Linear systems.** `Stencil` is the theory of matrices that come from a network of cell and face
  terms. `SurfaceSystem` and `FreeSurface` are the surface system and the in-place phase around it;
  `Predictor`, `HeadSystem` and `HeadBalance` are the conductivity passes, matrix and right-hand side
  of the head system.
- **Distributed layer.** `Decomposition`, `HaloProtocol` (ranks and first-in first-out channels per
  source, destination and tag, as section 3.5 of the MPI 3.1 standard orders messages), `RankLedger`
  (the ledgers of all ranks as one of the whole domain), `RankFluxes` (ranks with exchanged halos
  compute one flux on shared faces, so their audits add up to the domain's), `RankWindows` (the same over
  a whole coupled window), `DomainSplit` (a rank computes the fluxes of the undivided domain), `HaloPacking`, `HaloCorners`, `GridIds` and
  `GridBlocks` (compressed ids and the matrix pattern), `FileLayout`, `Checkpoints` (the header) and
  `Restarts` (a checkpoint as a whole).
- **Algorithms and controllers.** `Sha256s`, `SolverPolicy`, `TimeMarch`, `LayerMesh`, `Polygons`,
  `EditDistances`.
- `Sums` and `Fields` hold finite sums and array snapshots used throughout.

## How to read the main results

- `Richards.RichardsSolver.Step` takes the frozen ghost values, the predicted heads with their face
  conductivities, the Courant limits and the other ranks' step measures as inputs (`Forcing`): the ledger holds whatever the predictor
  produced. Its one precondition beyond a valid state is that no cell's storage coefficient is zero,
  where the program would divide by zero. Volume identities require unit density ratios. It returns the
  `CellLedger.Trail` of the step: the states between its parts, each cell's classification outcome and
  drop. `CellLedger.Leads` says that every part did to every cell what its kernel does, each audit term
  is the sum of its cells' shares, and with path recording on every cell's change is the divergence of
  the fluxes the step leaves plus its adjustment less what it drops, loses and stores
  (`CellLedger.Settled`); the faces hold the flux kernels' values under the predicted heads.
- A block need not be the domain: `GroundwaterTerms.Rim` says which of its sides are domain edges and what
  activity the halo shows beyond the others. The step's ledger then also holds what crosses from other
  ranks (`GroundwaterTerms.CrossIn`). `RankFluxes.RanksConserve` shows that this cancels over all ranks when
  their halos are exchanged (`RankFluxes.Joined`), and `RankWindows.WindowsConserve` that it cancels over a
  coupled window of any number of steps; `RankFluxes.JoinedByExchange` reduces that condition to
  what the exchanges carry, and `DomainSplit.SplitJoined` shows that every state of every domain, however
  active, meets it. `RankLedger.DomainSettles` is the ledger with recorded path corrections;
  `RankLedger.StreamSettles` is an instance that is active everywhere with flow between the ranks.
- `Coupling.Coupler.Step` returns false exactly where a subsurface step it reaches would divide by
  zero. It takes the surface solve's levels as an input and starts its ledger from the solved and
  refreshed surface; `CoupledStep.CoupledSolver.Step` starts from the surface before the solve, and
  `CoupledRun.CoupledSimulation.RunCoupledLoop` from the start of the run. The window also returns the
  groundwater steps it took (`Coupling.Substeps`), each recorded as what `Richards.RichardsSolver.Step`
  ensures of it (`Richards.StepRun.Stepped`), and states its ledger as `Coupling.WindowRun.Balanced`; these
  records are what `RankFluxes.RanksConserve` and `RankWindows.WindowsConserve` speak of. `CoupledStep` and
  `CoupledRun` hold one block, the whole domain.
- `RunCoupledLoop` returns the trail of its steps: for each the length it left for the next and the three
  volumes no running total counts (`CoupledRun.Uncounted`). What drives the steps from outside
  (conditions, weather, momentum terms, ghost levels, the subsurface drivers) is a function of the step.
- `FreeSurface.FreeSurface.Solve` takes any exact solution from the linear solver; conditions must not
  overlap prescribed-stage cells.
- `HeadSystem` and `HeadBalance` quantify over every state with non-negative conductivities that are
  zero across the active mask; `HeadSystem.PassesConduct` shows that the passes leave such states.

## Where the code differs from its documentation, or a property fails

- The header `src/coupling/Coupler.hpp:52-60` and the exchange documentation subtract `discarded`. The
  kernel (`src/coupling/Exchange.cpp:56-59`) accumulates a non-negative remainder that the clamp did
  not take from the surface, so it enters the window's ledger with a plus sign; the model follows the
  kernel.
- The clamp of the application step can fire: exactly when some top condition prescribes
  infiltration, also when soils, contents and conductivities are physical
  (`TopExchange.ClampNeverFiresIff`, with `TopExchange.ForcedInfiltrationClamps` as the witness).
- The head matrix is not always positive definite: a saturated block without specific storage under a
  closed boundary is singular (`HeadSystem.ConfinedCellIsSingular`); `HeadSystem.HeadMatrixDefinite`
  gives the exact condition.
- A checkpoint's scalar named `names` would share its attribute with the list of names, and empty or
  comma-bearing names are lost; `Checkpoints.HeaderRestoredIff` is the exact condition.
- The checkpoint written after the time loop can repeat the label of the last one inside it, when the
  run ends less than half a second past that label in a later step (`TimeMarch.FinalRepeatsIff`,
  `TimeMarch.FinalCanRepeat`).
- What the depth limiter dries (`src/swe/WetDry.cpp:163-199`) enters no audit, so the audited surface
  budget closes only up to it; `SurfaceStep.SurfaceSolver.SolveFreeSurface` gives the exact amount, and
  the run's totals are short of it too (`CoupledRun.CoupledSimulation.RunCoupledLoop`). The lift of a
  stage cell below its bed is audited although setting the stage undoes it; both are in the ledger.
- A bed within the lowest quarter of the last layer leaves that layer at full thickness, so the column
  holds more soil than the bed's height (`LayerMesh.DepthIsBedHeightIff`).
- An exchange that selects a field twice can exceed the message buffer. A selection fits whatever the
  registered fields are exactly when it repeats none (`HaloPacking.AlwaysFitsIff`); over given
  fields it fits exactly when it carries no more layers than are registered (`HaloPacking.FitsIff`).
- The header of the halo exchanger says that corner exchanges of three-dimensional fields are an
  error; the code performs them, and the model does too.

## Model

| member | source | states |
|---|---|---|
| Retention.ConductivityNonneg | src/gw/VanGenuchten.hpp:99-111 | conductivity is never negative, whatever the head, for any power function with non-negative values |
| Retention.CapacityNonneg | src/gw/VanGenuchten.hpp:82-92 | specific capacity is never negative for a physical soil |
| Surplus.SplitBounds | src/gw/Reallocate.cpp:141-210 | for any head field the up and down fractions are non-negative and add to at most one; without lateral gradients nothing is lost unless there is no gradient at all |
| Surplus.OutcomeBalance | src/gw/Reallocate.cpp:212-299 | whatever the neighbours look like, one classified cell's water change plus its outgoing volumes equals the booked adjustment, its room is exactly what is missing to saturation, sends and drops are non-negative |
| SendWalk.MirroredFlux | src/gw/Reallocate.cpp:330-346 | legacy mirror and path correction together put the moved rate on exactly the faces the move crosses |
| SendWalk.MirroredInflow | src/gw/Reallocate.cpp:330-346 | a recorded move's divergence is the volume into the target cell and out of the source cell, and nothing anywhere else |
| SendWalk.WalkUpLeaves | src/gw/Reallocate.cpp:348-361 | the upward walk leaves over exactly what exceeds the pore room of the active cells above |
| SendWalk.WalkUpFills | src/gw/Reallocate.cpp:348-361 | each cell above receives what the nearer ones could not hold, up to its room |
| SendWalk.WalkDownLeaves | src/gw/Reallocate.cpp:408-422 | the downward walk leaves over exactly what exceeds the pore room below |
| SendWalk.WalkDownFills | src/gw/Reallocate.cpp:408-422 | each cell below receives what the nearer ones could not hold, up to its room |
| SendWalk.SweepMoves | src/gw/Reallocate.cpp:319-424 | after the whole column sweep: rooms stay non-negative, the water ledger closes on delivered, dropped and released volumes, the top face carries the released volume, and the corrected fluxes diverge in every cell by what it received minus what it delivered |
| SendWalk.SweepStaysBelowSaturation | src/gw/Reallocate.cpp:347-423 | every cell stays at or below saturation, with room exactly what is missing to it |
| TopExchange.WetFlux | src/gw/Corrector.cpp:288-318 | a wet column pays each downward flux out of its budget and never more than the budget holds |
| TopExchange.SubstepKeepsFunding | src/gw/Corrector.cpp:433-452 | one substep leaves the infiltration budget non-negative and covered by the stage and the accumulator |
| TopExchange.WindowFunded | src/gw/Corrector.cpp:277-338 | over any number of substeps and vents the budget never goes negative; without forced infiltration it stays covered |
| TopExchange.DebitsBounded | src/gw/Corrector.cpp:277-338 | all debits of a window together never exceed the post-solve depth plus the deposits |
| TopExchange.AppliedStaysAboveBed | src/coupling/Exchange.cpp:47-69 | whatever is configured, the accumulator a window leaves is never negative and the surface never ends below the bed; without forced infiltration the clamp cuts nothing off |
| TopExchange.ClampNeverFiresIff | src/coupling/Exchange.cpp:50-60 | the clamp cuts nothing off in any window exactly when no top condition prescribes infiltration; the same over the windows whose soils, contents and conductivities are physical |
| TopExchange.ForcedInfiltrationClamps | src/gw/Corrector.cpp:320-338 | for every prescribed infiltration rate, a dry column of a physical soil whose window ends in the clamp, and what the clamp cuts off |
| FaceFlux.LateralSealed | src/gw/Corrector.cpp:120-196 | no lateral flux passes between an active and an inactive cell |
| Telescoping.FlowTelescopes | src/gw/Corrector.cpp:473-502 | summed over any active set, the divergence of face terms is what passes the faces on its boundary |
| GroundwaterTerms.BoundaryInIsDivergence | src/gw/RichardsSolver.cpp:866-901 | the audited boundary inflow and what crosses from other ranks are together the step times the total divergence: the block's other faces cancel around inactive cells |
| GroundwaterTerms.CorrectorCloses | src/gw/Corrector.cpp:473-502 | with unit ratios, the updated volume is the frozen one plus boundary inflow and inflow from other ranks minus compressible storage |
| SweepLedger.SweptColumnBalance | src/gw/Reallocate.cpp:310-426 | one column's sweep changes stored water minus boundary inflow by what it sent less what it dropped |
| SweepLedger.SweptColumnPaths | src/gw/Reallocate.cpp:319-424 | over one column of the block, every cell's content changes by the divergence of the recorded corrections and what it sent off, less a drop between zero and that |
| CellLedger.VisitedCell | src/gw/Reallocate.cpp:111-301 | whatever the neighbours looked like, a visited active cell's content and sends balance against its own adjustment, which is what it gained or, where it gained nothing, what it discarded |
| CellLedger.SweepsSend | src/gw/Reallocate.cpp:303-426 | the sweeps change every cell by its corrected inflow over the plain one and by what it sent, less a drop between zero and that |
| CellLedger.TrailSettles | src/gw/RichardsSolver.cpp:667-723 | along a recorded step with unit ratios every active cell changes by the divergence of the fluxes the step leaves, its own adjustment, and what it drops, loses and stores; the shares of inactive cells are zero |
| CellLedger.TrailSigns | src/gw/RichardsSolver.cpp:667-723 | of every active cell: its drop lies between zero and what it was to send, the clamp only adds, its adjustment is what the classification added or, where it added nothing, what it discarded |
| Corrector.FluxesSealed | src/gw/Corrector.cpp:117-260 | the block's lateral fluxes never cross the active mask, faces toward the halo included |
| Corrector.DebitedPays | src/gw/Corrector.cpp:269-338 | a coupled top never overdraws its budget and debits exactly the volume its flux takes from it |
| Corrector.BookedStanding | src/gw/Corrector.cpp:418-456 | one column's bookkeeping moves its surface and in-transit water by exchange plus bounce minus evaporation |
| Corrector.BookedIsSubstep | src/gw/Corrector.cpp:418-456 | classification, flux and bookkeeping over a column amount to one substep of its surface cell |
| Corrector.TopsKeepFunding | src/gw/Corrector.cpp:418-456 | the block-wide step overdraws no column's budget |
| Corrector.ClampVolume | src/gw/Corrector.cpp:566-589 | the final clamp changes the volume by exactly minus the audited loss |
| AdaptiveStep.NextStepBounds | src/gw/AdaptiveStep.cpp:100-117 | the next step lies within the configured bounds, honours the Courant limit and the growth factor above the minimum, and never grows with the flux change |
| AdaptiveStep.AgreedIsLeast | src/gw/AdaptiveStep.cpp:100-119 | the min-reduced step is wanted by some rank and by none shorter, and is within the bounds |
| AdaptiveStep.RanksAgree | src/gw/AdaptiveStep.cpp:115-118 | all ranks leave the reduction with one step |
| AdaptiveStep.AgreedIsUndivided | src/gw/AdaptiveStep.cpp:58-119 | that step is the one an undivided domain would take from its largest change and its smallest limit |
| AdaptiveStep.MeasureChange | src/gw/AdaptiveStep.cpp:58-77 | in any order, the reduction finds the largest flux change of the cells below the column tops |
| AdaptiveStep.MeasureCourant | src/gw/AdaptiveStep.cpp:79-98 | in any order, the reduction finds the smallest limit of their unsaturated cells |
| Richards.RichardsSolver.RecordPath | src/gw/Reallocate.cpp:330-346 | the in-place recording leaves the column with exactly the recorded corrections and nothing else changed |
| Richards.RichardsSolver.DepositInto | src/gw/Reallocate.cpp:353-360 | one take in place is one deposit of the column model; all other cells and faces are untouched |
| Richards.RichardsSolver.WalkUpward | src/gw/Reallocate.cpp:347-361 | the upward while loop computes the column model's walk |
| Richards.RichardsSolver.WalkDownward | src/gw/Reallocate.cpp:408-421 | the downward while loop computes the column model's walk |
| Richards.RichardsSolver.ReleaseAtTop | src/gw/Reallocate.cpp:362-405 | a remainder at the top is vented, released, sent back or dropped as the column model says, surface cell and reductions included |
| Richards.RichardsSolver.SendAll | src/gw/Reallocate.cpp:303-426 | the sweeps of all columns, in any order, close the block's water, surface and deposit ledgers and keep every budget; with recording on, every cell's content changes by the divergence of the recorded corrections and what it sent off, less a drop between zero and that, and the drops add up to the audited one |
| Richards.RichardsSolver.ClassifyAll | src/gw/Reallocate.cpp:111-301 | in any visiting order every active cell ends with the kernel's outcome for the content and head it held, among some states of its neighbours; the two totals are those of the outcomes, and the block's water and outgoing volumes balance against them; every cell is ready |
| Richards.RichardsSolver.Reallocate | src/gw/Reallocate.cpp:76-430 | the whole post-allocation with its audit terms; nothing dropped is negative; every cell takes its outcome and what its sweep leaves it, and the terms are the sums of the outcomes and drops |
| Richards.RichardsSolver.ComputeFluxes | src/gw/Corrector.cpp:83-385 | every lateral and vertical face of the block holds its flux under the cells as they are; the fluxes never cross the active mask and add up over the cells to the audited boundary inflow and what crosses from other ranks; every coupled top pays its own flux, a wet one in full for as long as its budget lasts |
| Richards.RichardsSolver.BookTops | src/gw/Corrector.cpp:387-456 | the bookkeeping kernel with its three reductions is the column model's, for every column |
| Richards.RichardsSolver.UpdateWaterContent | src/gw/Corrector.cpp:459-502 | the update kernel and the volume its reduction moves into compressible storage |
| Richards.RichardsSolver.Finalize | src/gw/Corrector.cpp:554-589 | contents end within their bounds and the returned loss is what the clamp took |
| Richards.RichardsSolver.AccumulateBoundaryFlux | src/gw/RichardsSolver.cpp:855-901 | the reduction is the inflow through the faces on the domain boundary as they are after reallocation |
| Richards.RichardsSolver.Step | src/gw/RichardsSolver.cpp:667-723 | stored volume changes by boundary inflow and inflow from other ranks minus compressible storage plus reallocation adjustment minus clamp loss; the face fluxes are those of the predicted heads and the frozen contents, every part does to every cell what its kernel does, every audit term is the sum of its cells' shares, and with recording on each cell closes on the fluxes the step leaves and its own shares; surface and deposit ledgers close; contents end in bounds, the clamp loss is never positive, nothing dropped is negative, no budget is overdrawn |
| Coupling.Coupler.BeginWindows | src/coupling/Exchange.cpp:10-26 | the window opens with no deposits and budgets that add up to the ponded depth, moving no water; on a surface not below its beds every column is funded |
| Coupling.AppliedCell | src/coupling/Exchange.cpp:47-69 | applying the accumulator moves it onto the surface up to what the clamp cuts off |
| Coupling.Coupler.ApplyAll | src/coupling/Exchange.cpp:28-74 | the application kernel with both reductions: surface plus transit gains exactly the cut-off remainder |
| Coupling.Coupler.ReduceAudit | src/coupling/Exchange.cpp:76-94 | the two audit sums over the block |
| Coupling.Substeps.ThenLeads | src/coupling/Coupler.cpp:63-78 | a window's steps and one more from where they ended are again a window's steps, with the inflow from other ranks added |
| Coupling.Coupler.TakeGwStep | src/coupling/Coupler.cpp:63-78 | one step, whole and recorded with all that the solver's step ensures, and its audit on the window's; nothing happens where it would divide by zero |
| Coupling.Coupler.TakeGwSteps | src/coupling/Coupler.cpp:81-94 | the step loop ends, the steps it took lead from the state it found to the one it leaves, its summed audit and their inflow from other ranks close the ledgers of all of them, and the clock lag stays below one step; it gives up only at a reached state whose next step would divide by zero |
| Coupling.Coupler.Restore | src/coupling/Coupler.cpp:47-50 | the restored clock has exactly the checkpointed lag |
| Coupling.Coupler.Step | src/coupling/Coupler.cpp:52-99 | for any number of substeps the surface, transit and subsurface store changes by exactly the audited terms including plus discarded, and by what crosses from other ranks; deposits are applied volume plus bounces and vents; from levels above the beds none ends below its bed, and without forced infiltration nothing is discarded; accumulators end non-negative; the lag stays in its range; the steps it took are returned as one chain of whole groundwater steps; it gives up only where a step would divide by zero |
| SurfaceStep.LimiterDries | src/swe/WetDry.cpp:163-199 | the limiter only lowers levels, to the bed or not at all, and leaves no film |
| SurfaceStep.WeatherBounds | src/swe/SurfaceSources.cpp:17-97 | whatever the weather, a cell ends dry on its bed or above the wetting threshold, and a bulk evaporation takes nothing that is not there |
| SurfaceStep.LevelSolved | src/swe/FreeSurface.cpp:331-434 | with the stages set before it, the solve moves the volume of all levels by the rises of the cells without a stage |
| SurfaceStep.SurfaceSolver.EnforceSurfaceBc | src/swe/FreeSurface.cpp:22-58 | levels below their beds are lifted and stages set; the volume of the levels changes by the audited lift, never negative, and by what the stages bring |
| SurfaceStep.SurfaceSolver.LimitDepth | src/swe/WetDry.cpp:163-199 | both passes of the limiter leave its levels and take a volume that is never negative |
| SurfaceStep.SurfaceSolver.EvapRain | src/swe/SurfaceSources.cpp:17-97 | rain, either evaporation and the drying after them change the volume of the levels by exactly what the step's audit gains, rain and evaporation at their rates |
| SurfaceStep.SurfaceSolver.SolveFreeSurface | src/swe/SurfaceSolver.cpp:540-558 | the whole free-surface phase: the volume of the levels changes by the step's audit (inflow, outflow, rain, evaporation, clamp), by what stages bring, nothing without stages, and less a non-negative dried volume; rain and a prescribed evaporation are audited at their rates; every cell ends dry on its bed or above the wetting threshold |
| CoupledStep.PondedMoves | src/coupling/Coupler.cpp:54-61 | from before the free-surface phase to the opened window the ponded and in-transit store changes by exactly what the levels do |
| CoupledStep.CoupledSolver.Step | src/coupling/Coupler.cpp:52-99 | one whole coupled step of any length: water on the beds, in transit and below them changes by the audits of the free-surface phase and of the window and by what stages bring, less a non-negative dried volume; the next step can start from the state it leaves, no level is below its bed, without forced infiltration nothing is discarded, and the subsurface clock lags less than a step |
| CoupledRun.CoupledSimulation.TakeStep | src/driver/Simulation.cpp:611-660 | one step of the run and its audits on the running totals: what the totals do not account for changes by what stages bring, the clamp adds and the limiter dries |
| CoupledRun.RunGoesOn | src/driver/Simulation.cpp:875-928 | a run and one more step of the length the coupler left is again a run of the time loop, all its earlier states still before the end |
| CoupledRun.CoupledSimulation.RunCoupledLoop | src/driver/Simulation.cpp:853-932 | the coupled loop ends at the first step that reaches the end time; each step is as long as the coupler left it, the outputs and checkpoints are those of exactly these steps, and the lengths stay within the bounds; over any number of steps all water changes by exactly the running totals and the volumes they do not count; no level ends below its bed, the clocks stay in step, and it fails only where a subsurface step would divide by zero |
| Stencil.BilinearForm | src/swe/FreeSurface.cpp:203-281 | a matrix whose paired legs share face terms has the network's form: cell terms times both values plus face terms times both differences |
| Stencil.NetIsSymmetric | src/gw/Predictor.cpp:375-442 | such a matrix is symmetric and positive semidefinite |
| Stencil.DefiniteIffAnchored | src/gw/Predictor.cpp:414-441 | it is positive definite exactly when every nonempty closed set of unknowns has a cell term |
| Stencil.RowsAreConservative | src/swe/FreeSurface.cpp:203-281 | summed over the unknowns the face terms cancel |
| Stencil.SolutionIsUnique | src/swe/FreeSurface.cpp:331-425 | a definite system has at most one solution |
| Stencil.UniqueIffAnchored | src/gw/Predictor.cpp:375-560 | a solved system has no other solution exactly when every nonempty closed set of unknowns has a cell term |
| SurfaceSystem.RowSum | src/swe/FreeSurface.cpp:217-281 | a filled row's diagonal is the storage plus every leg to a cell or a prescribed stage; domain-edge legs fold away |
| SurfaceSystem.FilledIsDefinite | src/swe/FreeSurface.cpp:217-281 | every assembled and filled surface system is symmetric positive definite, dry cells and stages included |
| SurfaceSystem.EliminationKeepsSolutions | src/swe/FreeSurface.cpp:369-419 | the eliminated system has exactly the solutions of the system with its stage columns |
| SurfaceSystem.CellRises | src/swe/FreeSurface.cpp:128-142 | a solved cell rises by its sources less the net volume through its faces |
| SurfaceSystem.SolutionConserves | src/swe/FreeSurface.cpp:436-497 | any exact solution changes the stored volume of the non-stage cells by their sources less the audited boundary outflow |
| FreeSurface.FreeSurface.UpdateDepth | src/swe/WetDry.cpp:24-67 | cell and face depths, none negative |
| FreeSurface.FreeSurface.UpdateGeometry | src/swe/WetDry.cpp:69-161 | face areas from face depths, face volumes as means of their cells or the edge cell's own, storage area the cell's or zero, neither areas over non-negative depths nor volumes negative |
| FreeSurface.FreeSurface.RefreshGeometry | src/swe/WetDry.cpp:24-161 | depths and geometry in sequence leave exactly the shape the solve relies on, no face area or volume negative, nothing else changed |
| FreeSurface.FreeSurface.AssembleRhs | src/swe/FreeSurface.cpp:128-201 | right-hand sides grow by what the discharge and velocity conditions add, and the audit by their sum |
| FreeSurface.FreeSurface.AssembleCoefficients | src/swe/FreeSurface.cpp:203-281 | every row poses its cell's balance, and the filled matrix is symmetric positive definite |
| FreeSurface.FreeSurface.ApplyOutflowCorrections | src/swe/FreeSurface.cpp:284-329 | outflow conditions take from the right-hand sides exactly what they add to the audit |
| FreeSurface.FreeSurface.FillAndSolve | src/swe/FreeSurface.cpp:331-434 | the scattered levels solve the system before elimination, stages at their values, and are the only levels that do |
| FreeSurface.FreeSurface.AccumulateBoundaryFluxes | src/swe/FreeSurface.cpp:436-497 | the audit grows by what leaves through open edges and into stages |
| FreeSurface.FreeSurface.Solve | src/swe/FreeSurface.cpp:331-497 | with an exact solver the stored volume of the non-stage cells changes by audited inflow less audited outflow |
| Predictor.FacePasses.ComputeFaceConductivity | src/gw/Predictor.cpp:83-310 | five passes overwriting one another amount to one rule per face, with sealing last |
| HeadSystem.Assemble | src/gw/Predictor.cpp:361-442 | the filled array is a symmetric positive semidefinite matrix, definite exactly when every closed set of cells has storage or a live boundary leg; inactive rows are untouched |
| HeadSystem.DiagonalIs | src/gw/Predictor.cpp:412-442 | the diagonal is storage, the boundary legs that count, and one leg per face toward another unknown |
| HeadSystem.SameVerticalLeg | src/gw/Predictor.cpp:403-410 | the two cells of a vertical face see the same leg although their thicknesses differ |
| HeadSystem.HeadMatrixDefinite | src/gw/Predictor.cpp:375-442 | the head matrix is symmetric positive semidefinite for every admissible state, and definite exactly when every closed set of cells has storage or a live boundary leg |
| HeadSystem.StorageMakesDefinite | src/gw/Predictor.cpp:412-414 | positive storage everywhere makes it definite |
| HeadSystem.HeadsUniqueIff | src/gw/Predictor.cpp:375-560 | whatever the right-hand side, solved heads are the only ones exactly when every closed set of cells has storage or a live boundary leg |
| HeadSystem.PassesConduct | src/gw/Predictor.cpp:104-310 | whatever the heads, the conductivity passes leave what the assembly relies on |
| HeadSystem.ConfinedIsSingular | src/gw/Predictor.cpp:414-441 | without storage and live boundary legs the matrix is singular |
| HeadSystem.ConfinedCellIsSingular | src/gw/Predictor.cpp:414-441 | a concrete state whose matrix is not positive definite |
| HeadBalance.AssembleRhs | src/gw/Predictor.cpp:444-549 | the filled array adds up to the stored heads and what the boundary brings at zero heads, and any exact solution of the head system for it stores exactly the boundary inflow; inactive entries are untouched |
| HeadBalance.RhsIs | src/gw/Predictor.cpp:444-549 | a right-hand side is the stored head, the net of slope and gravity face terms, and the boundary's |
| HeadBalance.RhsAddUp | src/gw/Predictor.cpp:444-549 | over the block all interior slope and gravity terms cancel in the right-hand sides |
| HeadBalance.EndsShare | src/gw/Predictor.cpp:492-549 | a prescribed flux at top or bottom replaces the gravity booked there, a prescribed head conducts |
| HeadBalance.SolutionStoresInflow | src/gw/Predictor.cpp:361-560 | any exact solution of the head system stores exactly what comes in through the domain's boundary |
| Decomposition.BlocksAbut | src/core/Grid.cpp:23-25 | consecutive blocks abut, from zero to the extent |
| Decomposition.OwnerIsUnique | src/core/Grid.cpp:23-25 | no cell has two owners |
| Decomposition.OwnerExists | src/core/Grid.cpp:23-25 | every cell has an owner |
| Decomposition.NoEmptyBlockIff | src/core/Grid.cpp:57-65 | no block is empty exactly when there are no more parts than cells |
| Decomposition.NeighborsMirror | src/core/Grid.cpp:67-70 | the neighbour in a direction sees the rank in the opposite one and its block lies right next to it |
| Decomposition.CellOwner | src/core/Grid.cpp:55-60 | the two-dimensional blocks partition the domain |
| RankLedger.BlocksAddUp | src/core/Grid.cpp:55-60 | the ranks' local sums of a field add up to its sum over the domain |
| RankLedger.RanksTelescope | src/gw/RichardsSolver.cpp:855-901 | summed over all ranks the net fluxes of their cells are what passes the domain's boundary: every face between ranks enters once with each sign |
| RankLedger.SettledChange | src/gw/RichardsSolver.cpp:667-723 | a settled rank's volume changes by the net flux of its own cells and by its cells' remainders |
| RankLedger.DomainLedger | src/gw/RichardsSolver.cpp:855-901 | when every rank's change is its cells' net flux and other terms, the domain's is what crosses its boundary and the sum of those terms |
| RankLedger.DomainSettles | src/gw/RichardsSolver.cpp:667-901 | ranks whose steps settle their cells with remainders adding up to their audits, one flux on every shared face, change the domain's volume by the sum of the audits and by what crosses the boundary of the domain's active cells in the step |
| RankLedger.StreamSettles | src/gw/RichardsSolver.cpp:667-901 | over every layout a domain active everywhere with a steady flow through every face between two ranks meets the conditions of that ledger |
| RankFluxes.OneFluxX | src/gw/Corrector.cpp:120-196 | two neighbours in a row compute one flux on each face between them, each from its own cells and its halo |
| RankFluxes.OneFluxY | src/gw/Corrector.cpp:199-260 | and so do two neighbours in a column |
| RankFluxes.JoinedByExchange | src/gw/TerrainMetric.cpp:299-402 | face areas, slopes and viscosity ratios built from exchanged thicknesses, bottoms and ids agree across ranks, so exchanged halos are all that joined ranks need |
| RankFluxes.SharedFacesAgree | src/gw/RichardsSolver.cpp:681-716 | after the steps of joined ranks every shared face holds one flux on both |
| RankFluxes.AuditedBoundary | src/gw/RichardsSolver.cpp:866-901 | at every cell a rank audits exactly what passes there through the boundary of the domain's active cells |
| RankFluxes.RanksConserve | src/gw/RichardsSolver.cpp:667-901 | when all ranks of any layout step from exchanged halos, what crosses between them cancels, their audited boundary inflows add up to what passes the boundary of the domain's active cells, and the domain's volume changes by exactly the sum of their audits |
| RankWindows.CrossingsCancel | src/coupling/Coupler.cpp:81-94 | over the first n steps that all ranks of a layout take together, what crosses between them adds up to nothing |
| RankWindows.WindowsConserve | src/coupling/Coupler.cpp:52-99 | over a coupled window of any number of steps, the water on the beds, in transit and below them on the whole domain changes by exactly the sum of the ranks' audits |
| DomainSplit.SplitJoined | src/gw/TerrainMetric.cpp:299-306 | the parts of any state of any domain, with its halos, are joined under every layout, whatever its activity |
| DomainSplit.RankFollowsDomain | src/gw/Corrector.cpp:117-385 | on its part of a state a rank's flux kernels leave on every lateral and vertical face of its block what they leave there when one rank holds the whole domain |
| Decomposition.BestFit | src/core/Grid.cpp:124-141 | the fallback finds the first best-scoring factorization that fits, and none only when none fits |
| Decomposition.ChooseDecomposition | src/core/Grid.cpp:79-145 | the layout multiplies to the rank count, honours a request or refuses it, and leaves no empty block whenever a fitting factorization exists |
| HaloProtocol.TagsPair | src/core/HaloExchanger.cpp:223-259 | a send's tag meets the receive of the opposite direction and no other |
| HaloProtocol.StepKeeps | src/core/HaloExchanger.cpp:210-281 | every step of every rank keeps the channel invariant |
| HaloProtocol.ReceiveMatches | src/core/HaloExchanger.cpp:223-261 | a receive takes the message its neighbour packed in the same exchange |
| HaloProtocol.RunsFollowLockstep | src/core/HaloExchanger.cpp:199-281 | under every interleaving and any buffering, fields between exchanges are those of the lock-step execution |
| HaloProtocol.Progress | src/core/HaloExchanger.cpp:210-281 | no interleaving deadlocks, whatever is buffered |
| HaloProtocol.RunsComplete | src/core/HaloExchanger.cpp:199-281 | runs are finite and one that cannot continue has finished every exchange on every rank |
| HaloPacking.PackedArrives | src/core/HaloExchanger.cpp:107-171 | unpacking a neighbour's plane fills the halo with its facing boundary cells |
| HaloPacking.UnpackedFields | src/core/HaloExchanger.cpp:210-281 | a coalesced message does to each selected field what its own message would, and nothing to the others |
| HaloPacking.CapacitySuffices | src/core/HaloExchanger.cpp:91-105 | the buffers hold the message of any selection that names no field twice, in every direction and mode |
| HaloPacking.FitsIff | src/core/HaloExchanger.cpp:91-105 | a selection's message fits in every direction and mode exactly when it carries no more layers than are registered |
| HaloPacking.AlwaysFitsIff | src/core/HaloExchanger.cpp:91-105 | a selection fits whatever fields of two or three dimensions are registered exactly when it names none twice |
| HaloPacking.RepeatedNameOverflows | src/core/HaloExchanger.cpp:179-193 | the smallest case: over one registered field, naming it twice overflows the westward buffer |
| HaloPacking.Exchanger.Register | src/core/HaloExchanger.cpp:49-89 | a taken name or wrong extents are refused; another field is added under its name and the buffers grow for it |
| HaloPacking.Exchanger.ResolveNames | src/core/HaloExchanger.cpp:179-193 | every requested name is found or the request is refused; the selection repeats a field exactly when the request repeats a name |
| HaloPacking.Exchanger.EnsureCapacity | src/core/HaloExchanger.cpp:91-105 | every direction's buffers hold the widest message |
| HaloPacking.Exchanger.PackEntry | src/core/HaloExchanger.cpp:107-138 | the packing kernel writes one field's message at its offset and nothing else in the buffer |
| HaloPacking.Exchanger.UnpackEntry | src/core/HaloExchanger.cpp:140-171 | the unpacking kernel fills the field's halo plane and nothing else |
| HaloPacking.Exchanger.PackSelected | src/core/HaloExchanger.cpp:232-239 | the loop with its running offset writes the coalesced message at the start of the buffer and nothing behind it |
| HaloPacking.Exchanger.UnpackSelected | src/core/HaloExchanger.cpp:263-279 | the loop with its running offset unpacks the coalesced message into all registered fields as the message model does |
| HaloCorners.OneExchange | src/core/HaloExchanger.cpp:210-281 | a halo cell on an active plane takes the value across from it; every other cell is kept |
| HaloCorners.CornersFilled | src/core/HaloExchanger.cpp:199-208 | after the two-phase exchange every cell of the box inside the domain, diagonal corners included, holds its owner's value |
| HaloCorners.DomainEdgesKept | src/core/HaloExchanger.cpp:199-208 | domain-edge halos change only through the wide rows |
| HaloCorners.EveryRunFillsCorners | src/core/HaloExchanger.cpp:199-281 | the same at the end of every interleaving |
| GridIds.IdsAreDistinct | src/core/Grid.cpp:174-224 | prefix-sum numbering over ranks and columns repeats no number |
| GridIds.IdsCover | src/core/Grid.cpp:174-224 | and leaves none out |
| GridIds.Gid2Bijective | src/core/Grid.cpp:209-224 | surface ids are a bijection from active columns onto zero to the total, contiguous per rank |
| GridIds.Gid3Bijective | src/core/Grid.cpp:209-224 | subsurface ids are a bijection from active cells onto zero to the total, contiguous per rank and per column |
| GridBlocks.GridBlock.CountActive | src/core/Grid.cpp:158-172 | the counts a rank contributes, or an error exactly when a first active layer is out of range |
| GridBlocks.GridBlock.NumberCells | src/core/Grid.cpp:174-224 | one rank's arrays hold its ids and -1 elsewhere, or an error exactly when a total overflows |
| GridBlocks.HaloIdsAreOwners | src/core/Grid.cpp:234-315 | after both exchanges every box cell but the corners holds the id its owner gave it, -1 outside the domain |
| GridBlocks.EveryRunSharesIds | src/core/Grid.cpp:234-315 | under every interleaving of the ranks |
| GridBlocks.GridBlock.BuildCooPattern | src/gw/RichardsSolver.cpp:618-665 | the active cells' seven slots fill the row and column arrays exactly once, columns being the neighbours' ids or -1 |
| GridBlocks.PatternIsSymmetric | src/gw/RichardsSolver.cpp:652-658 | across ranks, a leg points at a cell exactly when that cell's opposite leg points back |
| FileLayout.SlabPlaces | src/io/Hdf5Output.cpp:220-241 | a hyperslab visits a rank's cells in buffer order at their global positions |
| FileLayout.SlabsPartition | src/io/Hdf5Output.cpp:220-241 | the ranks' hyperslabs partition the dataset |
| FileLayout.FillBuffer | src/io/Hdf5Output.cpp:231-240 | the running index puts each cell at its row-order place |
| FileLayout.WriteDistributed3 | src/io/Hdf5Output.cpp:205-247 | a rank's block lands at its cells' global places and nowhere else; a block of the wrong shape is refused |
| FileLayout.ReadDistributed3 | src/io/Hdf5Output.cpp:251-317 | a rank's block is filled from those places |
| FileLayout.AnyDecompositionRestores | src/io/Hdf5Output.cpp:205-317 | a field written by all ranks of one decomposition in any order is restored by every rank of any other |
| FileLayout.WriteAll | src/io/Hdf5Output.cpp:205-247 | writing all ranks' blocks in place in any order is the sequence of file states the restart result is about |
| FileLayout.RestoreAny | src/io/Hdf5Output.cpp:205-317 | written in place by all ranks of one layout and read by any rank of another, a block holds its part of the field |
| FileLayout.InteriorOf | src/io/Checkpoint.cpp:28-43 | the stored block is the field without its halo |
| FileLayout.SetInterior | src/io/Checkpoint.cpp:123-135 | reading overwrites the interior and leaves the halo |
| Checkpoints.TokensOfJoined | src/io/Checkpoint.cpp:58-64 | splitting undoes joining on nonempty comma-free names |
| Checkpoints.HeaderRestoredIff | src/io/Checkpoint.cpp:47-104 | time, step and all scalars are read back exactly if and only if every name is nonempty, comma-free and not `names` |
| Checkpoints.Group.Write | src/io/Checkpoint.cpp:47-64 | the attributes after a write, over whatever was there |
| Checkpoints.Group.Read | src/io/Checkpoint.cpp:79-104 | the parsed header, or an error at a missing or non-numeric attribute |
| Restarts.CheckpointFile.Write | src/io/Checkpoint.cpp:47-73 | all ranks of a layout leave the header as written and every field in its dataset |
| Restarts.CheckpointFile.Read | src/io/Checkpoint.cpp:79-137 | a rank reads the header or its error; after a header every field's interior is the dataset's and no halo cell changed, after an error nothing did |
| Restarts.Restart | src/io/Checkpoint.cpp:47-137 | written by all ranks of one layout and read by any rank of another: the header comes back exactly when every scalar's name is restorable, then every interior value of every field is back and no halo cell has changed |
| Sha256s.PaddingIsLeast | src/io/RunRecord.cpp:106-120 | padding fills whole blocks with the fewest zero bytes (section 5.1.1 of FIPS 180-4) |
| Sha256s.PaddingIsInjective | src/io/RunRecord.cpp:106-120 | below 2^64 bits no two messages pad to the same blocks |
| Sha256s.Sha256.Compress | src/io/RunRecord.cpp:43-89 | the in-place rounds compute the compression function (section 6.2.2 of FIPS 180-4) |
| Sha256s.Sha256.Update | src/io/RunRecord.cpp:91-104 | after any bytes the state is that of the whole message fed so far |
| Sha256s.Sha256.Finish | src/io/RunRecord.cpp:106-127 | the padding loop ends and the digest is the one-shot hash of the padded message |
| Sha256s.HashPieces | src/io/RunRecord.cpp:130-142 | however a message is split into updates, the digest is that of the whole message |
| SolverPolicy.LinearSystem.Solve | src/core/LinearSystem.cpp:399-456 | the solve's new state and record, or failure, as a function of the state and the solver's outcomes that all ranks share |
| SolverPolicy.LinearSystem.SolveAll | src/core/LinearSystem.cpp:393-456 | a run of solves and rebuild requests on one object ends in the state and records of the history, or at its first fatal solve |
| SolverPolicy.SharedAtMost | src/core/LinearSystem.cpp:433-448 | in any history no preconditioner serves more than the configured number of solves |
| SolverPolicy.RebuiltIffDue | src/core/LinearSystem.cpp:399-448 | a solve sets out to rebuild exactly when one was requested or the last solve called for it by age or iterations; it is retried exactly when a reused preconditioner diverges, and builds at most once |
| SolverPolicy.AlwaysBuilt | src/core/LinearSystem.cpp:449-452 | without reuse every solve builds its own |
| SolverPolicy.FatalIff | src/core/LinearSystem.cpp:411-431 | a run is fatal exactly at a solve that diverges on a fresh preconditioner |
| SolverPolicy.CountersMatch | src/core/LinearSystem.cpp:422-456 | solves, rebuilds, retries, total and largest iteration counts are those of the history |
| TimeMarch.BoundaryPassed | src/driver/Simulation.cpp:1086-1091 | a step that reaches a boundary moves the next one past it, for intervals of at least a second |
| TimeMarch.RunKept | src/driver/Simulation.cpp:1043-1116 | in every run of admitted step lengths, of either loop, the steps add up to the time; labels are strictly increasing multiples of their interval, each written by the step that crosses it |
| TimeMarch.KeysDistinct | src/io/Hdf5Output.cpp:66-75 | no two datasets of a run share a key, nor one the key of a whole-second start |
| TimeMarch.FinalRepeatsIff | src/driver/Simulation.cpp:1118-1120 | the checkpoint after the loop repeats a label exactly when the run ends in a later step less than half a second past the last one |
| TimeMarch.FinalCanRepeat | src/driver/Simulation.cpp:1118-1120 | a concrete adaptive run in which it does |
| TimeMarch.AdaptedPaced | src/driver/Simulation.cpp:1065-1072 | every run of the groundwater loop takes steps within the controller's bounds |
| TimeMarch.Simulation.RunGroundwaterLoop | src/driver/Simulation.cpp:1043-1120 | the loop ends, at the first step that reaches the end time, with exactly the outputs and checkpoints of that many adaptive steps |
| LayerMesh.ReachingIsSuffix | src/gw/TerrainMetric.cpp:199-217 | layers reaching below the bed form a suffix and only its first can be crossed by it |
| LayerMesh.RegularColumn | src/gw/TerrainMetric.cpp:169-225 | the in-place passes give thickness, bottom and activity of every layer, activity a suffix, the merge rule firing at most once |
| LayerMesh.DepthIsBedHeightIff | src/gw/TerrainMetric.cpp:199-224 | active thicknesses add up to the bed's height over the box bottom within the slack exactly when the bed is neither below the box nor in the scant last quarter layer |
| LayerMesh.DepthCases | src/gw/TerrainMetric.cpp:199-224 | and what they add up to in every case |
| LayerMesh.LayersStack | src/gw/TerrainMetric.cpp:199-217 | each active layer hangs from the bottom of the one above it |
| LayerMesh.ScaledColumn | src/gw/TerrainMetric.cpp:243-285 | in the scaled branch, geometric layers add up to the bed's height exactly, end at the box bottom, and are positive above it |
| LayerMesh.UniformHangs | src/gw/TerrainMetric.cpp:263-283 | in the uniform branch, columns hold the whole depth of the box, layer hangs from layer, and the interfaces of two columns differ by what their beds do |
| LayerMesh.TerrainColumn | src/gw/TerrainMetric.cpp:236-289 | one column of either branch; refused exactly when it is scaled and the bed is not above the box bottom |
| Polygons.ClosedCrossesEvenly | src/bc/Polygon.cpp:59-72 | a closed polygon crosses every horizontal line an even number of times |
| Polygons.OutsideIsRejected | src/bc/Polygon.cpp:58-72 | the ray cast rejects every point outside the vertices' bounding box |
| Polygons.TurningDoesNotMatter | src/bc/Polygon.cpp:45-74 | the answer does not change when the vertex list is rotated |
| Polygons.ReversalDoesNotMatter | src/bc/Polygon.cpp:45-74 | nor when it is reversed |
| Polygons.EdgePointsInside | src/bc/Polygon.cpp:30-57 | every point of every edge is inside |
| Polygons.Polygon.constructor | src/bc/Polygon.cpp:13-24 | the loop finds the tightest box around the vertices |
| Polygons.Polygon.Make | src/bc/Polygon.cpp:13-16 | fewer than three vertices is an error |
| Polygons.Polygon.Contains | src/bc/Polygon.cpp:45-74 | the three loops decide box, edge and ray parity |
| EditDistances.NoCheaperScript | src/core/ConfigSchema.cpp:442-459 | no edit script costs less than the distance |
| EditDistances.CheapestScript | src/core/ConfigSchema.cpp:442-459 | some edit script achieves it |
| EditDistances.DistanceSymmetric | src/core/ConfigSchema.cpp:442-459 | the distance is symmetric |
| EditDistances.DistanceBounds | src/core/ConfigSchema.cpp:442-459 | it is zero only for equal strings and lies between the length difference and the longer length |
| EditDistances.EditDistance | src/core/ConfigSchema.cpp:442-459 | the two-row loop computes the distance |
| EditDistances.NearestKey | src/core/ConfigSchema.cpp:461-475 | the first name at the least distance when it is near enough, none otherwise |

## Left out

- Linear solver, preconditioner, kernel runtime, message passing and file library internals: exact-solution inputs, loops, channels and attribute maps stand for them.
- Floating-point rounding, GPU backends, host and device copies, timers, logging and run-record text.
- Powers and exponentials of the closures are uninterpreted; only their signs are used.
- Richards.RichardsSolver.Step: the head solve, ghost refreshes and Courant limits are inputs, and a density ratio other than one is outside the volume identity, because the corrector then weights contents by it.
- HeadSystem.HeadMatrixDefinite: not definiteness outright, because that is false without storage; the exact condition is stated instead.
- LayerMesh.RegularColumn: one column; the loop over columns repeats it independently.
- FileLayout.WriteDistributed3: its two-dimensional variant is the case of one value a cell.
- GridBlocks.GridBlock.BuildCooPattern: the five-slot surface pattern is the same construction over the surface ids and is not repeated; the blocking send-receives of the id exchange are modelled by the channel protocol of the halo exchange.
- Checkpoints.HeaderRestoredIff: names are free of NUL characters, as the C strings they are stored under.
- TimeMarch.RunKept: the surface-only loop's index rule is not modelled.
- Restarts.Restart: the group's key and the check that the group exists; the fields of two dimensions are those of one layer.
- EditDistances.NearestKey: strings are shorter than 2^64 - 1.
- CoupledStep.CoupledSolver.Step: one block, the whole domain; the velocity update, the drag and the momentum terms are inputs, and bulk evaporation rates are given.
- CoupledRun.CoupledSimulation.RunCoupledLoop: transport, monitors and the run record between the steps, and the reduction of the totals over ranks.
- HaloPacking.Exchanger.UnpackSelected: no view is registered under two names.
- RankWindows.WindowsConserve: the free-surface phase before the window is one block's, as in CoupledStep; the head system and the surface system treat their block as the domain.
- Transport: the window accumulation, the limiters and the scalar solvers.
- Baroclinic ratio updates, bulk evaporation rates, boundary lists and their time series.
- Configuration reading and writing, monitors, rain and evaporation rates, and the Python tools.
