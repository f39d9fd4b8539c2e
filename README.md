# Metallo-polyelectrolyte gels: topology generation and trajectory analysis, in Dafny

This project models four Python scripts of the molecular-dynamics toolkit. The toolkit builds
LAMMPS input for polyelectrolyte gels and analyses the trajectories they produce.

- **Topology generator** (`initialize.py`). It does three things:
  - computes the bead counts of a system of `npoly` chains of `Nmono` monomers, each monomer
    `nbeads` beads long and carrying one alpha bead (type 1) with a charged pendant (type 3);
  - fills the per-atom arrays `typeb`, `q` and `molnum`, chains first, then counterions
    (type 4, charge `z_c`), then co-ions (type 5);
  - writes each atom's molecule id and the Bonds section.

  Modules `Topology` and `Bonds` cover it. `Topology.BuildPolymer` and `Topology.AddIons` fill the arrays in
  place, and the model proves them equal to a reference layout `Topology.Layout`. Against that
  layout the model proves:
  - the system is charge-neutral;
  - the bond loop numbers its bonds 1, 2, …;
  - every bond stays inside one chain;
  - alpha–pendant bonds are exactly the bonds of type 2;
  - every pendant is bonded exactly once;
  - the number of bonds equals `nbonds`.
- **Ion-pair survival analysis** (`analysis_ion_pair.py`). For each frame it records which
  (pendant, counterion) pairs — type-3 beads against type-4 beads — are closer than a cutoff. It then fills short "recrossing" gaps in each
  pair's time series and computes the survival autocorrelation function. Modules `Recross`
  and `IonPair` cover it:
  - `_replace_recrossing_events` is an in-place array method. It is proved equal to
    `Recross.Filled`, a run-based definition: a maximal run of unpaired frames becomes paired
    exactly when its length is at most `window_step`. The proof also ties the numpy pipeline
    (pad, diff, argwhere, cumsum) to that definition.
  - The analysis class `AutocorrelationAtomPair` is a Dafny class over 3-D arrays. Its
    correlation column is proved to be the normalised survival count. When any pair is ever
    bound, the column is 1 at lag 0 and lies in [0, 1] everywhere.
- **Cross-linking analysis** (`analysis_crosslinking.py`). Per frame, each ion is classified
  by how many beads of which chains it touches (patterns 100, 200, 110, 300, 210, 111), and
  the number of chain–chain cross-links through each chain is counted. Module
  `CrossLinkingAnalysis` covers it. The model proves two things:
  - the classification matches a pattern exactly when the non-zero block counts are a
    permutation of its digits;
  - each counter is the number of ions with that pattern, and the cross-link row sums to
    Σ T(T−1), where T is the number of chains an ion touches.
- **CPU picker** (`cpu_avail.py`). It reads each row's user-time (`us`) percentage, maps each row to a CPU id,
  keeps the available ones, sorts them, truncates to the number requested and formats them as
  a comma list. Module `CpuAvail` covers it. For an even CPU count the model proves the row →
  id mapping is a bijection. For an odd CPU count it exhibits the collision the mapping has.

`Common` holds the shared `Result`/`Outcome`/`Option` types, sums and counts over sequences,
and IEEE-style division (`Ratio`) for numpy's float division.

## Model

| member | source | states |
|---|---|---|
| Common.Div | Molecular-Dynamics/scripts/parameters/analysis/analysis_ion_pair.py:168 | numpy float division: the exact quotient for a non-zero divisor; NaN for 0/0; an infinity of the numerator's sign otherwise |
| Recross.Filled | Molecular-Dynamics/scripts/parameters/analysis/analysis_ion_pair.py:249-295 | the filled series has the input's length and every paired frame stays paired |
| Recross.FilledRun | Molecular-Dynamics/scripts/parameters/analysis/analysis_ion_pair.py:277-294 | every frame of a maximal unpaired run becomes 1 if the run is at most `window_step` long, and stays 0 otherwise |
| Recross.FilledSmallWindow | Molecular-Dynamics/scripts/parameters/analysis/analysis_ion_pair.py:282 | a window of 0 or less recrosses nothing: the series is returned unchanged |
| Recross.FilledIdempotent | Molecular-Dynamics/scripts/parameters/analysis/analysis_ion_pair.py:249-295 | filling an already filled series changes nothing |
| Recross.ArgWhereMembers | Molecular-Dynamics/scripts/parameters/analysis/analysis_ion_pair.py:277-278 | `argwhere` lists exactly the indices whose difference passes the test |
| Recross.CumSum | Molecular-Dynamics/scripts/parameters/analysis/analysis_ion_pair.py:291 | the cumulative sum keeps the length; each entry is the previous one plus the current mark |
| Recross.GapAt | Molecular-Dynamics/scripts/parameters/analysis/analysis_ion_pair.py:270-282 | the k-th (1→0, 0→1) index pair of the padded difference is the k-th maximal unpaired run; it is selected as a recrossing exactly when its duration is at most `window_step` |
| Recross.ShortStartsMeaning | Molecular-Dynamics/scripts/parameters/analysis/analysis_ion_pair.py:277-283 | an index is a kept start exactly when it opens an unpaired run that is a recrossing |
| Recross.ShortEndsMeaning | Molecular-Dynamics/scripts/parameters/analysis/analysis_ion_pair.py:278-285 | an index is a kept end exactly when it is a paired frame right after a recrossing run (ends at the array's length are dropped) |
| Recross.CumSumInGaps | Molecular-Dynamics/scripts/parameters/analysis/analysis_ion_pair.py:288-291 | the cumulative +1/−1 marks are 1 exactly inside recrossing runs and 0 elsewhere |
| Recross.RecrossIndicesMeaning | Molecular-Dynamics/scripts/parameters/analysis/analysis_ion_pair.py:270-291 | the indices set to 1 are exactly the frames lying in a recrossing run |
| Recross.ReplaceRecrossingEvents | Molecular-Dynamics/scripts/parameters/analysis/analysis_ion_pair.py:262-295 | raises exactly when `window_step >= len(arr)`, leaving the array untouched; otherwise the array is rewritten in place to the filled series |
| Recross.SetOnes | Molecular-Dynamics/scripts/parameters/analysis/analysis_ion_pair.py:294 | the fancy-index assignment `arr[idx] = 1`: every listed frame becomes 1, every other frame keeps its value |
| IonPair.PairState | Molecular-Dynamics/scripts/parameters/analysis/analysis_ion_pair.py:145-149 | a pair is bound exactly when its distance exceeds 1e-6 and is below the cutoff |
| IonPair.FillColumn | Molecular-Dynamics/scripts/parameters/analysis/analysis_ion_pair.py:315-319 | one pair's column is filled through the view into the copied input and into the result; every other pair is unchanged; raises exactly when `window_step >= n_frames` |
| IonPair.WriteColumn | Molecular-Dynamics/scripts/parameters/analysis/analysis_ion_pair.py:317-319 | column (i, j) of the result and of the input copy becomes the given series; every other pair's column is unchanged |
| IonPair.Persistence | Molecular-Dynamics/scripts/parameters/analysis/analysis_ion_pair.py:298-321 | raises exactly when `window_step >= n_frames` and both groups are non-empty; otherwise every pair's series in the result is the filled input series, and the input copy holds the same values |
| IonPair.SurvivalCount | Molecular-Dynamics/scripts/parameters/analysis/analysis_ion_pair.py:219-246 | the survival count never exceeds the number of start frames times the number of pairs |
| IonPair.SurvivalImm | Molecular-Dynamics/scripts/parameters/analysis/analysis_ion_pair.py:195-246 | the loop counts the (start, pair) combinations bound at both ends whose filled series stays 1 from start to start+lag |
| IonPair.CountMono | Molecular-Dynamics/scripts/parameters/analysis/analysis_ion_pair.py:224-244 | a condition implied by another is counted at most as often |
| IonPair.CountGrows | Molecular-Dynamics/scripts/parameters/analysis/analysis_ion_pair.py:224-244 | counting over more start frames never gives less |
| IonPair.SurvivalAtZero | Molecular-Dynamics/scripts/parameters/analysis/analysis_ion_pair.py:224-244 | at lag 0 the survival count is the number of bound (frame, pair) entries, given the filled series covers the raw one |
| IonPair.SurvivalAtMostBound | Molecular-Dynamics/scripts/parameters/analysis/analysis_ion_pair.py:224-244 | at every lag the survival count is at most the number of bound (frame, pair) entries |
| IonPair.SurvivalColumn | Molecular-Dynamics/scripts/parameters/analysis/analysis_ion_pair.py:163-165 | the unnormalised column has one entry per frame, each at most the lag-0 bound count |
| IonPair.NormalisedBounds | Molecular-Dynamics/scripts/parameters/analysis/analysis_ion_pair.py:168 | dividing by the lag-0 entry gives 1 at lag 0 and values in [0, 1]; a zero lag-0 entry gives NaN everywhere |
| IonPair.AcfBounds | Molecular-Dynamics/scripts/parameters/analysis/analysis_ion_pair.py:163-168 | if tau_max ≥ 1 and some pair is ever bound, the ACF starts at 1 and stays in [0, 1]; otherwise it is NaN throughout |
| IonPair.AutocorrelationAtomPair.constructor | Molecular-Dynamics/scripts/parameters/analysis/analysis_ion_pair.py:74-92 | the pair arrays are allocated with shape (n_frames, n1, n2) and zero-filled; the parameters are stored |
| IonPair.AutocorrelationAtomPair.SingleFrame | Molecular-Dynamics/scripts/parameters/analysis/analysis_ion_pair.py:132-149 | the current frame's slice becomes the pair states of the distance matrix; other frames are unchanged |
| IonPair.AutocorrelationAtomPair.AddSurvivalCounts | Molecular-Dynamics/scripts/parameters/analysis/analysis_ion_pair.py:163-165 | entries below the lag count hold the survival count at that lag; the rest stay 0 |
| IonPair.AutocorrelationAtomPair.NormaliseColumn | Molecular-Dynamics/scripts/parameters/analysis/analysis_ion_pair.py:168 | the column is divided in place by its lag-0 entry |
| IonPair.AutocorrelationAtomPair.Correlation | Molecular-Dynamics/scripts/parameters/analysis/analysis_ion_pair.py:151-168 | index error exactly when tau_max > n_frames (counts already added stay); index error on an empty trajectory exactly when no lag runs; otherwise the column is the normalised survival column, with the bounds of AcfBounds |
| IonPair.AutocorrelationAtomPair.Conclude | Molecular-Dynamics/scripts/parameters/analysis/analysis_ion_pair.py:109-122 | the fill error happens exactly when `_persistence` raises; otherwise the filled array is each raw series filled; success exactly when no stage raises, with the normalised column as result |
| CrossLinkingAnalysis.Contacts | Molecular-Dynamics/scripts/parameters/analysis/analysis_crosslinking.py:62 | a contact is a distance below 2 |
| CrossLinkingAnalysis.ArangeAt | Molecular-Dynamics/scripts/parameters/analysis/analysis_crosslinking.py:71 | the k-th index of `arange(0, n, charge)` is k·charge and below n |
| CrossLinkingAnalysis.BlockCountAt | Molecular-Dynamics/scripts/parameters/analysis/analysis_crosslinking.py:71 | `reduceat` entry b counts the contacts in the block of `charge` beads starting at b·charge (the last block may be short) |
| CrossLinkingAnalysis.CrossSum | Molecular-Dynamics/scripts/parameters/analysis/analysis_crosslinking.py:72-75 | the cross row sums to T·(T−1), T the number of chains touched |
| CrossLinkingAnalysis.AddCross | Molecular-Dynamics/scripts/parameters/analysis/analysis_crosslinking.py:76 | broadcasting fails exactly when the lengths differ and the added row is not length 1; otherwise the sum is element-wise or broadcast |
| CrossLinkingAnalysis.AddCrossSum | Molecular-Dynamics/scripts/parameters/analysis/analysis_crosslinking.py:72-76 | adding one ion's cross row raises the total by T·(T−1) |
| CrossLinkingAnalysis.NonZero | Molecular-Dynamics/scripts/parameters/analysis/analysis_crosslinking.py:77 | a value is in the result iff it is a non-zero block count, and no entry is zero |
| CrossLinkingAnalysis.NonZeroMultiset | Molecular-Dynamics/scripts/parameters/analysis/analysis_crosslinking.py:77 | the result holds every non-zero block count with its multiplicity and no zero |
| CrossLinkingAnalysis.NonZeroAppend | Molecular-Dynamics/scripts/parameters/analysis/analysis_crosslinking.py:77 | the filter keeps block order: filtering a concatenation concatenates the filtered parts |
| CrossLinkingAnalysis.NonZeroSum | Molecular-Dynamics/scripts/parameters/analysis/analysis_crosslinking.py:77 | dropping zeros keeps the total number of contacts |
| CrossLinkingAnalysis.ClassifyExact | Molecular-Dynamics/scripts/parameters/analysis/analysis_crosslinking.py:77-90 | an ion gets a pattern exactly when its non-zero block counts are a permutation of the pattern's digits |
| CrossLinkingAnalysis.ClassifyComplete | Molecular-Dynamics/scripts/parameters/analysis/analysis_crosslinking.py:79-90 | an ion is classified exactly when it touches 1 to 3 beads in total |
| CrossLinkingAnalysis.Bump | Molecular-Dynamics/scripts/parameters/analysis/analysis_crosslinking.py:79-90 | classifying one ion raises exactly its pattern's counter by one and leaves the cross row alone |
| CrossLinkingAnalysis.TallyUpTo | Molecular-Dynamics/scripts/parameters/analysis/analysis_crosslinking.py:70-90 | after i ions the cross row keeps its length and at most i ions are classified |
| CrossLinkingAnalysis.TallyFailureSticks | Molecular-Dynamics/scripts/parameters/analysis/analysis_crosslinking.py:70-76 | once the broadcasting error is raised the frame's result is that error |
| CrossLinkingAnalysis.TallyCounts | Molecular-Dynamics/scripts/parameters/analysis/analysis_crosslinking.py:70-90 | each pattern counter equals the number of ions whose block counts have that pattern |
| CrossLinkingAnalysis.TallyCrossSum | Molecular-Dynamics/scripts/parameters/analysis/analysis_crosslinking.py:70-76 | the cross row sums to Σ T(T−1) over the ions processed |
| CrossLinkingAnalysis.OneBlockCross | Molecular-Dynamics/scripts/parameters/analysis/analysis_crosslinking.py:72-76 | an ion with a single block adds `[0]`: touching one block alone makes no cross-link |
| CrossLinkingAnalysis.TallyCrossAt | Molecular-Dynamics/scripts/parameters/analysis/analysis_crosslinking.py:70-76 | entry b of `ncross` is the sum, over the ions whose block b is touched, of the number of other blocks each touches (T−1); a broadcast one-block ion adds nothing |
| CrossLinkingAnalysis.FrameTally | Molecular-Dynamics/scripts/parameters/analysis/analysis_crosslinking.py:59-90 | the ion loop computes the tally of the contact matrix |
| CrossLinkingAnalysis.MeanConst | Molecular-Dynamics/scripts/parameters/analysis/analysis_crosslinking.py:109-115 | the mean of a row filled with one counter is that counter; the mean of an empty row is NaN |
| CrossLinkingAnalysis.CrossLinking.constructor | Molecular-Dynamics/scripts/parameters/analysis/analysis_crosslinking.py:19-49 | stores the charge and allocates the result tables with one column per fragment, every entry zero as `np.zeros` leaves it |
| CrossLinkingAnalysis.CrossLinking.Table | Molecular-Dynamics/scripts/parameters/analysis/analysis_crosslinking.py:107-115 | one output row per frame, whose index column is the frame number |
| CrossLinkingAnalysis.CrossLinking.FillCounters | Molecular-Dynamics/scripts/parameters/analysis/analysis_crosslinking.py:91-96 | every column of the frame's row in each pattern table holds that pattern's counter; other frames are unchanged |
| CrossLinkingAnalysis.CrossLinking.FillCrossRow | Molecular-Dynamics/scripts/parameters/analysis/analysis_crosslinking.py:97 | the frame's Ncross row becomes the accumulated cross row; other frames are unchanged |
| CrossLinkingAnalysis.CrossLinking.SingleFrame | Molecular-Dynamics/scripts/parameters/analysis/analysis_crosslinking.py:52-97 | on success the frame's rows hold the tally of its contact matrix; the broadcasting error is reported as such; other frames are unchanged |
| CrossLinkingAnalysis.FrameMeans | Molecular-Dynamics/scripts/parameters/analysis/analysis_crosslinking.py:109-115 | the per-frame mean of a pattern column is that frame's counter (NaN with no fragments) |
| Topology.MonomerSequence | Molecular-Dynamics/scripts/parameters/initialize.py:60-67 | the sequence loop, with Python's truncating `int()`, builds `MonomerTypes(nbeads)` |
| Topology.MonomerLength | Molecular-Dynamics/scripts/parameters/initialize.py:60-67 | for nbeads ≥ 2 the monomer has exactly nbeads beads |
| Topology.MonomerShape | Molecular-Dynamics/scripts/parameters/initialize.py:60-67 | exactly one alpha bead, immediately followed by the pendant; every other bead is neutral backbone |
| Topology.ComputeCounts | Molecular-Dynamics/scripts/parameters/initialize.py:96-145 | every monomer is charged; the co-ion charge is −1 exactly when pendant charge falls short of counterion charge; co-ion charge × count balances the excess; ntot and nbonds are the polymer beads plus ions, and the polymer beads minus one per chain |
| Topology.MonomerBeads | Molecular-Dynamics/scripts/parameters/initialize.py:282-288 | one monomer's beads carry the sequence's types and the chain's molecule id |
| Topology.ChainsLength | Molecular-Dynamics/scripts/parameters/initialize.py:195-217 | n chains occupy n times the chain length |
| Topology.PolymerLength | Molecular-Dynamics/scripts/parameters/initialize.py:122-125 | the chains fill exactly the polymer bead count and the whole layout has ntot atoms |
| Topology.ChainsGrow | Molecular-Dynamics/scripts/parameters/initialize.py:276-288 | adding chains only appends |
| Topology.MonomerCharge | Molecular-Dynamics/scripts/parameters/initialize.py:75-80 | each monomer carries charge −1 |
| Topology.ChainCharge | Molecular-Dynamics/scripts/parameters/initialize.py:207-217 | a chain carries charge −Nmono |
| Topology.LayoutNeutral | Molecular-Dynamics/scripts/parameters/initialize.py:110-118 | polymer, counterion and co-ion charges sum to zero |
| Topology.FillMonomer | Molecular-Dynamics/scripts/parameters/initialize.py:282-288 | writes one monomer's types, charges and molecule id at the next free slots, leaving later slots blank |
| Topology.PlaceBead | Molecular-Dynamics/scripts/parameters/initialize.py:213-217 | slot k receives the bead's type, charge and molecule id; the slots before it keep their beads and every slot after it stays blank |
| Topology.FillLead | Molecular-Dynamics/scripts/parameters/initialize.py:198-206 | for nbeads == 3 writes the chain's leading neutral bead; otherwise writes nothing |
| Topology.FillChain | Molecular-Dynamics/scripts/parameters/initialize.py:196-217 | writes one chain, the lead bead then Nmono monomers |
| Topology.FillPolymer | Molecular-Dynamics/scripts/parameters/initialize.py:276-288 | writes all chains, ending at the polymer bead count |
| Topology.FillIons | Molecular-Dynamics/scripts/parameters/initialize.py:395-401 | writes n ions of one type and charge after the beads already placed |
| Topology.BuildPolymer | Molecular-Dynamics/scripts/parameters/initialize.py:176-350 | the arrays have ntot+1 zero-initialised slots; the chains occupy slots 1..PolymerBeads and every later slot is still zero |
| Topology.AddIons | Molecular-Dynamics/scripts/parameters/initialize.py:393-442 | after the two ion loops the arrays hold the whole layout from slot 1 and the charges sum to zero |
| Bonds.SameCount | Molecular-Dynamics/scripts/parameters/initialize.py:563-566 | the bond counter never exceeds the atoms scanned |
| Bonds.WriteBonds | Molecular-Dynamics/scripts/parameters/initialize.py:558-576 | `molnum[i+1]` runs off the array exactly when the last polymer atom is the last atom; otherwise the loop emits the bond list |
| Bonds.BondsNumbered | Molecular-Dynamics/scripts/parameters/initialize.py:565-566 | one bond per atom followed by an atom of its chain, numbered 1, 2, … |
| Bonds.BondsInChain | Molecular-Dynamics/scripts/parameters/initialize.py:565-576 | every bond joins two distinct polymer atoms of one chain; type 2 exactly for alpha–pendant bonds |
| Bonds.PendantTouches | Molecular-Dynamics/scripts/parameters/initialize.py:570-573 | a pendant is bonded once, as soon as the loop passes its alpha bead |
| Bonds.PendantOnce | Molecular-Dynamics/scripts/parameters/initialize.py:567-573 | every pendant ends up with exactly one bond |
| Bonds.SectionBonds | Molecular-Dynamics/scripts/parameters/initialize.py:563-576 | the four bond properties together for any well-formed array pair |
| Bonds.ChainsPaired | Molecular-Dynamics/scripts/parameters/initialize.py:60-67 | in the chains every alpha bead is followed, and every pendant preceded, by its partner in the same chain |
| Bonds.LayoutWellFormed | Molecular-Dynamics/scripts/parameters/initialize.py:563-576 | with at least one ion, the generated arrays have the shape the bond loop relies on |
| Bonds.ChainBlocks | Molecular-Dynamics/scripts/parameters/initialize.py:205-217 | bead r of chain d sits at atom d·L+r+1 and has molecule id d+1 |
| Bonds.IonAfterChains | Molecular-Dynamics/scripts/parameters/initialize.py:395-401 | the first atom after the chains has molecule id 0 |
| Bonds.ChainsMolRange | Molecular-Dynamics/scripts/parameters/initialize.py:288 | every chain bead's molecule id is in 1..npoly |
| Bonds.ChainsCount | Molecular-Dynamics/scripts/parameters/initialize.py:563-566 | d consecutive chains of length L yield d·(L−1) bonds |
| Bonds.LayoutBondCount | Molecular-Dynamics/scripts/parameters/initialize.py:145 | the bond loop on the generated arrays writes exactly nbonds bonds |
| Bonds.LayoutKinds | Molecular-Dynamics/scripts/parameters/initialize.py:539-545 | polymer atoms have types 1..3 and chain ids 1..npoly; atoms after them are ions of type 4 or 5 |
| Bonds.AtomMolecules | Molecular-Dynamics/scripts/parameters/initialize.py:534-545 | polymer atoms keep their chain id; the k-th ion gets its own id npoly+k, within npoly+1..npoly+ions |
| Bonds.WriteRecords | Molecular-Dynamics/scripts/parameters/initialize.py:393-576 | past the polymer section, the arrays end up holding the whole layout with charges summing to zero; polymer atom records keep their molnum, the k-th ion gets its own id npoly+k, and the bond loop succeeds with BondsUpTo |
| Bonds.Generate | Molecular-Dynamics/scripts/parameters/initialize.py:130-576 | the script stops early exactly in four cases: ZeroDivisionError in the density report when there are no atoms (ntot = 0); NameError on `k1` when chains have no monomers and nbeads ≠ 3; IndexError reading `xc[ntot+1]` at the end-to-end step when npoly ≥ 1 and there are no ions; ZeroDivisionError of `rg2ave/npoly` when npoly = 0 and atoms exist. Then at most the chains are written and no molecule id or bond is produced. Otherwise the arrays hold the layout slot by slot, the charges cancel, polymer atom records keep their molnum, ion k gets id npoly+k, and the bond loop succeeds |
| CpuAvail.CpuId | Molecular-Dynamics/scripts/parameters/cpu_avail.py:17-20 | rows in the first half map to 2i; later rows map to 2i−ncpuT+1, never negative |
| CpuAvail.CpuIdHalves | Molecular-Dynamics/scripts/parameters/cpu_avail.py:17-20 | for even ncpuT, the first half of rows gets the even ids and the second half the odd ids, all below ncpuT |
| CpuAvail.CpuIdInjective | Molecular-Dynamics/scripts/parameters/cpu_avail.py:17-20 | for even ncpuT, distinct rows get distinct ids |
| CpuAvail.CpuIdOnto | Molecular-Dynamics/scripts/parameters/cpu_avail.py:17-20 | for even ncpuT, every id below ncpuT is some row's |
| CpuAvail.CpuIdOddCollision | Molecular-Dynamics/scripts/parameters/cpu_avail.py:17-20 | for odd ncpuT ≥ 3, row (ncpuT−1)/2 also maps to id 0 |
| CpuAvail.SelectAvailable | Molecular-Dynamics/scripts/parameters/cpu_avail.py:14-20 | the loop lists the ids of the available rows in row order |
| CpuAvail.AvailableIdsMembers | Molecular-Dynamics/scripts/parameters/cpu_avail.py:15-20 | an id is listed exactly when some row under 50 us maps to it |
| CpuAvail.AvailableIdsDistinct | Molecular-Dynamics/scripts/parameters/cpu_avail.py:15-20 | for even ncpuT, no id is listed twice |
| CpuAvail.InsertSorted | Molecular-Dynamics/scripts/parameters/cpu_avail.py:21 | inserting into a sorted list keeps it sorted |
| CpuAvail.InsertPermutes | Molecular-Dynamics/scripts/parameters/cpu_avail.py:21 | inserting adds exactly the new element |
| CpuAvail.SortIds | Molecular-Dynamics/scripts/parameters/cpu_avail.py:21 | the result is sorted and a permutation of the input |
| CpuAvail.SortedUnique | Molecular-Dynamics/scripts/parameters/cpu_avail.py:21 | two sorted permutations of one list are equal, so the sort's result is determined |
| CpuAvail.SliceTo | Molecular-Dynamics/scripts/parameters/cpu_avail.py:23 | `s[:n]` is a prefix of length min(n, len) for n ≥ 0 and max(len+n, 0) for negative n |
| CpuAvail.KeepsSmallest | Molecular-Dynamics/scripts/parameters/cpu_avail.py:21-23 | slicing a sorted list keeps it sorted and keeps no element above a dropped one |
| CpuAvail.DecimalRoundTrip | Molecular-Dynamics/scripts/parameters/cpu_avail.py:23 | reading back the decimal text of a number gives the number |
| CpuAvail.Remove | Molecular-Dynamics/scripts/parameters/cpu_avail.py:24-26 | `replace(c, "")` leaves no c and never lengthens the text |
| CpuAvail.StripBlanks | Molecular-Dynamics/scripts/parameters/cpu_avail.py:26 | removing blanks from a ", "-joined list of blank-free parts gives the ","-joined list |
| CpuAvail.StripListStr | Molecular-Dynamics/scripts/parameters/cpu_avail.py:23-26 | stripping `[`, `]` and blanks from `str(list)` gives the ids joined by commas |
| CpuAvail.Format | Molecular-Dynamics/scripts/parameters/cpu_avail.py:23-27 | the printed text is the comma-joined id list |
| CpuAvail.SelectCpus | Molecular-Dynamics/scripts/parameters/cpu_avail.py:14-27 | the result is sorted and is `s[:ncpu]` of the sorted available ids; the text is its comma-joined form |

## Left out

- Random-walk coordinates, box size and image flags of `initialize.py` are not modelled, nor is the unused `minsep` parameter. They depend on the random generator and floating-point geometry, and apart from four aborts they do not affect the arrays, ids or bonds the model covers. Those four aborts are modelled as failures of `Bonds.Generate`: the ZeroDivisionError of `ntot/vol` when there are no atoms, so the box has volume 0; the NameError on `k1` when chains have no monomers and nbeads ≠ 3; the IndexError of the end-to-end read `xc[k2]` one past the last chain when no ion follows it; and the ZeroDivisionError of `rg2ave/npoly` when npoly = 0. Writing `input.data` is left out too; the model returns the values the records would hold.
- Topology.BuildPolymer, Bonds.WriteRecords, Bonds.Generate: require nbeads ≥ 2. For nbeads of 0 or 1, the sequence loop emits more beads than nbeads, so the polymer section overruns the slots `ntot` reserves for it. The script then raises IndexError or, when the overrun still fits in the arrays (nbeads = 1, z_c = 1 and N_i = 2·nmonomers, for instance), the ion loops silently overwrite polymer beads with ions; neither case is modelled.
- Topology.ComputeCounts: fixes x_y = 0 and neutralizedfraction = 1.0, the script's constants. The x-monomer and partial-neutralisation branches are therefore absent. The random x-monomer sample is left out as well.
- Bonds.Generate: assumes a positive density `rho` and a positive counterion size `r_i`, which are not parameters of the model. With `rho = 0` the volume computation divides by zero, and with `r_i = 0` and no polymer beads the box has volume 0 and the density report divides by zero; neither abort is modelled.
- Topology.AddIons: charges `q` are integers. The script stores `z_c*1.0` (a float) for counterions and the int `charge_coion` for co-ions in a list initialised with `0.0`; every value is a whole number.
- Bonds.LayoutBondCount: requires at least one ion. Without ions the script never reaches the bond loop: the end-to-end step already reads past the arrays, as `Bonds.Generate` states (the loop on its own would fail at `molnum[i+1]`, as `Bonds.WriteBonds` states). It also requires chains of at least one bead.
- The PDB/PSF writers, commented out in the source, are not modelled.
- `cpu_avail.py`: the `top` call, the CSV parsing, the removal of `top.txt` and the parsing of `" us"` strings into floats are left out. The model takes the parsed user-time percentages as a sequence of reals, and the returned string stands for the printed one.
- CpuAvail.SelectCpus: the sort is modelled as insertion sort. Its result is pinned down up to equality by `CpuAvail.SortedUnique`, not by Python's Timsort steps.
- MDAnalysis is not modelled:
  - distance arrays (with periodic boxes) are taken as given matrices of reals;
  - trajectory iteration, atom groups and fragments, and the `AtomGroup` type checks are left out;
  - the time columns (ps/ns) of the ion-pair results are left out.
- Both analyses build pandas DataFrames and save output; that is left out. For the cross-linking table, the frame index and the per-frame means are modelled.
- numba parallel loops (`prange`) are modelled as sequential loops. The survival count is a sum, so the order does not change it.
- The `arr.ndim != 1` check of `_replace_recrossing_events` is not modelled. The model's argument is always a one-dimensional array.
- The `B = np.dot(...)` matrix in the cross-linking loop is left out. It is computed and never used.
- CrossLinkingAnalysis.CrossLinking.constructor: requires charge ≥ 1. With charge 0, `np.arange` raises at the first ion of a frame, so a frame with no ions would still be counted; with a negative charge `np.arange` returns no block starts. Neither case is modelled.
- numpy's float64 values are modelled as exact reals: distances are compared exactly, and `Common.Div` gives the exact quotient rather than the rounded IEEE one. The lag-0 entry being 1 and every entry lying in [0, 1] hold under IEEE rounding as well.
- The Rg table of the cross-linking analysis is allocated in the source but never filled; it is not modelled.
