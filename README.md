# SpatioTemporalDithering render-pass book-keeping in Dafny

This project models the host-side logic of four render passes of the SpatioTemporalDithering Falcor plug-ins. It proves properties of that model.

- **DitherLookup** (`dither_lookup.dfy`) covers the stratified dither lookup table:
  - `Binomial` computes a binomial coefficient from one Pascal row updated in place.
  - `count_bits` clears the lowest set bit until none is left.
  - `generateStratifiedLookupTable` computes the start index of every popcount group. It then fills a table of the values `0 .. 2^n-1`, bucketed by popcount.
  - The model proves that the table is a permutation of `0 .. 2^n-1`. It is sorted by popcount and, within a popcount, by value. Each value lies inside its popcount group, and the group sizes are the binomial coefficients.
- **DecimaSamplePattern** (`decima_sample_pattern.dfy`) is the two-sample temporal anti-aliasing jitter.
  - It is a 32-bit counter that indexes a two-entry table.
  - The model proves that the output alternates with period two from any counter value, also across the counter's wrap-around. After a reset the output is left edge, top edge, left edge, and so on.
- **RasterOITLinkedList** (`raster_oit_linked_list.dfy`) is the per-pixel linked-list order-independent transparency pass.
  - The constructor builds the table of fragment-count limits and one specialised sort pass per pair of consecutive limits. The model proves that the pass ranges abut and that every fragment count in `(0, 256]` falls in exactly one of them.
  - The per-frame work is:
    - clear the colour output, the list heads, the node counter and the pixel counters;
    - return early without a scene;
    - otherwise reallocate the node buffer when its size differs from the configured one;
    - then choose between the specialised sort passes and the general one.
  - The settings panel shows the node buffer's size in megabytes.
- **ParticlePass** (`particle_pass.dfy`) is the particle animation pass.
  - `setScene` activates every system and gives it default settings with the scene's spawn position and radius. It lays the systems' slices out back to back in one animation buffer. If there are particles, it loads the first settings file of the scene's folder over those defaults, for every system the file names, and fills the buffer with initial particles.
  - `getInitialData` fills either the whole buffer or one system's slice.
  - `execute` optionally reinitialises the buffer. While `mUseSimulation` is set it runs `mSimulationSteps` update dispatches, otherwise one. `mUseSimulation` is set on the first frame, and after every reinitialisation when `mEnableSimulateOnStartup` is set. Each dispatch issues one constant-buffer setup per active system, then clears the reset flag and advances the frame counter, wrapping at 2^32.
  - `storeCurrentConfiguration` chooses the settings file name. The file-list refresh lists files by their `.prtsett` extension and labels them by their stem. The model proves that a stored configuration lists under its own name.
- **UInt32** (`uint32.dfy`) models the wrapping `uint32_t` arithmetic that the counters use.

## Model

| member | source | states |
|---|---|---|
| UInt32.Inc | Source/RenderPasses/ParticlePass/ParticlePass.cpp:299 | incrementing a 32-bit unsigned counter gives x + 1 modulo 2^32 |
| UInt32.IncParity | Source/RenderPasses/DecimaTAA/DecimaSamplePattern.h:54 | the wrap at 2^32 does not disturb the parity of the counter, so `% 2` after `++` still alternates |
| UInt32.AddWrapStep | Source/RenderPasses/ParticlePass/ParticlePass.cpp:243-244 | k increments followed by one more equal k + 1 increments, modulo 2^32 |
| DitherLookup.Binomial | Source/RenderPasses/DitherVBuffer/DitherLookup.h:7-20 | the in-place right-to-left row update returns C(n, k) by Pascal's rule; a row n <= 0 leaves only C[0] = 1 |
| DitherLookup.ChooseBeyondRow | Source/RenderPasses/DitherVBuffer/DitherLookup.h:16-17 | an entry past the row (k > n, k > 0) is 0, which is why the inner loop can start at min(i, k) |
| DitherLookup.ChooseDiagonal | Source/RenderPasses/DitherVBuffer/DitherLookup.h:7-20 | C(n, n) = 1 |
| DitherLookup.CountBits | Source/RenderPasses/DitherVBuffer/DitherLookup.h:22-27 | the loop `v &= v - 1` counts exactly the set bits of a 32-bit value, at most 32 |
| DitherLookup.ClearLowestSetBit | Source/RenderPasses/DitherVBuffer/DitherLookup.h:25 | for v > 0, v & (v - 1) is smaller than v and has one set bit fewer |
| DitherLookup.BitAndSelf | Source/RenderPasses/DitherVBuffer/DitherLookup.h:25 | the arithmetic model of & satisfies a & a = a |
| DitherLookup.PopZero | Source/RenderPasses/DitherVBuffer/DitherLookup.h:25 | the popcount is 0 exactly for 0, so the loop stops exactly at 0 |
| DitherLookup.PopBound | Source/RenderPasses/DitherVBuffer/DitherLookup.h:47-48 | a value below 2^w has at most w set bits, so `currentIndices[popCount]` is in range |
| DitherLookup.PopHighBit | Source/RenderPasses/DitherVBuffer/DitherLookup.h:47 | adding the bit 2^w to a value below 2^w adds one to its popcount |
| DitherLookup.PopAllOnes | Source/RenderPasses/DitherVBuffer/DitherLookup.h:46-49 | 2^w - 1 has popcount w: the last value belongs to the last group |
| DitherLookup.CountPopMonotone | Source/RenderPasses/DitherVBuffer/DitherLookup.h:46-51 | a cursor never moves back: the number of values with popcount p below m grows with m |
| DitherLookup.CountPopShift | Source/RenderPasses/DitherVBuffer/DitherLookup.h:46-51 | the values in [2^w, 2^w + m) with popcount p correspond to the values below m with popcount p - 1 |
| DitherLookup.CountPopIsChoose | Source/RenderPasses/DitherVBuffer/DitherLookup.h:38-41 | the number of w-bit values with popcount p is C(w, p), the group size the index list reserves |
| DitherLookup.CountPopWithin | Source/RenderPasses/DitherVBuffer/DitherLookup.h:48-50 | a value below 2^n is preceded by fewer values of its popcount than its group holds, so its cursor stays inside the group |
| DitherLookup.OffsetMonotone | Source/RenderPasses/DitherVBuffer/DitherLookup.h:38-41 | the group starts never decrease |
| DitherLookup.OffsetPascal | Source/RenderPasses/DitherVBuffer/DitherLookup.h:38-41 | each prefix sum of row n + 1 is the sum of two prefix sums of row n |
| DitherLookup.OffsetPastRow | Source/RenderPasses/DitherVBuffer/DitherLookup.h:38-41 | the group starts stop growing after popcount n |
| DitherLookup.OffsetTotal | Source/RenderPasses/DitherVBuffer/DitherLookup.h:31-41 | the group sizes of row n add up to maxEntries = 2^n |
| DitherLookup.LastGroupStart | Source/RenderPasses/DitherVBuffer/DitherLookup.h:38-41 | the last group (popcount n) starts at 2^n - 1 |
| DitherLookup.PosOrder | Source/RenderPasses/DitherVBuffer/DitherLookup.h:45-51 | the slot given to a value preserves the order popcount first, then value |
| DitherLookup.PosInjective | Source/RenderPasses/DitherVBuffer/DitherLookup.h:45-51 | different values get different slots, so no write overwrites another |
| DitherLookup.GroupOf | Source/RenderPasses/DitherVBuffer/DitherLookup.h:38-41 | every slot below the start of group q lies in some earlier group |
| DitherLookup.ValueOfRank | Source/RenderPasses/DitherVBuffer/DitherLookup.h:46-51 | each rank in a popcount group is the rank of some value |
| DitherLookup.PosOnto | Source/RenderPasses/DitherVBuffer/DitherLookup.h:45-51 | every slot of the table is the slot of some value, so no slot is left unwritten |
| DitherLookup.TableSlots | Source/RenderPasses/DitherVBuffer/DitherLookup.h:45-51 | once every value is placed, each slot holds a value below 2^n whose slot is that slot |
| DitherLookup.TableOrdered | Source/RenderPasses/DitherVBuffer/DitherLookup.h:45-51 | such a table is strictly ordered by popcount, then by value |
| DitherLookup.StratifiedTableProperties | Source/RenderPasses/DitherVBuffer/DitherLookup.h:29-52 | the filled table is a permutation of 0 .. 2^n-1, is sorted by popcount and then value, starts with 0, ends with 2^n - 1 and keeps every value inside its popcount group |
| DitherLookup.FillStep | Source/RenderPasses/DitherVBuffer/DitherLookup.h:46-51 | one fill step writes value i at the cursor of its popcount, which is the value's slot, and advancing that cursor keeps the cursor invariant |
| DitherLookup.GenerateIndexList | Source/RenderPasses/DitherVBuffer/DitherLookup.h:34-41 | indices[p] is the sum of C(n, j) for j < p: the first slot of popcount group p |
| DitherLookup.FillLookUpTable | Source/RenderPasses/DitherVBuffer/DitherLookup.h:44-51 | after the fill every value 0 .. 2^n-1 sits at its slot |
| DitherLookup.GenerateStratifiedLookupTable | Source/RenderPasses/DitherVBuffer/DitherLookup.h:29-52 | indices has n + 1 group starts from 0 to 2^n - 1, and lookUpTable has 2^n entries, is a permutation of 0 .. 2^n-1 ordered by popcount then value, and every entry lies in its popcount group |
| DitherLookup.Pow2Fits | Source/RenderPasses/DitherVBuffer/DitherLookup.h:31 | 2^n fits in uint32_t for n <= 31, and 2^32 is one past the largest uint32_t |
| DecimaSamplePattern.Samples | Source/RenderPasses/DecimaTAA/DecimaSamplePattern.h:54 | k calls of next() return k samples |
| DecimaSamplePattern.SampleAt | Source/RenderPasses/DecimaTAA/DecimaSamplePattern.h:54-62 | the j-th sample from counter c is the table entry of parity c + j, also when the counter wraps |
| DecimaSamplePattern.SamplesAfterReset | Source/RenderPasses/DecimaTAA/DecimaSamplePattern.h:52-62 | after a reset, even calls give the left edge (-0.5, 0) and odd calls the top edge (0, -0.5) |
| DecimaSamplePattern.PeriodTwo | Source/RenderPasses/DecimaTAA/DecimaSamplePattern.h:54-62 | from any counter value the output repeats every two calls and consecutive samples differ |
| DecimaSamplePattern.DecimaSamplePattern.constructor | Source/RenderPasses/DecimaTAA/DecimaSamplePattern.h:47-57 | the counter starts at 0 whatever sample count is requested |
| DecimaSamplePattern.DecimaSamplePattern.GetSampleCount | Source/RenderPasses/DecimaTAA/DecimaSamplePattern.h:50-58 | the sample count is the size of the pattern table, 2 |
| DecimaSamplePattern.DecimaSamplePattern.Reset | Source/RenderPasses/DecimaTAA/DecimaSamplePattern.h:52 | reset sets the counter to 0 and ignores the start index |
| DecimaSamplePattern.DecimaSamplePattern.Next | Source/RenderPasses/DecimaTAA/DecimaSamplePattern.h:54 | next returns the entry the old counter selects modulo 2, advances the counter with wrap-around, and is the head of the sample sequence |
| DecimaSamplePattern.ResetThenTwoSamples | Source/RenderPasses/DecimaTAA/DecimaSamplePattern.h:52-62 | reset and then two calls give the left edge, then the top edge, and leave the counter at 2 |
| RasterOITLinkedList.MakeOptimizedSortPasses | Source/RenderPasses/RasterOITLinkedList/RasterOITLinkedList.cpp:74-81 | one pass per pair of consecutive limits, with MAX_FRAGMENT = limit i and MIN_FRAGMENT = limit i + 1 |
| RasterOITLinkedList.ResolveIntervalsShape | Source/RenderPasses/RasterOITLinkedList/RasterOITLinkedList.cpp:71-72 | the limit table strictly descends from the upper limit 256 to 0 and yields seven passes |
| RasterOITLinkedList.PassesAbut | Source/RenderPasses/RasterOITLinkedList/RasterOITLinkedList.cpp:72-81 | every pass has MAX_FRAGMENT > MIN_FRAGMENT, and each pass's MIN_FRAGMENT is the next pass's MAX_FRAGMENT |
| RasterOITLinkedList.PassRangesPartition | Source/RenderPasses/RasterOITLinkedList/RasterOITLinkedList.cpp:72-81 | every fragment count between the last and the first limit lies in the range (MIN, MAX] of exactly one pass |
| RasterOITLinkedList.SizeInMB | Source/RenderPasses/RasterOITLinkedList/RasterOITLinkedList.cpp:213-214 | the size shown is the node count times 16 bytes, divided by 2^20 and rounded down |
| RasterOITLinkedList.RasterOITLinkedList.constructor | Source/RenderPasses/RasterOITLinkedList/RasterOITLinkedList.cpp:51-82 | a newly created one-element counter buffer, no node buffer, no scene, and the seven specialised sort passes built from the limit table |
| RasterOITLinkedList.RasterOITLinkedList.SetScene | Source/RenderPasses/RasterOITLinkedList/RasterOITLinkedList.cpp:219-224 | records whether a scene is set |
| RasterOITLinkedList.RasterOITLinkedList.DispatchSortPasses | Source/RenderPasses/RasterOITLinkedList/RasterOITLinkedList.cpp:196-206 | with OPTIMIZE_SORT every specialised pass is dispatched in table order, otherwise the single general pass |
| RasterOITLinkedList.RasterOITLinkedList.Execute | Source/RenderPasses/RasterOITLinkedList/RasterOITLinkedList.cpp:101-208 | colour cleared to (0,0,0,1), heads to uint32_t(-1), the node and pixel counters to 0; it stops without a scene; otherwise it reallocates the node buffer exactly when it is missing or of the wrong size; passes its size as maxElements to both stages, sets OPTIMIZE_SORT to 1 or 0 and dispatches the matching sort passes |
| RasterOITLinkedList.RenderFirstFrame | Source/RenderPasses/RasterOITLinkedList/RasterOITLinkedList.cpp:51-224 | a new pass given a scene renders its first frame with a node buffer of the configured size given to both stages, the OPTIMIZE_SORT define matching the setting, and the seven specialised passes built from the limit table or the single general pass |
| ParticlePass.InitialSettings | Source/RenderPasses/ParticlePass/ParticlePass.cpp:158-160 | a new system's settings are the defaults except for the scene's spawn position and initial radius |
| ParticlePass.TotalPrefixStep | Source/RenderPasses/ParticlePass/ParticlePass.cpp:162-163 | the running total after system i is the total before it plus its particle count |
| ParticlePass.TotalPrefixMonotone | Source/RenderPasses/ParticlePass/ParticlePass.cpp:162-163 | the buffer offsets never decrease |
| ParticlePass.TotalSameCounts | Source/RenderPasses/ParticlePass/ParticlePass.cpp:155-164 | activating systems does not change the buffer size, which depends only on the particle counts |
| ParticlePass.FilledRangeIsSlice | Source/RenderPasses/ParticlePass/ParticlePass.cpp:492-514 | the slots getInitialData fills for system i are exactly [mParticleBufferOffsets[i], mParticleBufferOffsets[i] + numberParticles) |
| ParticlePass.SliceWithinTotal | Source/RenderPasses/ParticlePass/ParticlePass.cpp:506-514 | system i's slice ends at the running total after it, which does not exceed the buffer size, so getInitialData writes inside the vector |
| ParticlePass.SlicesDisjoint | Source/RenderPasses/ParticlePass/ParticlePass.cpp:162-163 | the slices of two different systems share no slot |
| ParticlePass.SlicesTile | Source/RenderPasses/ParticlePass/ParticlePass.cpp:155-164 | every buffer slot below mTotalBufferSize belongs to the slice of exactly one system |
| ParticlePass.ActivationKeepsTotals | Source/RenderPasses/ParticlePass/ParticlePass.cpp:155-164 | setting the systems active changes neither the total nor any running total of their particle counts |
| ParticlePass.ActivateSystems | Source/RenderPasses/ParticlePass/ParticlePass.cpp:152-164 | every system is set active, gets its initial settings and the running total as its offset, and the total is the sum of all particle counts |
| ParticlePass.FillSlice | Source/RenderPasses/ParticlePass/ParticlePass.cpp:505-513 | one system's slots get zero velocity, an invalid flag and a lifetime in [-combined, combined]; the other slots are unchanged |
| ParticlePass.ParticlePass.constructor | Source/RenderPasses/ParticlePass/ParticlePass.h:86-101 | the header's initial values: frame counter 0, no reinitialise, no reset, simulate on startup, 100 simulation steps, empty buffers and the name "ParticleSettings" |
| ParticlePass.ParticlePass.GetInitialData | Source/RenderPasses/ParticlePass/ParticlePass.cpp:487-518 | a vector of mTotalBufferSize elements; with index -1 every system's slice is initial particles, with index i only system i's slice, and every other slot is value-initialised |
| ParticlePass.ParticlePass.SetScene | Source/RenderPasses/ParticlePass/ParticlePass.cpp:140-186 | no scene changes nothing. Otherwise all systems are activated, the offsets are the prefix sums and the total is their sum. A system takes the loaded file's settings when there are particles, a file was read and it names the system; otherwise it keeps its initial settings. A fresh buffer of initial particles exists exactly when the total is positive |
| ParticlePass.ParticlePass.LoadConfiguration | Source/RenderPasses/ParticlePass/ParticlePass.cpp:469-476 | every system named in the parsed file takes the file's settings, and every other system keeps its own |
| ParticlePass.ParticlePass.CreateAnimateDataBuffer | Source/RenderPasses/ParticlePass/ParticlePass.cpp:172-182 | a fresh buffer of mTotalBufferSize initial particles |
| ParticlePass.ParticlePass.DispatchParticlePass | Source/RenderPasses/ParticlePass/ParticlePass.cpp:249-300 | one constant-buffer setup per active system with the current reset flag, frame counter, offset and count, skipping inactive ones; then reset is cleared and the frame counter advances with wrap-around |
| ParticlePass.ParticlePass.Execute | Source/RenderPasses/ParticlePass/ParticlePass.cpp:188-247 | without a scene or systems nothing changes. Otherwise a pending reinitialise refills the buffer if there is one, and sets reset and useSimulation from enableSimulateOnStartup. Then come mSimulationSteps dispatches with simulation, else one, and useSimulation ends false. Defined on every valid state, including one with no buffer (see Findings) |
| ParticlePass.ParticlePass.PressResetAll | Source/RenderPasses/ParticlePass/ParticlePass.cpp:363 | the "Reset All" button ORs its press into the reinitialise request |
| ParticlePass.ParticlePass.ReinitializeBuffer | Source/RenderPasses/ParticlePass/ParticlePass.cpp:200-208 | the whole buffer holds initial particles, reset is the negation of enableSimulateOnStartup, the request is cleared and useSimulation becomes enableSimulateOnStartup |
| ParticlePass.ParticlePass.DispatchPasses | Source/RenderPasses/ParticlePass/ParticlePass.cpp:242-244 | count dispatches append the dispatch sequence for count frames, advance the frame counter by count modulo 2^32 and leave reset set only if there were none |
| ParticlePass.ParticlePass.MaxCombinedLifetime | Source/RenderPasses/ParticlePass/ParticlePass.cpp:234-237 | the result is the maximum of 0 and every system's lifetime + randomLifetime: no smaller than any of them, and equal to 0 or to one of them |
| ParticlePass.ParticlePass.StoreCurrentConfiguration | Source/RenderPasses/ParticlePass/ParticlePass.cpp:389-402 | nothing is stored without a scene or systems; otherwise the file is the configuration name, or "ParticleSettings" when it is empty, plus ".prtsett" |
| ParticlePass.ActiveDispatchesShape | Source/RenderPasses/ParticlePass/ParticlePass.cpp:264-276 | one dispatch per active system, each with the flag and frame counter of that call |
| ParticlePass.AllActiveDispatches | Source/RenderPasses/ParticlePass/ParticlePass.cpp:264-276 | when every system is active, dispatch i carries system i's buffer offset and particle count |
| ParticlePass.DispatchesLengthTimes | Source/RenderPasses/ParticlePass/ParticlePass.cpp:242-244 | count frames issue count times the number of active systems dispatches (as repeated addition) |
| ParticlePass.DispatchesLength | Source/RenderPasses/ParticlePass/ParticlePass.cpp:242-244 | count frames issue count * (active systems) dispatches |
| ParticlePass.DispatchesSnoc | Source/RenderPasses/ParticlePass/ParticlePass.cpp:243-244 | the dispatches of count frames are those of count - 1 frames followed by one frame's, at frame counter + count - 1 |
| ParticlePass.DispatchesBlockTimes | Source/RenderPasses/ParticlePass/ParticlePass.cpp:242-299 | block b of the dispatch sequence is one frame's dispatches at frame counter + b, with reset only in block 0 (as repeated addition) |
| ParticlePass.DispatchesBlock | Source/RenderPasses/ParticlePass/ParticlePass.cpp:242-299 | block b of the dispatch sequence is one frame's dispatches at frame counter + b modulo 2^32, and only block 0 carries the reset flag |
| ParticlePass.SimulatedRound | Source/RenderPasses/ParticlePass/ParticlePass.cpp:242-299 | in a start-up simulation over activated systems, block b of the dispatch log dispatches every system of the scene in order, with its offset and count, at frame counter b and without reset |
| ParticlePass.StartupRounds | Source/RenderPasses/ParticlePass/ParticlePass.cpp:242-299 | a start-up simulation of steps frames is steps such full rounds, one for each frame counter 0 .. steps - 1 |
| ParticlePass.FirstFrameOfNewPass | Source/RenderPasses/ParticlePass/ParticlePass.cpp:140-247 | the first frame after a scene is set simulates 100 steps: the frame counter ends at 100, the log holds 100 * (systems) dispatches, and block b of it is every system of the scene in order at frame counter b, without reset |
| ParticlePass.ResetAllWithoutParticles | Source/RenderPasses/ParticlePass/ParticlePass.cpp:172-203 | a fresh pass given a scene with one system and no particles gets no buffer, and "Reset All" still leaves a reinitialise pending with reset clear and frame counter 0: the state in which line 203 writes through a null buffer |
| ParticlePass.ConfigFileName | Source/RenderPasses/ParticlePass/ParticlePass.cpp:399-402 | the name ends in ".prtsett" and begins with the configuration name, or is "ParticleSettings.prtsett" for an empty name |
| ParticlePass.LastDot | Source/RenderPasses/ParticlePass/ParticlePass.cpp:435-437 | the position of the last '.' if there is one, and no '.' anywhere otherwise |
| ParticlePass.Extension | Source/RenderPasses/ParticlePass/ParticlePass.cpp:435 | the extension is a suffix of the file name |
| ParticlePass.Stem | Source/RenderPasses/ParticlePass/ParticlePass.cpp:437 | the stem followed by the extension is the file name |
| ParticlePass.LastDotAppend | Source/RenderPasses/ParticlePass/ParticlePass.cpp:435-437 | appending text without a '.' does not move the last dot |
| ParticlePass.StoredConfigurationRoundTrip | Source/RenderPasses/ParticlePass/ParticlePass.cpp:399-437 | a stored file has the extension ".prtsett" and is listed under the configuration name, or "ParticleSettings" when that is empty |

## Left out

- Shaders: the list building, sorting, blending and particle update run on the GPU and are not modelled. The node and animation buffers are only sized and initialised.
- RasterOITLinkedList.RasterOITLinkedList.Execute: its post-state of color, head, pixelCount and the count buffer is the cleared state handed to the shaders. What the build, sort and resolve shaders later write there is absent from it.
- ParticleAnimateData: the layout (lifetime, velocity, isValid) and its value-initialised state, DefaultAnimateData (0, zero vector, false), come from a shader-side declaration that is not part of this model. They are assumed.
- GPU plumbing is omitted:
  - graphics state, programs, defines other than OPTIMIZE_SORT, frustum culling and the material whitelist;
  - barriers, profiling, frame dimensions and the constant-buffer fields that are floats.
- Floating point: settings, positions and lifetimes are reals, so rounding and the float-to-int conversions are not modelled.
- `deltaT` is left out of the model: the clock, the 0.3 s cap and the simulated step length. `MaxCombinedLifetime` models only the maximum it is computed from. `lastFrameTime` is left out as well.
- ParticlePass.FillSlice: the random lifetime factor is an arbitrary real in [-1, 1], since the random number generator is not modelled.
- JSON (de)serialisation and the settings file I/O are left out. SetScene takes the first listed settings file as an input, already parsed into settings by system name, or None when the folder lists none or it cannot be opened or parsed. LoadConfiguration models only the loop that copies those settings.
- ParticlePass.ParticlePass.LoadConfiguration does not model an exception inside that loop, after which the systems before it keep the loaded settings. The conversion of one entry, which starts from the default settings and normalises the wind, belongs to the input too.
- The failure path of the output file stream is left out. StoreCurrentConfiguration only computes the file name.
- The directory scan of refreshFileList is left out. Only its extension and stem rule is modelled: Extension, Stem and StoredConfigurationRoundTrip.
- ParticlePass.StoredConfigurationRoundTrip requires a configuration name with no path separator. A name containing a separator would become a path, not a file name.
- renderUI is modelled in two pieces only: the size arithmetic, SizeInMB, and the "Reset All" button (line 363), PressResetAll. The other widgets are represented only by the fields they write:
  - the per-system active flags and settings;
  - the "Enable Simulation on Reset" checkbox and the step count;
  - the "Load Config File" button, whose copy loop is LoadConfiguration;
  - the node count and OPTIMIZE_SORT.
- The node-count widget's clamp to [1024, 2^30] is not modelled. Any 32-bit dataBufferSize is accepted.
- DitherLookup.Binomial does not model the overflow of `int`. The result is the exact coefficient, which fits for the rows the table uses (n <= 31).
- DitherLookup.GenerateStratifiedLookupTable requires n <= 31. A negative n would write out of bounds, and n = 32 would overflow the cast of 2^32 to uint32_t. The resized output vectors are modelled as newly allocated arrays.
- DitherLookup.FillLookUpTable keeps the cursors as unbounded integers. At n = 31 the last step raises cursor 31 from 2^31 - 1 to 2^31, which overflows the source's `int`. That cursor is never read again, so the table is unaffected, but the overflow is not modelled.
- RasterOITLinkedList.Covers takes a pass's range as (MIN_FRAGMENT, MAX_FRAGMENT]. The comparison itself is made in the sort shader, which is not part of this model.
- ParticlePass: mTotalBufferSize and the offsets are `uint` in the source. Their 32-bit wrap-around is not modelled: the model keeps the exact sums.
- RasterOITLinkedList.h is not part of this model. The initial values of mDataBufferSize and mOptimizeSort therefore become parameters of the constructor.
- particleBufferOffset is the scene builder's per-system offset. The model takes it from the scene and does not relate it to mParticleBufferOffsets.
- The sample generator, the particle points buffer and the scene's other data are left out.

## Findings

| source | as written | input that shows it | evidently intended | confidence | as-written member | corrected member |
|---|---|---|---|---|---|---|
| Source/RenderPasses/ParticlePass/ParticlePass.cpp:200-203 | execute uploads the initial data through mpParticleAnimateDataBuffer whenever a reinitialise is pending | a scene whose particle systems all have 0 particles (setScene creates no buffer, lines 172-183), then "Reset All" (line 363) | skip the upload when there is no buffer, and still re-arm the start-up simulation | not executed | ParticlePass.ResetAllWithoutParticles | ParticlePass.ParticlePass.Execute |
