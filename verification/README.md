# e6502: caches, CPU arithmetic, float library, assembler and BASIC runtime

This project models the parts of the e6502 repository that carry state or arithmetic, and proves what they compute.

* **Cache and memory system** (`h6502/cache.c`, `h6502/memsys.c`): a configurable set-associative cache under three
  machines (von Neumann, Harvard, split-L1 modified Harvard).  Values and theory: `Bits`, `Geometry`, `CacheModel`,
  `CacheTheory`, `CacheRuns`, `CacheTraffic`, `CacheLru`, `MemModel`, `MemTheory`, `MemRuns`, `MemCoherence`, `MemSnoop`,
  `MemStale`, `MemCensus`.  The imperative program: `Cache` (one line array and one byte store, updated in place) and `MemSys`, each
  method proved equal to its value function.
* **CPU arithmetic** (`m6502/m6502.c`): `Alu` (adc, sbc, shifts, compare with explicit carry, both decimal modes) and the
  register class in `Cpu`; `Serial` holds what one turn of a shift-and-add or shift-and-subtract loop keeps, for registers
  of any width.
* **Decimal float library** (`basic/4-float/basic.asm`): `FloatCells`, `FloatOps`, `FloatRoutines` and `FloatTextOps` run
  the routines on a 256-cell zero page; `FloatSpec` gives each as a function on (sign byte, exponent byte, mantissa);
  `FloatTheory`, `FloatArithmetic` and `FloatText` relate those to real numbers and to text.
* **Assembler** (`a6502/asm.py`) against the CPU's disassembler: `AsmExpr`, `AsmEval` and `AsmPrint` (expressions),
  `Opcodes` (both programs' tables), `AsmPasses` and `Asm` (the two passes), `AsmDisasm`.
* **BASIC runtime** (`basic/1-nano/basic.asm`, `basic/2-integer/basic.asm`): `BasicCells`, `BasicNumbers`, `BasicExpr`,
  `BasicEval`, `BasicPrint` (arithmetic and the stack evaluator), `BasicProgram`, `BasicStore` (the line store in raw
  bytes, and LIST), `BasicTyping` (READLINE and typing a listing back in), `BasicLoops` (FOR and NEXT), `BasicRun` (the run
  loop), `BasicTriangle` (a loop bounded by another loop's variable).  `Text` holds what the assembler and BASIC share.

Integers are unbounded in Dafny, so every 8-, 16-, 24-, 32- and 48-bit width is written out.  Byte, exponent and carry
wrap-around are part of the model: FEXP wraps modulo 256, mantissas modulo 2^48, LRU stamps modulo 2^32.  Random
replacement and device register answers are parameters.

Where the code falls short of what its comments suggest, the code is modelled and the exact condition is proved:

* Snooping pushes out one D$ line and drops one I$ line.  With I$ lines longer than D$ lines a dirty D$ neighbour inside
  the dropped I$ line stays unseen, unless the store's own miss happens to push it out (`MemSnoop.SnoopedExact`, and a run
  in `MemStale.NeighbourRunStale`); with I$ lines no longer than D$ lines the whole I$ line agrees
  (`MemSnoop.SnoopedLineAgrees`).  A write-back store to a line I$ does not hold escapes snooping
  (`MemSnoop.StoreKeepsAgreement`, `MemStale.EscapingRunStale`).
* Clean and invalidate in the wrong order is right exactly when memory already held the byte
  (`MemCoherence.ReversedFence`); `MemStale.ReversedRunStale` is a program that goes wrong on the freshly booted machine.
* LRU needs its clock below 2^32: the wrap makes the line just touched the next victim (`CacheLru.WrapEvictsNewest`).
* PRINT_FAC prints two exponent digits, so text round trips exactly when the leading digit's exponent is in -99..99
  (`FloatText.RoundTrip`).
* Float results are right exactly when the normalized exponent fits its byte; comparison is right regardless.
* The assembler sizes an unknown operand as long in pass 1 and decides again in pass 2: the passes agree exactly when
  every line is steady (`AsmPasses.PassesAgree`), and a three-line program that is not is given (`AsmPasses.PhaseError`).
* A FOR loop whose variable leaves 16 bits goes on past its last pass, except when it started beyond its limit and the wrapped
  variable is beyond it too (`BasicLoops.ForPasses`; both kinds are shown in `BasicLoops.EdgeLoops`).
* A listing typed back in rebuilds its program exactly when every listed line fits the 255-character buffer, has its lower-case
  letters in quotes, and holds no byte READLINE acts on (`BasicTyping.ListingRebuilds`).  The last cannot happen to a typed
  program (`BasicTyping.SessionKeyable`); lower case outside quotes can, because a backspace over a quotation mark leaves the
  in-quotes flag set (`BasicTyping.RubbedQuote`).
* The header comment of `basic/1-nano/basic.asm` gives the record length as 3 plus the text without a NUL; the code stores 4
  plus the text with one, and the model follows the code.

Running `dafny verify dfyconfig.toml` checks everything.

## Model

| member | source | states |
|---|---|---|
| Bits.Pow2Test | h6502/cache.c:19 | the `v && !(v & (v-1))` test accepts exactly the powers of two |
| Bits.MaskIsMod | h6502/cache.c:68-76 | masking with 2^n - 1 is the remainder modulo 2^n |
| Bits.ShrIsDiv | h6502/cache.c:68-76 | shifting right by n divides by 2^n |
| Geometry.MaskedDecode | h6502/cache.c:68-76 | the masks and shifts of the decoder give the tag, set and offset of the arithmetic decomposition |
| Geometry.Recompose | h6502/cache.c:68-76 | tag, set and offset determine the address |
| Geometry.SameLine | h6502/cache.c:85-94 | two addresses share a line exactly when they share tag and set |
| Geometry.LineBounds | h6502/cache.c:28-30 | a line stays in the address space and inside one 256-byte page, for every accepted geometry |
| CacheImpl.GeometryAccepted | h6502/cache.c:21-45 | the chain of checks accepts a geometry exactly when it makes a whole power-of-two number of sets within the limits |
| CacheImpl.Cache.Configure | h6502/cache.c:21-61 | a refused geometry changes nothing; an accepted one starts over with an empty cache |
| CacheImpl.Cache.Defaults | h6502/memsys.c:43-53 | the default geometry and policies, empty |
| CacheImpl.Cache.Decode | h6502/cache.c:68-76 | tag, set and offset by masks and shifts |
| CacheImpl.Cache.Search | h6502/cache.c:85-94 | the one way holding the tag, or none |
| CacheImpl.Cache.Probe | h6502/cache.c:85-94 | whether the line is held, and where |
| CacheImpl.Cache.Victim | h6502/cache.c:96-112 | first empty way, else the policy's choice: oldest stamp searched from 0xffffffff, or any way for random |
| CacheImpl.Cache.WriteLine | h6502/cache.c:114-124 | a dirty line copied out byte by byte and marked clean, counters moved |
| CacheImpl.Cache.RefillLine | h6502/cache.c:126-142 | the line covering the address loaded from memory |
| CacheImpl.Cache.Miss | h6502/cache.c:144-156 | victim chosen, pushed out if dirty, refilled |
| CacheImpl.Cache.TouchLine | h6502/cache.c:158-160 | LRU restamps on use, the clock wraps at 32 bits |
| CacheImpl.Cache.ReadByte | h6502/cache.c:168-188 | the value and the whole new cache state of a read |
| CacheImpl.Cache.WriteByte | h6502/cache.c:190-229 | the whole new cache and memory state of a store, every write and allocate policy |
| CacheImpl.Cache.SweepEvery | h6502/cache.c:231-260 | clean, flush and invalidate over every way of every set |
| CacheImpl.Cache.CleanOne | h6502/cache.c:236-243 | one address's line pushed out if dirty |
| CacheImpl.Cache.SnoopOne | h6502/cache.c:262-275 | one address's line dropped and counted |
| CacheImpl.Cache.ZeroStats | h6502/cache.c:277-282 | every counter zeroed, nothing else |
| CacheTheory.ReadSpot | h6502/cache.c:168-188 | a read at one address leaves the byte any access would see at every address as it was |
| CacheTheory.WriteSpot | h6502/cache.c:190-229 | a store changes the byte seen at its own address only; where it lands by policy |
| CacheTheory.WriteBackSpot | h6502/cache.c:114-124 | a write-back changes no byte any access sees; memory gains exactly the dirty line |
| CacheTheory.HandleMissSpot | h6502/cache.c:126-156 | a miss brings in one line, pushes out first the valid line pick_victim chooses, and changes no other |
| CacheTheory.WriteElsewhere | h6502/cache.c:190-229 | outside its own line a store changes nothing but the line its write-allocating miss pushes out |
| CacheTheory.SweepAllSpot | h6502/cache.c:231-260 | each maintenance call does the same thing to every address |
| CacheRuns.CacheRefinesFlat | h6502/cache.c:114-275 | for every accepted geometry, replacement choice, write and allocate policy, any run of reads, writes, cleans, flushes and snoops returns the last value stored at each address |
| CacheRuns.CleanSettles | h6502/cache.c:231-251 | after a clean memory itself holds everything stored; after a flush the cache is empty too |
| CacheRuns.InvalidateForgets | h6502/cache.c:253-260 | after an invalidate a stored byte survives exactly where memory already had it |
| CacheTraffic.TrafficAccounted | h6502/cache.c:114-282 | over any run stall = penalty times misses, bytes in = line times fills, bytes out = line times write-backs plus single-byte stores, across statistics resets |
| CacheTraffic.LinesConserved | h6502/cache.c:114-275 | valid lines = fills less evictions, snoop drops and flush drops |
| CacheLru.VictimIsLast | h6502/cache.c:96-112 | under LRU the victim is an empty way or the last entry of the recency list |
| CacheLru.StepTracks | h6502/cache.c:96-282 | loads, store hits and allocating stores move the tag to the front of its set's recency list; a store around the cache, a clean and a statistics reset leave the lists alone; a flush empties them; a snoop cuts its list to the resident part and takes the tag out |
| CacheLru.LruIsRecency | h6502/cache.c:96-282 | over any run of all these calls within the clock, with or without write-allocate, the resident lines of each set are the first `ways` entries of its recency list |
| CacheLru.RecencyFromCold | h6502/cache.c:21-282 | the same from a freshly configured cache, with the lists the history alone makes |
| CacheLru.MoreWaysNeverMissMore | h6502/cache.c:96-282 | at equal sets and line size write-allocating caches with more ways hold a superset and miss no more, on any trace of accesses and maintenance calls |
| CacheLru.MoreWaysFromCold | h6502/cache.c:21-282 | the same from two freshly configured caches |
| CacheLru.WrapEvictsNewest | h6502/cache.c:96-112 | at the 32-bit wrap a full set evicts the line just touched |
| MemSysImpl.MemSys.Init | h6502/memsys.c:55-72 | three empty caches, caches and snooping switches, zero counters |
| MemSysImpl.MemSys.ReadBus | h6502/memsys.c:150-180 | routing by access kind and mode, device page past every cache, counters |
| MemSysImpl.MemSys.WriteBus | h6502/memsys.c:182-244 | the same for stores, with the coherence decision before and the snoop after |
| MemSysImpl.MemSys.StoreByte | h6502/memsys.c:200-244 | a store's routing, stale-store count and snoop |
| MemSysImpl.MemSys.CleanData | h6502/memsys.c:253-256 | every dirty data and unified line pushed out |
| MemSysImpl.MemSys.Flush | h6502/memsys.c:247-251 | invalidation of the chosen sides |
| MemSysImpl.MemSys.SetMode | h6502/memsys.c:78-86 | flush everything, then repoint the data space |
| MemSysImpl.MemSys.ResetStats | h6502/memsys.c:258-266 | counters of caches and bus zeroed |
| MemSysImpl.MemSys.WriteDevice | h6502/hmon.c:93-103 | the clean, invalidate and reset registers |
| MemRuns.StepRefines | h6502/memsys.c:78-266 | every bus event keeps the invariant (idle caches empty, I$ never dirty, device page never cached) and matches flat memory |
| MemRuns.MachineRefinesMemory | h6502/memsys.c:78-266 | over any run with mode changes no store is lost and every read that cannot be stale returns the last byte stored |
| MemRuns.SetModeKeeps | h6502/memsys.c:78-86 | a mode change empties every cache and keeps both memories' contents |
| MemRuns.MsReadValue | h6502/memsys.c:150-180 | the byte a read returns in each mode |
| MemRuns.HarvardCodeIsFixed | h6502/memsys.c:91-112 | in Harvard mode no run of CPU events changes what any fetch returns |
| MemCoherence.QuietAgree | h6502/memsys.c:150-180 | loads and fetches never break agreement of the two sides |
| MemCoherence.InvalidateSuffices | h6502/memsys.c:247-251 | when data side and memory agree, invalidating I$ makes every fetch before the next store return the last byte stored |
| MemCoherence.Fence | h6502/memsys.c:247-256 | clean D$, any loads and fetches, invalidate I$: every fetch before the next store is right, from any reachable state |
| MemCoherence.ThroughNeverDirty | h6502/cache.c:190-229 | a write-through data cache is never dirty |
| MemCoherence.ThroughFence | h6502/memsys.c:247-251 | with a write-through data cache the invalidate alone is a fence |
| MemCoherence.ReversedFence | h6502/memsys.c:247-256 | the operations reversed with a fetch between: the later fetch is right exactly when memory already held the byte |
| MemCoherence.LateClean | h6502/memsys.c:247-256 | the operations reversed with any loads and fetches between: the later fetch is wrong exactly when the line, refilled before the clean, is still in I$ with another byte |
| MemSnoop.SnoopedStore | h6502/memsys.c:221-243 | a store to a line I$ holds drops that line and leaves the stored byte's D$ line agreeing, and what decides every other byte |
| MemSnoop.SnoopedLineAgrees | h6502/memsys.c:221-243 | with I$ lines no longer than D$ lines the whole I$ line agrees afterwards, whatever was dirty or stale |
| MemSnoop.SnoopedExact | h6502/memsys.c:221-243 | after any snooped store a byte of the I$ line agrees exactly when it shares the stored-to D$ line, or D$ and memory agreed on it before, or the store's own allocating miss pushes its D$ line out |
| MemSnoop.StoreKeepsAgreement | h6502/memsys.c:182-244 | a store breaks agreement nowhere except at its own address when it stays in D$ unseen by I$, and there exactly when it changes the byte |
| MemSnoop.AgreementSurvives | h6502/memsys.c:150-244 | agreement survives any run of CPU accesses without such an escape, and a fetch then returns the last byte stored |
| MemStale.ReversedRunStale | h6502/hmon.c:93-103 | from the booted machine: store, invalidate, fetch, clean; every later fetch returns the byte from before the store although memory has the new one |
| MemStale.EscapingRunStale | h6502/memsys.c:182-244 | from the booted machine with snooping on: a store escapes and the next fetch returns the old byte |
| MemStale.NeighbourRunStale | h6502/memsys.c:221-243 | from the booted machine with snooping on and long I$ lines: a snooped store leaves its dirty neighbour stale |
| MemStale.DefaultsGoStale | h6502/memsys.c:43-72 | with the default geometry the first two happen at every address off the device page |
| MemCensus.CensusBalances | h6502/memsys.c:159-266 | the counts by kind sum to code plus data, which equals uncached plus cache accesses, across resets and mode changes |
| CpuImpl.Cpu.Adc | m6502/m6502.c:160-176 | accumulator and flags of ADC, binary and decimal |
| CpuImpl.Cpu.Sbc | m6502/m6502.c:178-193 | accumulator and flags of SBC, binary and decimal |
| CpuImpl.Cpu.Cmp | m6502/m6502.c:242-246 | the flags of a comparison |
| CpuImpl.Cpu.Rol | m6502/m6502.c:205-215 | shift and rotate left through the carry |
| CpuImpl.Cpu.Ror | m6502/m6502.c:209-219 | shift and rotate right through the carry |
| Alu.AdcChainSum | m6502/m6502.c:160-176 | binary ADC over any number of bytes: the sum modulo 256^n, its carry-out, and V exactly on signed overflow |
| Alu.SbcChainDifference | m6502/m6502.c:178-193 | binary SBC over any number of bytes: the difference modulo 256^n, carry as no borrow, V exactly on signed overflow |
| Alu.AdcChainDecimal | m6502/m6502.c:160-176 | decimal ADC on BCD operands: BCD digits, the sum modulo 100^n and its carry |
| Alu.SbcChainDecimal | m6502/m6502.c:178-193 | decimal SBC on BCD operands: BCD digits, the difference modulo 100^n and its borrow |
| FloatCells.Mul10 | basic/4-float/basic.asm:3576-3616 | FM times ten modulo 2^48, by shifts and one addition |
| FloatCells.Div10 | basic/4-float/basic.asm:3619-3639 | quotient and remainder by ten from 48 shift-and-subtract turns |
| FloatCells.PushDigit | basic/4-float/basic.asm:3642-3658 | FM times ten plus a digit modulo 2^48, carry rippled |
| FloatCells.Ge1e7 | basic/4-float/basic.asm:3672-3691 | carry exactly when FM is at least 10^7 |
| FloatCells.Lt1e6 | basic/4-float/basic.asm:3694-3715 | carry exactly when FM is below 10^6 |
| FloatCells.Cmp6 | basic/4-float/basic.asm:4111-4129 | unsigned 48-bit comparison from the top byte down |
| FloatCells.Add6 | basic/4-float/basic.asm:4069-4089 | 48-bit addition with carry-out |
| FloatCells.Sub6 | basic/4-float/basic.asm:4090-4110 | 48-bit subtraction with borrow |
| FloatCells.Multiply | basic/4-float/basic.asm:4204-4231 | the mantissa product modulo 2^48 from 24 shift-and-add turns |
| FloatCells.Divide | basic/4-float/basic.asm:4259-4305 | 48-by-24-bit quotient and remainder from 48 turns |
| FloatOps.Normalize | basic/4-float/basic.asm:3718-3735 | FNORM in place |
| FloatOps.Swap | basic/4-float/basic.asm:4048-4058 | FAC and ARG exchanged |
| FloatOps.Negate | basic/4-float/basic.asm:4060-4066 | sign flipped unless the mantissa is zero |
| FloatOps.AddCells | basic/4-float/basic.asm:4154-4197 | FADD in place: signed exponent order, alignment by division, magnitudes added or subtracted |
| FloatOps.SubCells | basic/4-float/basic.asm:4200-4201 | FSUB in place |
| FloatOps.MulCells | basic/4-float/basic.asm:4234-4256 | FMUL in place |
| FloatOps.DivCells | basic/4-float/basic.asm:4308-4347 | FDIV in place, for a divisor mantissa of 24 bits |
| FloatTheory.NormIs | basic/4-float/basic.asm:3718-3735 | FNORM moves the point by a determined number of places, to seven digits |
| FloatTheory.NormTruncates | basic/4-float/basic.asm:3718-3735 | normalizing gives the leading seven digits exactly when the moved exponent fits its byte |
| FloatArithmetic.MulTruncates | basic/4-float/basic.asm:4234-4256 | on normal operands the product's sign and its leading seven digits, exactly when the exponent fits |
| FloatArithmetic.DivTruncates | basic/4-float/basic.asm:4308-4347 | on normal operands the quotient's sign and its leading seven digits, exactly when the exponent fits |
| FloatArithmetic.AddTruncates | basic/4-float/basic.asm:4154-4197 | same sign: the sum's leading seven digits, exactly when no eighth digit appears or the exponent can be raised |
| FloatArithmetic.AddOpposite | basic/4-float/basic.asm:4154-4197 | opposite signs: zero exactly on cancellation; the true sign; a magnitude at least the true one and less than one unit of the larger exponent above, exact for equal exponents, exactly when the exponent fits |
| FloatArithmetic.CompareExact | basic/4-float/basic.asm:2503-2517 | the sign and zero test on FSUB's result order any two operands exactly, for all exponent bytes |
| FloatRoutines.CompareCells | basic/4-float/basic.asm:2503-2552 | all six comparison operators of ev_cmp answer as the real numbers do |
| FloatArithmetic.ToIntTruncates | basic/4-float/basic.asm:4397-4429 | FAC_TO_INT truncates toward zero modulo 2^16, for every mantissa and exponent byte |
| FloatArithmetic.FromIntExact | basic/4-float/basic.asm:3738-3766 | SINT_TO_FAC is exact |
| FloatArithmetic.IntRoundTrip | basic/4-float/basic.asm:3753-3766 | SINT_TO_FAC then FAC_TO_INT gives every 16-bit word back |
| FloatRoutines.IntToFac | basic/4-float/basic.asm:3738-3750 | AR as a normalized positive float |
| FloatRoutines.SintToFac | basic/4-float/basic.asm:3753-3766 | AR as a signed float, in place |
| FloatRoutines.FacToInt | basic/4-float/basic.asm:4397-4429 | FAC to a word in AR, in place |
| FloatRoutines.PackedExact | basic/4-float/basic.asm:4369-4394 | five packed bytes give a float back exactly when its mantissa is below 2^24 |
| FloatRoutines.StoreNum | basic/4-float/basic.asm:4384-4394 | FAC packed into a slot, other slots untouched |
| FloatRoutines.LoadNum | basic/4-float/basic.asm:4369-4383 | a slot unpacked |
| FloatRoutines.Push | basic/4-float/basic.asm:4445-4462 | FAC becomes the top entry, the others stay |
| FloatRoutines.Pop | basic/4-float/basic.asm:4463-4485 | ARG becomes the entry pushed last |
| FloatTextOps.ParseFloat | basic/4-float/basic.asm:3769-3853 | PARSE_FLOAT in place: mantissa, fraction and exponent scanned, then normalized |
| FloatTextOps.ParseNumber | basic/4-float/basic.asm:785-793 | a literal with an optional minus sign |
| FloatTextOps.ExtractDigits | basic/4-float/basic.asm:3873-3877 | the seven digits by repeated division, last one first |
| FloatTextOps.PrintFac | basic/4-float/basic.asm:3864-4027 | what PRINT_FAC prints: sign, then fixed, small-fraction or scientific layout |
| FloatText.LiteralTruncates | basic/4-float/basic.asm:3769-3853 | a literal, with or without an exponent of any size, whose digits fit 48 bits becomes its leading seven digits, exactly when the whole-number exponent fits |
| FloatText.MagnitudeRoundTrip | basic/4-float/basic.asm:3769-4027 | parsing a printed magnitude gives it back in all three layouts, exactly for leading exponents -99..99 |
| FloatText.RoundTrip | basic/4-float/basic.asm:3769-4027 | a printed number read back has the same sign, exponent and mantissa exactly when it is zero or its leading exponent lies in -99..99 |
| AsmEval.Evaluator.Primary | a6502/asm.py:132-207 | a primary and the cursor behind it, or the first undefined symbol or error |
| AsmEval.Evaluator.Multiplicative | a6502/asm.py:209-224 | products, floor division and modulo from left to right |
| AsmEval.Evaluator.Additive | a6502/asm.py:226-233 | sums and differences from left to right |
| AsmEval.Evaluate | a6502/asm.py:106-240 | the value of a whole text, or undefined, or an error |
| AsmExpr.EvalSettles | a6502/asm.py:194-205 | an expression that evaluated keeps its outcome when symbols are added |
| AsmPrint.EvalPrinted | a6502/asm.py:106-240 | the printed text of any tree, its numbers in decimal, `$`, `0x` or `%` form or as characters, evaluates, all of it consumed, to the tree's meaning: value, undefined symbol or zero divisor |
| Opcodes.OpcodeReadsBack | a6502/asm.py:86-88 | the opcode picked for a mnemonic and mode reads back as them |
| Opcodes.LastWins | a6502/asm.py:86-88 | several opcodes for one pair: the last is used, so nop is $FA and sbc immediate is $EB |
| Opcodes.BuildTable | a6502/asm.py:86-88 | the dictionary the loop builds |
| Asm.SizeOf | a6502/asm.py:553-570 | the pass-1 size of an instruction |
| Asm.Line1 | a6502/asm.py:398-437 | one line of pass 1 |
| Asm.Line2 | a6502/asm.py:439-541 | one line of pass 2 |
| Asm.Assemble | a6502/asm.py:372-545 | both passes over all lines, or an error |
| AsmPasses.InsSize | a6502/asm.py:474-570 | pass-1 size and emitted length differ exactly for an unknown operand with a short form that ends up in page zero |
| AsmPasses.PassesAgree | a6502/asm.py:398-570 | without duplicate symbols the passes agree on every address exactly when every line is steady |
| AsmPasses.LabelsLand | a6502/asm.py:398-570 | then every label is the address where pass 2 emits what follows it |
| AsmPasses.PhaseError | a6502/asm.py:553-570 | a three-line program whose label lands elsewhere |
| AsmDisasm.OneBack | m6502/m6502.c:488-528 | one encoded instruction disassembles to its mnemonic, mode and operand, at its own length |
| AsmDisasm.SweepReadsBack | m6502/m6502.c:448-528 | a sweep over encoded instructions recovers every mnemonic, mode, operand and branch target and ends behind the bytes |
| AsmDisasm.ProgramReadsBack | a6502/asm.py:439-541 | the same for the instruction lines of a whole assembled program |
| BasicCells.PopMul | basic/1-nano/basic.asm:1229-1258 | the product modulo 2^16 from sixteen shift-and-add turns |
| BasicCells.PopDiv | basic/1-nano/basic.asm:1267-1351 | signed division truncated toward zero, zero for a zero divisor |
| BasicCells.PopAdd | basic/1-nano/basic.asm:1207-1216 | sum modulo 2^16 |
| BasicCells.PopSub | basic/1-nano/basic.asm:1218-1227 | difference modulo 2^16 |
| BasicCells.Push | basic/1-nano/basic.asm:1184-1193 | AR becomes the top of the value stack |
| BasicCells.Pop | basic/1-nano/basic.asm:1195-1205 | the top of the value stack to AR+2 |
| BasicEval.ParseDec | basic/1-nano/basic.asm:1357-1408 | the decimal number at the cursor modulo 2^16 |
| BasicEval.Atom | basic/1-nano/basic.asm:1125-1180 | numbers, variables and parentheses, with the nesting guard |
| BasicEval.Additive | basic/1-nano/basic.asm:1063-1084 | sums with left operands on the stack |
| BasicEval.Evaluate | basic/1-nano/basic.asm:909-1060 | EVAL_EXPR: the value, the cursor, and the stack and all other cells as before |
| BasicPrint.EvalPrinted | basic/1-nano/basic.asm:909-1408 | evaluating the text of any tree with at most seven nested parentheses gives its 16-bit meaning and needs as many stack entries as it has operands pending |
| BasicNumbers.Div10 | basic/1-nano/basic.asm:1460-1499 | bit-serial division by ten |
| BasicNumbers.PrintU16 | basic/1-nano/basic.asm:1415-1439 | the decimal digits of AR without leading zeros |
| BasicStore.Store.FindLine | basic/1-nano/basic.asm:717-761 | the record with the number, or where it would go |
| BasicStore.Store.ShiftRight | basic/1-nano/basic.asm:766-837 | the bytes above the cursor moved up unchanged |
| BasicStore.Store.ShiftLeft | basic/1-nano/basic.asm:842-901 | the bytes above the gap moved down unchanged |
| BasicStore.Store.StoreLine | basic/1-nano/basic.asm:578-711 | the stored bytes after an edit are the edited program's, and when the too-long message is printed |
| BasicProgram.EditedGood | basic/1-nano/basic.asm:578-711 | every edit leaves well-formed records, strictly ascending, within $0300..$0800 |
| BasicProgram.EditRefinesMap | basic/1-nano/basic.asm:578-711 | blank deletes, an oversize new line changes nothing, an oversize replacement leaves the old line deleted, all else is stored |
| BasicProgram.EditsRefineMap | basic/1-nano/basic.asm:578-901 | after any sequence of edits the program is the edited finite map in ascending order |
| BasicStore.Store.List | basic/1-nano/basic.asm:359-412 | LIST walks the stored bytes by their length bytes to PEND and prints the program's listing |
| BasicTyping.ReadLine | basic/1-nano/basic.asm:1555-1602 | READLINE's buffer: line ends, rubouts, the in-quotes flag, case folding, 255 characters |
| BasicTyping.SessionKeyable | basic/1-nano/basic.asm:122-151 | no typing puts a byte READLINE acts on into a stored text |
| BasicTyping.LineTyped | basic/1-nano/basic.asm:359-711 | a listed line typed back in is stored under its number with its text folded outside quotes, as far as the buffer holds it |
| BasicTyping.ListingRebuilds | basic/1-nano/basic.asm:359-711 | typing what LIST prints into an empty store rebuilds the program's bytes exactly when every line fits 255 characters, has its lower-case letters in quotes and holds no byte READLINE acts on |
| BasicTyping.RubbedQuote | basic/1-nano/basic.asm:1555-1602 | seven keys that store a line whose listing stores another one |
| BasicLoops.ForCells | basic/2-integer/basic.asm:801-883 | FOR's frame and variable, and the error at 27 frames |
| BasicLoops.NextCells | basic/2-integer/basic.asm:886-976 | NEXT on the frame page: inner frames abandoned, variable stepped, resumed or finished |
| BasicLoops.SignedLessIs | basic/2-integer/basic.asm:937-957 | the overflow-corrected sign of the difference is the signed order |
| BasicLoops.ForPasses | basic/2-integer/basic.asm:922-976 | with a non-zero step every NEXT before pass max(1, floor((limit - start) / step) + 1) resumes, and that one finishes exactly when the variable stays in 16 bits, or the loop started beyond its limit and the wrapped variable is beyond it too |
| BasicLoops.RunRestores | basic/2-integer/basic.asm:801-976 | a run in which every loop entered ends, with start, limit and step as evaluated on entry and within the depth the guard admits: each loop makes its exact passes, the frame stack is restored and other variables are left alone |
| BasicLoops.RunEnds | basic/2-integer/basic.asm:801-976 | a run of nested loops comes to its end exactly when every loop it enters does |
| BasicRun.ItemRuns | basic/2-integer/basic.asm:418-463 | the run loop, with its pointers and resume flags, executes loops, assignments and nested subroutine calls, laid out over lines in any way, as the structured run does; it goes on behind them with the GOSUB stack as before |
| BasicRun.CallRuns | basic/2-integer/basic.asm:751-798 | GOSUB, the subroutine, and RETURN to behind the GOSUB, in mid-line or not |
| BasicRun.LoopsRun | basic/2-integer/basic.asm:418-463 | in the run loop nested loops that end on this run make their exact passes, NEXT landing behind its FOR each time |
| BasicRun.ProgramRuns | basic/2-integer/basic.asm:404-470 | RUN of a program whose loops end on this run ends, with both stacks empty and the variables as computed |
| BasicTriangle.TriangleRuns | basic/2-integer/basic.asm:801-976 | FOR I=1 TO n around FOR J=1 TO I around K=K+1 ends exactly when n is not 32767, and K has grown by n(n+1)/2 modulo 2^16 |
| BasicTriangle.TriangleInText | basic/2-integer/basic.asm:418-463 | the same on the run loop, wherever and however the text is laid out |

## Left out

- Trace output, cache events, hit-rate percentages, warnings and the list of stored-to code addresses: reporting only.
- MemSysImpl.MemSys.ReadBus: does not model the trace and warning output around the access.
- MemSysImpl.MemSys.WriteBus: does not model the trace output, the count of stored-to code or the halt register, which stops the host loop.
- MemSysImpl.MemSys.StoreByte: does not model the list of stored-to code addresses or the cap on warnings.
- MemSysImpl.MemSys.ResetStats: does not model the stored-to code count or the cap on warnings.
- MemSysImpl.MemSys.WriteDevice: does not model the cycle counter reset or the halt flag.
- MemCoherence.ReversedFence: has one fetch between the invalidate and the clean; MemCoherence.LateClean has any reads there.
- CacheImpl.Cache.Configure: does not model a failing allocation; reconfiguring a cache in use drops its dirty lines and is kept out of the refinement runs.
- Statistics as 64-bit counters: they are unbounded here.
- MemSnoop.SnoopedLineAgrees: assumes I$ lines no longer than D$ lines, because the whole-line claim fails otherwise, as MemSnoop.SnoopedExact shows.
- Pokes, file loading and live configuration changes from the monitor: they bypass the caches.
- The CPU's instruction dispatch, addressing modes, interrupts, cycle counts and undocumented opcodes beyond the tables.
- FloatOps.DivCells: asks for a divisor mantissa below 2^24, which every stored or normalized float has.
- FloatRoutines.Push: the eight entries the value stack has; deeper pushes run past it.
- The float library's parenthesis evaluator, arrays, strings, RND and keyword matching.
- FloatTextOps.PrintFac: returns the characters instead of sending each to the console or string buffer.
- AsmEval.Evaluate: starts from a text already stripped of surrounding white space, in ASCII.
- AsmEval.Evaluator.Primary: a `0x` without digits, which raises another Python exception, counts as an error.
- AsmEval.Evaluator.Multiplicative: a modulo by zero, which raises another Python exception, counts as an error.
- Lexing of source lines and operand classification by regular expressions: lines arrive parsed.
- Asm.Assemble: stops at the memory map; writing the file between lowest and highest address is not modelled.
- Opcodes.OpcodeReadsBack: the numeric mode codes of the disassembler are read as the modes they number, and mnemonics without their case.
- AsmDisasm.OneBack: gives mnemonic, mode and operand value, not the formatted text.
- BASIC statement dispatch, keyword reading, IF, GOTO and the break key.
- BasicCells.Push: the eight entries the value stack has; a ninth is stored over the keyword buffer.
- BasicStore.Store.StoreLine: starts from the parsed number and the text behind it; pointers are addresses rather than byte pairs.
- BasicStore.Store.FindLine: keeps its pointer as an address rather than a byte pair.
- BasicStore.Store.ShiftRight: keeps its pointers and count as whole numbers rather than byte pairs.
- BasicStore.Store.ShiftLeft: keeps its pointers and count as whole numbers rather than byte pairs.
- BasicTyping.ListingRebuilds: a typed line that does not begin with a digit leaves the program alone; the statements it may hold, NEW among them, are not executed.
- BasicEval.Evaluate: asks for room on the eight-entry value stack; beyond it the pushes overwrite the keyword buffer.
- BasicLoops.ForCells: starts from the evaluated start, limit and step.
- BasicLoops.RunRestores: asks that no loop writes its own variable in its body, which would change its passes.
- BasicRun.ItemRuns: the statements are parsed, with expressions as functions of the variables; NEXT names its variable and GOSUB its line; IF, GOTO and the statements that only print or read are left out.
