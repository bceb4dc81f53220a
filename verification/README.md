# Barracuda: the encoders and the kernel/daemon connector

Barracuda moves the RAID check-symbol computation of the Linux kernel into a userspace daemon.  This project models
its two hard parts and proves what they promise.

**The encoders.**  The P/Q encoder packs 4 or 8 bytes into a machine word and runs a Horner loop over the disks; a second
one gives each thread a chunk of the buffers; a third computes four check symbols from a power matrix and log/antilog
tables; a fourth cuts the buffers into blocks for a CUDA card.  The proofs go from the word operations to byte lanes,
from the Horner loop to the power sum over the field with 256 elements (polynomial 0x11d), and from there to which lost
disks the check symbols recover.  For P and Q the number of disks up to which this holds is exact
(`Erasure.CorrectsTwoExactly`).  For the multi-failure encoder there are two answers: one for the product that its comment
promises (`Erasure.CorrectsThreeExactly`, `FourErasures.CorrectsFourExactly`), and a much smaller one for the symbols that
its code writes (`WrittenErasures`).

**The connector.**  A call of `gen_syndrome` in the kernel is handed to the daemon by one of three protocols (a procfs flag,
an ioctl flag with a token semaphore, two netlink receives), behind a configuration gate and a mutex.  The module,
the daemon, any number of callers and any number of configuration writes form one state machine whose steps are
single accesses to the shared variables.  For all its runs: every call is stored, taken up, finished and returned exactly
once and in this order; when it returns, the caller's check disks hold P and Q of the caller's data; and it returns
after a bounded number of steps of its own and the daemon's, under every schedule.

Both parts meet in `Runs.CallTheorem` and `Runs.ResultProtects`; `ServedRounds.ServeAsModelled` ties the step that serves a
container in those runs to the word loop on the real buffers.

## Layout

| file | content |
|---|---|
| GF256, Tables, Logarithms | the field, the literal tables, discrete logarithms |
| MultGf | the table product as written, the field product, the generation of the tables |
| Words, Syndrome | word lanes; Horner loop, power sum, parity |
| Encoder, Smp | the P/Q encoders, sequential and threaded, on arrays |
| Erasure, Recovery | which lost disks the check symbols determine; recovery, on columns and in place |
| MultiRs, MultiSymbols | the multi-failure encoder; when its symbols are the documented ones |
| FourErasures, WrittenErasures | four lost disks by the documented symbols; two, three and four by those that are written |
| CudaTiling | the host's blocks and the P half of the kernel |
| Rendezvous, Mailbox | the three protocols, their invariants and simulations; the netlink packets over runs |
| KernelModule | the module's variables and callbacks as a class, and a whole call on it |
| Marshal, ServedRounds | copying and mapping of buffers, one round of the daemon; its agreement with the state machine |
| System, Service, Safety, CallerSteps, EndToEnd, Runs, Progress | the state machine, its invariant, its runs, progress |
| Configuration, StuckConfiguration | what a configuration write does, alone and among others; conf_mutex left down |
| SampleRuns | runs that exist, steps that are always possible |

Functions that only compute (`Rendezvous.CallUsp`, `System.Serve`, `MultGf.TableProduct`, ...) are described by the members
in the table that are proved about them.

## What the code does, where its comments say otherwise

- The comment on `mult_gf` (barracuda_deamon/multrs/raid6multrs.cu:213-220) promises a field product.  The sum of the
  logarithms is kept in an `unsigned char`, so sums above 255 lose 256 instead of 255 and the product comes out divided
  by two.  `MultGf.TableProductExact` gives the exact condition, `MultiSymbols.RowExactly` its effect: only the first check
  symbol is the field's for every number of disks.
- The literal `gflog` has 255 entries, so index 255 is outside.  The encoder's own matrix entry reaches 255 at the seventh
  data disk (3 to the power 7).  The byte read there is a parameter, `stray`, in everything about `mult_gf` as written;
  `MultiSymbols.ColumnInTableExactly` says when it does not matter.
- The encoder is called multi failure correcting (raid6multrs.cu:153) and writes four symbols.  With the halved products
  they recover any two lost disks as long as the encoder stays in its tables (`WrittenErasures.TwoLostInTables`), and rows 1, 2
  and 4 alone do exactly up to eleven data disks (`WrittenErasures.WrittenTripleCorrectsTwoExactly`).  Three or four lost
  disks they recover only where there are no more than two (`WrittenErasures.WrittenCorrectsThreeExactly`,
  `WrittenErasures.WrittenCorrectsFourExactly`), and the first two symbols alone do not recover two disks at all
  (`WrittenErasures.WrittenPairCorrectsTwoExactly`).
  All this is for data without the byte 255.  With it, and whatever lies behind the table, not even one lost disk is
  recovered for sure: 255 is taken for some other byte there (`WrittenErasures.ProductOf255`,
  `WrittenErasures.AnyColumnOneLost`).
- Even with the product that the comment on `mult_gf` promises the matrix is not a Vandermonde matrix of four consecutive
  powers: three lost disks would be recovered up to 255 data disks (`Erasure.CorrectsThreeExactly`), four up to seven and
  not from eight on (`FourErasures.CorrectsFourExactly`).
- The threaded encoder may write past the end of the check disks when the chunks are not whole words: three threads on
  4096 bytes reach offset 4098 on a 64-bit machine (`Smp.OverrunOfThree`), five reach 4100 there and 4096 on a 32-bit one
  (`Smp.OverrunOfFive`, `Smp.NoSlackExactly`).
- A rejected or repeated configuration write returns with `conf_mutex` down (barracuda_kernel_module/raid6cuda.c:209-219,
  `Configuration.EarlyReturnHolds`), after which no configuration can be written; if there was none before, the gate never
  opens (`StuckConfiguration.NobodyWritesAgain`, `StuckConfiguration.NobodyPassesEver`).  One rejected write to the module
  just loaded is enough (`SampleRuns.ShutForGood`).
- With full rounds and a short rest the CUDA host loop writes the rest to a wrong offset and leaves the tail of the check
  disks unwritten (`CudaTiling.AlwaysRightExactly`); the first such size is one block pair and one byte.

## Assumptions of the connector

One daemon, whose pid is the configured one and which serves the configured transport; no signal interrupts a wait;
allocations and copies succeed; `keep_going` stays 1.  A request has at least one data disk and at most the 255 pointers for which
the daemon allocates room (barracuda_deamon/userspace_driver.cu:134), a size in whole words of the machine (four or eight bytes) below 2^31, and check disks
that are no other disk.  Other parties may write any memory at any time except the buffers of a call in progress.  `wake_up` is the
enabling of the waiter's step.

## Model

| member | source | states |
|---|---|---|
| GF256.MulAssoc | barracuda_deamon/multrs/raid6multrs.cu:213-222 | the documented field product is associative; with MulComm and MulAddRight the ring laws the codes rest on |
| GF256.MulComm | barracuda_deamon/multrs/raid6multrs.cu:213-222 | it is commutative |
| GF256.MulAddRight | barracuda_deamon/multrs/raid6multrs.cu:213-222 | it distributes over exclusive or |
| Tables.GfIlogIsExp | barracuda_deamon/multrs/raid6multrs.cu:105-121 | all 255 literal antilogs are the powers of two of the field |
| Logarithms.LiteralLogarithm | barracuda_deamon/multrs/raid6multrs.cu:88-103 | two to the literal log of a byte in 1..254 is that byte: every literal entry is its discrete logarithm |
| Logarithms.ExpLog | barracuda_deamon/multrs/raid6multrs.cu:88-121 | two to the logarithm of a non-zero byte is that byte |
| Logarithms.LogExp | barracuda_deamon/multrs/raid6multrs.cu:88-121 | and conversely for every exponent below 255 |
| Logarithms.ExpEqual | barracuda_deamon/multrs/raid6multrs.cu:105-121 | two has order exactly 255: powers are equal iff the exponents agree modulo 255 |
| Logarithms.NoZeroDivisors | barracuda_deamon/multrs/raid6multrs.cu:213-222 | a product is zero iff a factor is |
| Logarithms.MulInverse | barracuda_kernel_module/raid6.h:103-107 | every non-zero byte has an inverse, as the declared inverse table presupposes |
| MultGf.TableProductMeaning | barracuda_deamon/multrs/raid6multrs.cu:222-234 | mult_gf as written: the field product up to a log sum of 255, and half of it beyond |
| MultGf.TableProductExact | barracuda_deamon/multrs/raid6multrs.cu:222-234 | mult_gf is the field product iff an operand is 0 or the log sum is at most 255 |
| MultGf.TableProductAlways | barracuda_deamon/multrs/raid6multrs.cu:222-234 | mult_gf on every pair of bytes and with every byte behind the table, which is read as the log of 255 |
| MultGf.StrayRead | barracuda_deamon/multrs/raid6multrs.cu:88-103 | the result is independent of the byte behind the table iff no log is read at 255 |
| MultGf.WideSum | barracuda_deamon/multrs/raid6multrs.cu:222-234 | with a wide sum reduced by 255 and a complete table the lookups give the field product of all pairs of bytes |
| MultGf.SetupTables | prototypes/multi_rs_cuda/rs_encoder.cu:731-750 | the generating loop stores 2^k at k, and at every non-zero byte its logarithm |
| MultGf.GeneratedInverse | prototypes/multi_rs_cuda/rs_encoder.cu:742-750 | the generated tables are mutually inverse on 1..255 and 0..254, so every non-zero byte is visited once |
| MultGf.GeneratedIsLiteral | prototypes/multi_rs_cuda/rs_encoder.cu:742-750 | they agree with all literal antilogs and with the literal logs at 1..254; the missing entry is 175 |
| Words.HornerByte | barracuda_deamon/vanilla/raid6vanilla.cu:81-132 | one turn with SHLBYTE and MASK acts on each byte lane alone: double and add, no carry or borrow, 32 and 64 bits |
| Words.LoadByte | global_def.h:61-73 | a word loaded from the buffer holds its bytes as lanes |
| Syndrome.HornerIsPowerSum | barracuda_deamon/vanilla/raid6vanilla.cu:81-94 | the loop from the highest disk down is the sum of r^z D[z] |
| Syndrome.HornerIsPQ | barracuda_deamon/vanilla/raid6vanilla.cu:81-94 | with r = 1 it is the xor of all data bytes, with r = 2 the sum of 2^z D[z] |
| Syndrome.PowerSumLinear | barracuda_deamon/vanilla/raid6vanilla.cu:81-94 | the check bytes are linear in the data |
| Encoder.ComputeWord | barracuda_deamon/vanilla/raid6vanilla.cu:82-91 | the inner loop leaves the P and Q bytes of the offsets of one machine word, eight if it is wide and else four, in its registers |
| Encoder.VanillaGenSyndrome | barracuda_deamon/vanilla/raid6vanilla.cu:69-95 | P and Q of every offset up to the last word, all else in the buffers unchanged |
| Smp.StepWorker | barracuda_deamon/smp/raid6smp.cu:141-186 | a step of a thread (a word computed, stored to P, or stored to Q) never spoils a byte that is right |
| Smp.SmpGenSyndrome | barracuda_deamon/smp/raid6smp.cu:85-125 | for both machine words, every thread count and every interleaving the call ends with the sequential encoder's P and Q up to the reach of the threads, the data and all beyond unchanged |
| Smp.NoSlackExactly | barracuda_deamon/smp/raid6smp.cu:161-165 | the threads stay within the buffers iff the last chunk is a whole number of machine words |
| Smp.OverrunOfThree | barracuda_deamon/smp/raid6smp.cu:161-165 | three threads on 4096 bytes of a 64-bit machine write two bytes past the end |
| Smp.OverrunOfFive | barracuda_deamon/smp/raid6smp.cu:161-165 | five threads on 4096 bytes write up to 4100 with the 64-bit word, and up to 4096 with the 32-bit one |
| Smp.WholeChunks | barracuda_deamon/smp/raid6smp.cu:161-165 | if the bytes of the machine word times the thread count divide the size, they stay in bounds and apart |
| Smp.NeighboursOverlap | barracuda_deamon/smp/raid6smp.cu:161-165 | if the chunk is not whole machine words, neighbours write common bytes |
| Erasure.TwoDataLost | barracuda_deamon/vanilla/raid6vanilla.cu:69-95 | P, Q and all but two data disks determine the stripe, up to 255 data disks |
| Erasure.OneDataAndQLost | barracuda_deamon/vanilla/raid6vanilla.cu:69-95 | P alone determines one lost disk, for any number |
| Erasure.OneDataAndPLost | barracuda_deamon/vanilla/raid6vanilla.cu:69-95 | so does Q |
| Erasure.CorrectsTwoExactly | barracuda_deamon/vanilla/raid6vanilla.cu:69-95 | two lost data disks are recoverable iff there are at most 255 |
| Erasure.StripesEqual | barracuda_deamon/vanilla/raid6vanilla.cu:69-95 | whole stripes with equal P and Q that differ on two disks at most are equal |
| Recovery.TwoDataRecov | barracuda_kernel_module/raid6.h:110 | in place on the buffers of a stripe: two data disks are rebuilt from P and Q, nothing else changes |
| Recovery.DataPRecov | barracuda_kernel_module/raid6.h:111 | in place: a data disk is rebuilt from Q and P from the data |
| Erasure.ThreeDataLost | barracuda_deamon/multrs/raid6multrs.cu:213-222 | over the product that the comment promises, not the one computed, rows 1, 2 and 4 determine any three lost disks of up to 255 |
| Erasure.CorrectsThreeExactly | barracuda_deamon/multrs/raid6multrs.cu:213-222 | over that promised product they do so iff there are at most 255 |
| FourErasures.FourDataLost | barracuda_deamon/multrs/raid6multrs.cu:213-222 | over the promised product all four rows determine any four lost disks of up to seven |
| FourErasures.FourDataLostFails | barracuda_deamon/multrs/raid6multrs.cu:213-222 | over the promised product, from eight on, two columns that differ on disks 0, 1, 3, 7 share all symbols |
| FourErasures.CorrectsFourExactly | barracuda_deamon/multrs/raid6multrs.cu:213-222 | over the promised product four lost disks are recoverable iff there are at most seven data disks |
| WrittenErasures.TwoWrittenLost | barracuda_deamon/multrs/raid6multrs.cu:163-234 | the symbols that are written determine any two lost disks of up to eleven, whatever byte lies behind the table |
| WrittenErasures.WrittenTripleCorrectsTwoExactly | barracuda_deamon/multrs/raid6multrs.cu:163-234 | rows 1, 2 and 4 as written, without the one whose entries soon depend on the byte behind the table, recover two lost disks iff there are at most eleven |
| WrittenErasures.TwoLostInTables | barracuda_deamon/multrs/raid6multrs.cu:163-234 | they do so for every column on which the encoder stays in its tables |
| WrittenErasures.TwoWrittenLostFails | barracuda_deamon/multrs/raid6multrs.cu:163-234 | from 21 data disks on they need not: with the byte 50 behind the table disks 15 and 20 are confused |
| WrittenErasures.WrittenCorrectsThreeExactly | barracuda_deamon/multrs/raid6multrs.cu:163-234 | the written symbols recover three lost disks iff there are at most two: 110, 127, 20 and 142, 239, 100 share all four |
| WrittenErasures.WrittenCorrectsFourExactly | barracuda_deamon/multrs/raid6multrs.cu:163-234 | likewise four |
| WrittenErasures.WrittenPairCorrectsTwoExactly | barracuda_deamon/multrs/raid6multrs.cu:163-234 | the first two written symbols alone recover two lost disks iff there is at most one |
| WrittenErasures.ProductOf255 | barracuda_deamon/multrs/raid6multrs.cu:222-234 | with the byte s behind the table 255 has the products of 2^s |
| WrittenErasures.WrittenCorrectsOneExactly | barracuda_deamon/multrs/raid6multrs.cu:163-234 | columns that may hold 255: with s below 255 behind the table one lost disk is recovered iff there is none or s is 175 |
| WrittenErasures.AnyColumnOneLost | barracuda_deamon/multrs/raid6multrs.cu:163-234 | whatever lies there, only if there is none |
| WrittenErasures.EighthSymbol | barracuda_deamon/multrs/raid6multrs.cu:191-234 | with 0 behind the table, row three of a column with 1 on disk seven and 0 elsewhere is 3 |
| MultiRs.EncodeSymbol | barracuda_deamon/multrs/raid6multrs.cu:191-200 | the inner loop writes the xor of mult_gf(c_d, D_d) with c_0 = r and c_(d+1) = mult_gf(c_d, r) |
| MultiRs.MultiRsSoftGenSyndrome | barracuda_deamon/multrs/raid6multrs.cu:163-209 | every offset of every check disk holds that symbol of its row, the data disks are unchanged |
| MultiSymbols.CoefficientIsPower | barracuda_deamon/multrs/raid6multrs.cu:185-200 | while it stays small, the stepped matrix entry of disk d is r^(d+1) |
| MultiSymbols.EntryStep | barracuda_deamon/multrs/raid6multrs.cu:191-200 | every matrix entry of every row is followed by two to the sum of its logarithm and the row's, less 256 above 255, where 255 has the byte behind the table for its logarithm |
| MultiSymbols.EntryAfter255 | barracuda_deamon/multrs/raid6multrs.cu:191-200 | what follows an entry 255, for every byte behind the table |
| MultiSymbols.ColumnInTableExactly | barracuda_deamon/multrs/raid6multrs.cu:177-200 | the encoder reads its tables in bounds iff there are at most six data disks and no byte is 255 |
| MultiSymbols.RowOneIsParity | barracuda_deamon/multrs/raid6multrs.cu:177-208 | for bytes below 255 check symbol one is the plain parity even with mult_gf as written |
| MultiSymbols.RowExactly | barracuda_deamon/multrs/raid6multrs.cu:177-208 | the written row r is the field's for all such columns iff r = 1, or there is no data disk, or r = 2 with one |
| MultiSymbols.RowsAndPQ | barracuda_deamon/multrs/raid6multrs.cu:185-200 | over the documented product row one is P and row two is twice Q of the P/Q encoder |
| CudaTiling.SyncCopy | barracuda_deamon/cuda/raid6cuda.cu:394-565 | the assembled check disks: P at every offset that a block covers, nothing changed elsewhere |
| CudaTiling.SyndromeBlock | barracuda_deamon/cuda/raid6cuda.cu:581-637 | for every order of the threads the P half of the device buffer is the parity of the loaded rows |
| CudaTiling.WrittenOnceExactly | barracuda_deamon/cuda/raid6cuda.cu:405-519 | every offset is written exactly once iff there are no full rounds, no rest, or a rest of a block at least |
| CudaTiling.TilesHit | barracuda_deamon/cuda/raid6cuda.cu:405-519 | how often each offset is written, in all cases |
| CudaTiling.AlwaysRightExactly | barracuda_deamon/cuda/raid6cuda.cu:405-565 | P is the parity of the data disks, for all contents of data and check disks, iff the blocks cover the buffers |
| CudaTiling.TiledParityExactly | barracuda_deamon/cuda/raid6cuda.cu:405-565 | for given contents, P is right iff the blocks cover the buffers or the unwritten tail was right before |
| KernelModule.Module.BarracudaStart | barracuda_kernel_module/raid6cuda.c:1038-1048 | the module starts with the gate shut and no ioctl token |
| KernelModule.Module.CallUspProc | barracuda_kernel_module/raid6cuda.c:347-359 | each statement of the procfs caller keeps the procfs invariant and is its event of the abstract call, one step nearer to the return |
| KernelModule.Module.CallUspIoctl | barracuda_kernel_module/raid6cuda.c:463-477 | each statement of the ioctl caller keeps the token invariant and is its event of the abstract call, one step nearer to the return |
| KernelModule.Module.CallUspNl | barracuda_kernel_module/raid6cuda.c:575-679 | each statement of the netlink caller keeps the mailbox invariant and is its event of the abstract call, one step nearer to the return |
| KernelModule.Module.NlRecvPkg | barracuda_kernel_module/raid6cuda.c:729-736 | likewise the blocking receive; the first yields "init", the second the acknowledgement |
| KernelModule.Module.ProcRead | barracuda_kernel_module/raid6cuda.c:381-397 | each statement of the daemon's read keeps the procfs invariant, is its event, and yields the address of actual_snc |
| KernelModule.Module.ProcWrite | barracuda_kernel_module/raid6cuda.c:417-441 | each statement of the daemon's write does; a foreign address fails it with the semaphore down |
| KernelModule.Module.IoctlCallback | barracuda_kernel_module/raid6cuda.c:494-551 | each statement of the daemon's ioctl keeps the token invariant, with never more than one token |
| KernelModule.Module.NlDataReady | barracuda_kernel_module/raid6cuda.c:695-717 | each statement of the arrival of a packet keeps the mailbox invariant; the slot is replaced only while the caller waits |
| KernelModule.Module.ConfWriteStatement | barracuda_kernel_module/raid6cuda.c:196-296 | each statement of a configuration write keeps the gate unit and the conf_mutex unit, and is the step of the writers in the state machine |
| KernelModule.Module.WriteConfiguration | barracuda_kernel_module/raid6cuda.c:196-296 | the whole write on the module: what each of its five outcomes sets, and that it returns with conf_mutex down if configured or rejected |
| Configuration.WholeWrite | barracuda_kernel_module/raid6cuda.c:196-296 | the same of the writers of the state machine: no other variable changes in any outcome |
| Configuration.EarlyReturnHolds | barracuda_kernel_module/raid6cuda.c:203-219 | in every run a write that finds the module configured, or is rejected, leaves conf_mutex at 0 in all states after its step |
| Configuration.ConfigurationCame | barracuda_kernel_module/raid6cuda.c:229-284 | in every run a pid that is set, and a transport that is set, were brought by some earlier write |
| KernelModule.Module.CallThrough | barracuda_kernel_module/raid6cuda.c:347-736 | for every transport and every schedule of caller and daemon on one module the call ends, and was a run of enabled statements of the two from its entry, in the state before, to its return, in the state after, that stored, began, ended and returned its container once each |
| KernelModule.Module.GenSyndrome | barracuda_kernel_module/raid6cuda.c:156-176 | so was gen_syndrome, with the gate taken at every moment of that run and given back at its end |
| Rendezvous.CallerSimulates | barracuda_kernel_module/raid6cuda.c:347-359 | procfs, ioctl and netlink: each statement of the caller keeps the protocol invariant and is a step of the abstract call |
| Rendezvous.DaemonSimulates | barracuda_deamon/userspace_driver.cu:356-393 | each statement of the daemon does, too: stored, served exactly once, returned |
| Rendezvous.ProcServingBlocksCaller | barracuda_kernel_module/raid6cuda.c:347-441 | between the daemon's read and write the flag is 0 and the caller blocked |
| Rendezvous.IoctlToken | barracuda_kernel_module/raid6cuda.c:463-534 | the token never exceeds 1, its holder finds the daemon committed to waiting, a woken caller was served |
| Rendezvous.MailboxNotFreedInUse | barracuda_kernel_module/raid6cuda.c:695-736 | the mailbox is only replaced while the caller waits for it |
| Rendezvous.SlotEmptied | barracuda_kernel_module/raid6cuda.c:702-708 | the old packet is out of the slot before the new one is put there |
| Rendezvous.DepositOnce | barracuda_kernel_module/raid6cuda.c:695-717 | a packet is deposited only when none is outstanding |
| Rendezvous.TakeOnce | barracuda_kernel_module/raid6cuda.c:590-676 | each is taken once: the first receive gets "init", the second the acknowledgement, no call fails |
| Mailbox.DepositsAreTaken | barracuda_kernel_module/raid6cuda.c:695-736 | in every run as many packets were deposited as taken, but for the one outstanding |
| Rendezvous.SomeoneMoves | barracuda_kernel_module/raid6cuda.c:347-397 | while a request is pending the caller or the daemon can move |
| Rendezvous.EveryStepCounts | barracuda_kernel_module/raid6cuda.c:347-397 | every protocol step of either brings the return exactly one step nearer, from at most 20 |
| Marshal.ActualSnc.BarracudaRead | barracuda_kernel_module/raid6cuda.c:752-767 | pread copies the disk selected by the offset |
| Marshal.ActualSnc.BarracudaWrite | barracuda_kernel_module/raid6cuda.c:781-795 | pwrite replaces the head of the disk selected by the offset |
| Marshal.ActualSnc.CopyActSyndromeBlock | barracuda_deamon/userspace_driver.cu:656-722 | fresh buffers, the data disks' contents in them |
| Marshal.ActualSnc.CopybackActSyndromeBlock | barracuda_deamon/userspace_driver.cu:736-753 | the two check disks, and nothing else, are replaced up to the size |
| Marshal.ActualSnc.ServeCopied | barracuda_deamon/userspace_driver.cu:369-389 | a round with copying leaves P and Q of the kernel's data in the kernel's check disks |
| Marshal.ActualSnc.ServeMapped | barracuda_deamon/userspace_driver.cu:369-389 | so does a round with mapped buffers |
| Service.ServeStep | barracuda_deamon/userspace_driver.cu:656-839 | no step of the service meets a freed pointer or a bad index, and each keeps the job in order, for both marshallings |
| Service.ServeProgress | barracuda_deamon/userspace_driver.cu:656-839 | each step of the service brings it nearer to its end |
| ServedRounds.RoundResult | barracuda_deamon/userspace_driver.cu:356-393 | at most 260 steps of the service finish a container with P and Q in place |
| ServedRounds.ServeAsModelled | barracuda_deamon/userspace_driver.cu:369-389 | on every buffer of the request, a round with the word encoder leaves what the state machine's service leaves, for both marshallings |
| Safety.OneInside | barracuda_kernel_module/raid6cuda.c:156-176 | two callers are never inside together |
| Safety.GateStep | barracuda_kernel_module/raid6cuda.c:156-296 | every step keeps: gate count + callers inside + openings under way + (1 if not configured) = 1 |
| Safety.InsideNeedsConfiguration | barracuda_kernel_module/raid6cuda.c:160-170 | nobody is inside before the configuration is done |
| EndToEnd.InvariantStep | barracuda_kernel_module/raid6cuda.c:156-176 | every step of any caller, writer, the daemon or the rest of the machine keeps the invariant of the connector |
| Runs.CallTheorem | barracuda_kernel_module/raid6cuda.c:156-176 | in every run, a call that returns left P and Q of the data its caller had at the gate, was stored, begun, ended and returned once each, and left the heap as it was at the gate |
| SampleRuns.InProgress | barracuda_kernel_module/raid6cuda.c:156-176 | for every transport, marshalling and word size some run has a caller in its call and the daemon running |
| SampleRuns.ShutForGood | barracuda_kernel_module/raid6cuda.c:203-219 | some run reaches a shut gate and conf_mutex left down: a rejected write to the module just loaded |
| SampleRuns.RepeatedWrite | barracuda_kernel_module/raid6cuda.c:203-213 | some run repeats a write after the configuration, and conf_mutex is left down |
| Runs.ResultProtects | barracuda_kernel_module/raid6cuda.c:156-176 | what a call left determines any two lost disks of its caller |
| Runs.NothingFails | barracuda_kernel_module/raid6cuda.c:156-176 | in every run no call goes through an unset call_usp, no netlink check fails, no service faults |
| Runs.ProtocolHolds | barracuda_kernel_module/raid6cuda.c:347-736 | in every run the protocol invariant of the configured transport holds, so the statements of Rendezvous do |
| Runs.ServesLivingContainer | barracuda_kernel_module/raid6cuda.c:1015-1018 | in every run the daemon serves only the container of the one caller inside, and its pointer array is not freed |
| Runs.HeapAlways | barracuda_kernel_module/raid6cuda.c:966-1018 | in every run the allocated pointer arrays are exactly those of the callers between pack_smc and kill_smc |
| Runs.CallFrees | barracuda_kernel_module/raid6cuda.c:156-176 | nothing is allocated when a caller passes the gate, nor when it returns |
| Runs.MarshalsOneWay | barracuda_deamon/userspace_driver.cu:369-389 | in every run a copying daemon only reads and copies back, a mapping one only maps |
| Runs.ProcfsLifetime | barracuda_kernel_module/raid6cuda.c:347-441 | in every run, from the daemon's read to its write, the flag is 0, the caller blocked and its container alive |
| Runs.GateOpensOnce | barracuda_kernel_module/raid6cuda.c:196-296 | in every run the gate is opened at most once, and only with a non-zero pid and a transport set |
| StuckConfiguration.NobodyWritesAgain | barracuda_kernel_module/raid6cuda.c:203-219 | after a configuration write has returned with conf_mutex down no writer moves again |
| StuckConfiguration.NobodyPassesEver | barracuda_kernel_module/raid6cuda.c:203-219 | if the configuration was not complete by then, no caller ever passes the gate |
| Progress.SomeMoveEnabled | barracuda_kernel_module/raid6cuda.c:156-176 | whenever a caller is inside and the daemon runs, one of the two has an enabled step |
| Progress.EveryMoveCounts | barracuda_kernel_module/raid6cuda.c:156-176 | no step of anyone takes it farther from its return, its own and the daemon's bring it nearer |
| Progress.BoundedCall | barracuda_kernel_module/raid6cuda.c:156-176 | under every schedule a caller inside has seen at most 27260 steps that it or the daemon made since it passed the gate |

## Left out

- Q of the CUDA kernel: it overwrites the running syndrome with the mask and reads a word that was never set; the model leaves the Q half arbitrary.
- CudaTiling.SyncCopy: one call only, since the static pointer is initialised once; the ASYNC variant is compiled out.
- `rs_kernel` and `multi_rs_cuda_gen_syndrome`: the disk loop runs one too far and the carry offsets are wrong, so there is no clean property.
- The multi-failure encoder behind copying: only two check disks are written back, so the end-to-end results are for the P/Q encoders.
- MultiSymbols.RowExactly: bytes below 255 only, as byte 255 reads behind the table.
- WrittenErasures.WrittenCorrectsOneExactly: not decided when the byte behind the table is itself 255.
- Recovery.TwoDataRecov: the repository declares the recovery routines but does not define them; the model gives bodies with that interface, and leaves raid6_dual_recov, which only chooses among cases, out.
- WrittenErasures.TwoWrittenLost: with all four symbols two lost disks of twelve to 20 are not decided; there the third symbol depends on the byte behind the table, which the language leaves undefined.
- Encoder.VanillaGenSyndrome: buffers must hold whole words; the code writes a whole last word whatever the size.
- Page tables, stdio buffering and the netlink packet layout: read, write, send and receive are atomic steps; the echoed token is one value.
- Runs.CallTheorem: inside the runs the encoder is one atomic step on the mapped buffers or on the copies; ServedRounds ties a whole round to the word loop.
- Error returns that keep a semaphore (failed allocation, failed copy, wrong address in proc_write) are excluded by the assumptions; the early returns of conf_write are modelled.
- Parsing of the configuration text: a write is a pid, a known transport, something else, or rejected.
- Progress.BoundedCall: from passing the gate on; that a waiting caller gets the gate at all depends on the fairness of the semaphore.
- Command line, syslog, signals, benchmarks, cuda_memcheck, counting of processors.
