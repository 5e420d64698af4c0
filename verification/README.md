# Verified models of gulf's unsafe cores

Four parts of gulf rest on arguments that the Rust compiler does not check: a fallible
`Arc::new_cyclic`, the lifetime of two pipe descriptors shared by senders and a receiver, text
copied through uninitialised buffers, and word arithmetic behind unchecked constructors. This
project models each of them in Dafny and proves the arguments.

- **Cyclic construction** (`CyclicMachine`, `CyclicProofs`, `CyclicCheck`, `CyclicReferences`,
  `CyclicRefinement`, `Cyclic`, `CyclicReplay`, `Rc`). `TryNewCyclic::run` is a state machine: the
  maker's reference count operations, the call of the initializer, the write of the value and the
  panics are separate steps, and observers holding any number of `Weak`s and `Arc`s move between
  any two of them. The three strategies differ in one match. `Cyclic.Construction` is the same code
  as mutable objects with observers running between its statements; its log is a run of the
  machine, and every run of the machine that keeps the caller's promise is such a log
  (`CyclicReplay`). `Rc` is the single-threaded function.
- **Channel descriptors** (`AtomicFds`, `ChannelMachine`, `ChannelProofs`, `Channel`). One receiver
  and an unbounded number of senders; loading the count, looking at the receiver slot, swapping,
  closing and releasing the `Arc` are separate steps. Any live sender may be cloned at any time,
  by any thread. `Channel.Shared` has the drops as code over two `AtomicFd` objects.
- **Error messages** (`Utf8`, `Errno`). The grammar of section 4 of RFC 3629, tied to the bit
  layout of section 3; maximal subparts as in section 3.9 of the Unicode Standard; and the two
  buffers as arrays of possibly uninitialised bytes.
- **Alignments and masks** (`Words`, `Layouts`). Machine words of an arbitrary width with bit
  operations defined bit by bit, so that the results hold for 16, 32 and 64 bits at once.

## Where the code and its documentation differ

- `Channel::sender` is documented to be `-1` once the last sender is gone
  (`crates/capture-linux/src/pw/channel.rs:31-36`). While the receiver lives, that is so exactly
  if some sender began its drop when no other sender held the Arc, and so loaded a count of at most
  two; `OverlappingDropsLeaveTheSlotFull` is a run in which none does.
- `Sender` is made not `Sync` for the sake of the descriptor
  (`crates/capture-linux/src/pw/channel.rs:107-120`). The proof needs only that a sender is not
  cloned while it is being dropped, which Rust's borrow rules give anyway.
- The debug check in `_unchecked` is described as a guard against an irrecoverable state
  (`crates/core/src/arc.rs:267-273`). It aborts exactly if an observer holds an Arc
  at the moment of the check (`CheckAbortsIff`). An upgrade after the check goes unnoticed
  (`CheckCanBeMissed`), and so does one before it whose Arc has been dropped again
  (`CheckCanBeOutrun`); `ReturnedErrorWasExposedIff` says that there is no third way.
- `round_up_size` is documented to return `None` on overflow
  (`crates/core/src/mem/align.rs:315-318`). It also does for size zero.
- The check that the documentation of `Mask` recommends (`crates/core/src/mem/mask.rs:24-25`)
  accepts zero besides the masks.

## Model

| member | source | states |
|---|---|---|
| ChannelProofs.DescriptorsOutliveTheirHandles | crates/capture-linux/src/pw/channel.rs:72-136 | in every state of every interleaving a sender that has not begun to drop finds its descriptor in the slot and that descriptor is open; likewise the receiver; no `unreachable_unchecked!` branch is taken |
| ChannelProofs.StepKeepsInv | crates/capture-linux/src/pw/channel.rs:95-136 | every step of every handle keeps the invariant, in particular what a dropper that loaded a count of one or two may conclude about the others |
| ChannelProofs.CountTellsOwners | crates/capture-linux/src/pw/channel.rs:107-120 | the count is never zero for a sender; at one nobody else owns the Arc, at two either no other sender does or the receiver does not |
| ChannelProofs.OnlookerKnows | crates/capture-linux/src/pw/channel.rs:113-117 | what a dropper has concluded from its count stays true while any other handle moves |
| ChannelProofs.CloneKeepsKnowledge | crates/capture-linux/src/pw/channel.rs:109-117 | and while any live sender is cloned |
| ChannelProofs.ClosedExactlyOnce | crates/capture-linux/src/pw/channel.rs:95-126 | the Arc count is the number of handles that have not released it; nothing is closed twice and nothing else is closed; when all handles are gone both descriptors have been closed |
| ChannelProofs.StepKeepsLedger | crates/platform-linux/src/atomic_fd.rs:99-110 | a step never loses or duplicates a descriptor: it is in a slot, held by a handle, or closed |
| ChannelProofs.AdvanceMakesProgress | crates/capture-linux/src/pw/channel.rs:95-126 | every step of a drop brings all drops nearer to their end |
| ChannelProofs.DropsAreBounded | crates/capture-linux/src/pw/channel.rs:95-126 | so no schedule of drops goes on for ever |
| ChannelProofs.DeadEndIsDrained | crates/capture-linux/src/pw/channel.rs:368-373 | where no drop can go on every handle is gone and both descriptors are closed |
| ChannelProofs.EveryDrainClosesBoth | crates/platform-linux/src/atomic_fd.rs:166-172 | after any run, dropping all handles in any interleaving ends after a bounded number of steps with each of the two descriptors closed exactly once |
| ChannelProofs.HasSenderIsRightIff | crates/capture-linux/src/pw/channel.rs:338-344 | with a live receiver and no drop under way, `has_sender` is false exactly if some drop loaded a count of at most two, which is exactly if some sender began its drop when no other sender held the Arc; it is right if and only if a sender is left or a drop began like that |
| ChannelProofs.LoadsTwoIffAlone | crates/capture-linux/src/pw/channel.rs:107-120 | while the receiver lives, a sender that begins its drop loads a count of at most two exactly if no other sender holds the Arc |
| ChannelProofs.LoadedTwoIffLoneDrop | crates/capture-linux/src/pw/channel.rs:97-120 | over any run under a live receiver, the recorded counts are at most two exactly if the schedule has a sender that begins its drop alone |
| ChannelProofs.HasSenderIsRightWithoutOverlap | crates/capture-linux/src/pw/channel.rs:97-125 | if no two sender drops overlap, a live receiver sees a sender exactly if there is one |
| ChannelProofs.OverlappingDropsLeaveTheSlotFull | crates/capture-linux/src/pw/channel.rs:97-125 | the hypothesis is needed: a run in which two drops load three and the slot stays full |
| Channel.UninterruptedDrop | crates/capture-linux/src/pw/channel.rs:95-126 | the whole state after an uninterrupted sender drop: count, handles, and when each slot is emptied |
| Channel.UninterruptedDropTellsTheReceiver | crates/capture-linux/src/pw/channel.rs:121 | dropped while all is quiet and the receiver lives, a sender empties the slot exactly if it was the last |
| Channel.FinishIsARun | crates/capture-linux/src/pw/channel.rs:95-126 | an uninterrupted drop is a run of the machine and keeps its invariant |
| Channel.Shared.constructor | crates/capture-linux/src/pw/channel.rs:407-419 | the channel starts with one sender, one receiver, count two and both descriptors |
| Channel.Shared.CloneSender | crates/capture-linux/src/pw/channel.rs:128-136 | cloning is the machine's clone step and keeps the invariant |
| Channel.Shared.SenderAsFd | crates/capture-linux/src/pw/channel.rs:72-86 | for a live sender the borrowed descriptor is the open write end; the other branch is dead |
| Channel.Shared.DropSender | crates/capture-linux/src/pw/channel.rs:95-126 | the code of the drop, with its match on the count, has the effect of the machine's steps and keeps the invariant; the branch for zero is dead |
| Channel.Shared.DropReceiver | crates/capture-linux/src/pw/channel.rs:368-373 | likewise for the receiver |
| Channel.Shared.TearDown | crates/platform-linux/src/atomic_fd.rs:166-172 | the last release drops both slots and closes what they hold |
| AtomicFds.Decode | crates/platform-linux/src/atomic_fd.rs:30-50 | `-1` is None and every other number is a descriptor, without loss |
| AtomicFds.AtomicFd.constructor | crates/platform-linux/src/atomic_fd.rs:62-65 | a new slot holds what it is given |
| AtomicFds.AtomicFd.Swap | crates/platform-linux/src/atomic_fd.rs:99-110 | the caller gets what was in the slot and the slot gets the replacement; no descriptor is lost or duplicated |
| AtomicFds.AtomicFd.IsSome | crates/platform-linux/src/atomic_fd.rs:116-121 | true exactly if the slot holds a descriptor |
| AtomicFds.AtomicFd.LoadBorrowed | crates/platform-linux/src/atomic_fd.rs:154-163 | what the slot holds, which stays there |
| AtomicFds.AtomicFd.FromRawFd | crates/platform-linux/src/atomic_fd.rs:247-253 | `-1` gives an empty slot, and any other number a slot that owns it |
| AtomicFds.AtomicFd.IntoRawFd | crates/platform-linux/src/atomic_fd.rs:259-264 | the descriptor moves to the caller: the number stands for what the slot owned, `-1` for nothing, and the slot owns nothing any more, so that its drop does not close it |
| AtomicFds.AtomicFd.IntoInner | crates/platform-linux/src/atomic_fd.rs:90-93 | the descriptor moves to the caller and the slot is left empty |
| AtomicFds.AtomicFd.TryIntoOwned | crates/platform-linux/src/atomic_fd.rs:201-206 | succeeds exactly if the slot owned a descriptor; what the caller and the slot own afterwards is what the slot owned before, each once, and the slot is empty; the error is EBADF (9) |
| AtomicFds.AtomicFd.ThroughRaw | crates/platform-linux/src/atomic_fd.rs:247-264 | converting to a raw number and back moves the ownership to the new object, for an empty slot too |
| CyclicProofs.CheckedStrategiesAreSafe | crates/core/src/arc.rs:144-227 | with catch-unwind and panic-on-error no schedule of any observers ever shows a strong count over uninitialised memory or uses such or released memory, however the initializer ends |
| CyclicProofs.AllowedRunsAreSafe | crates/core/src/arc.rs:229-281 | with any strategy the same holds without an upgrade in the window, and a strong count over uninitialised memory is seen in the window and nowhere else; the abort is not reached |
| CyclicProofs.ExposedIffUpgradedInWindow | crates/core/src/arc.rs:237-245 | a run exposes uninitialised memory if and only if a `Weak` is upgraded inside the window |
| CyclicProofs.WindowCanBeHit | crates/core/src/arc.rs:250-258 | for every error, with and without debug assertions, some observer does read uninitialised memory |
| CyclicCheck.CheckAbortsIff | crates/core/src/arc.rs:267-273 | in every run, whether or not observers keep out of the window, the count check aborts if and only if debug assertions are on and an observer holds an Arc at that moment |
| CyclicCheck.RunIsAbortedIff | crates/core/src/arc.rs:267-273 | a run is aborted if and only if it has debug assertions and came to the check while an observer held an Arc; such an Arc was upgraded in the window before the check |
| CyclicCheck.ReturnedErrorWasExposedIff | crates/core/src/arc.rs:267-280 | what the check lets through: a debug run that returns the error came to the check when no observer held an Arc, and has exposed uninitialised memory if and only if a `Weak` was upgraded in the window after the check or before it |
| CyclicProofs.CheckCanBeOutrun | crates/core/src/arc.rs:267-278 | an upgrade before the check goes unnoticed if its Arc is dropped in time: uninitialised memory has been read and the error is returned |
| CyclicProofs.CheckCanBeMissed | crates/core/src/arc.rs:267-278 | an upgrade between the check and the drop goes unnoticed: the error is returned while an observer holds an Arc over uninitialised memory |
| CyclicProofs.OutcomeAndConservation | crates/core/src/arc.rs:164-201 | when `run` ends, in every run, also if observers upgrade in the window: the outcome promised for each way the initializer can end; all references of the maker released; the allocation released once or not at all; the error written once and taken once on the catch path only |
| CyclicProofs.StepAccounts | crates/core/src/arc.rs:144-281 | the invariant behind it: every step of anybody, upgrades in the window included, leaves all references, the allocation and the error slot accounted for |
| CyclicProofs.FailureIsFinal | crates/core/src/arc.rs:174-177 | after a failure no stored `Weak` can ever be upgraded again |
| CyclicProofs.MakerKeepsInv | crates/core/src/arc.rs:150-200 | every step of the maker keeps the invariant, at every place of every strategy |
| CyclicProofs.ObserverKeepsInv | crates/core/src/arc.rs:153-163 | so does every allowed step of an observer |
| CyclicReferences.StoredWeakUpgrades | crates/core/src/arc.rs:153-190 | whoever stored a `Weak` can try to upgrade it at any time outside the window; it yields one more Arc, to the initializer's value, exactly if there is a strong reference; after success there is one as long as anybody holds an Arc, and before publication and after a failure there is none |
| CyclicReferences.ReferencesAreBooked | crates/core/src/arc.rs:153-163 | in every run the observers' `Weak`s are those made less those dropped, and so are the Arcs, with the caller's on top |
| CyclicReferences.EveryoneLetsGo | crates/core/src/arc.rs:164-201 | when everybody lets go after the end of `run`, in any order, that takes a bounded number of steps, the value is dropped and the allocation released just once |
| CyclicReferences.HoldersActFreely | crates/core/src/arc.rs:153-163 | in every state that is not aborted, the window included, holders can do whatever there is to be done with an Arc or a `Weak` |
| CyclicRefinement.UncheckedRefinesCatchUnwind | crates/core/src/arc.rs:229-281 | every unchecked run without an upgrade in the window has a catch-unwind run with the same observer steps in the same order and the same outcome, value and counts at the end |
| CyclicRefinement.CatchUnwindRefinesUnchecked | crates/core/src/arc.rs:144-202 | and the converse: every catch-unwind run has an unchecked run without an upgrade in the window that has the same observer steps and ends alike |
| CyclicRefinement.Follow | crates/core/src/arc.rs:144-281 | the unchecked run is found by making the steps in the window without a pause |
| CyclicRefinement.RunSimulates | crates/core/src/arc.rs:229-281 | the simulation behind it, state by state |
| CyclicRefinement.EraseKeepsOthers | crates/core/src/arc.rs:229-281 | only steps of the maker are left out |
| Cyclic.Construction.Observe | crates/core/src/arc.rs:153-163 | an observer's operation on the counts is the machine's step |
| Cyclic.Construction.Interfere | crates/core/src/arc.rs:153-163 | the observers do exactly those of the operations they want to do that are possible and allowed when their turn comes, in order, and the log grows by these |
| CyclicReplay.Replay | crates/core/src/arc.rs:144-346 | no interleaving is missed: for every run of the machine that keeps the promise and ends with the maker's last step, there are an initializer and observers with which the code records that run and ends in its final state |
| CyclicReplay.FollowBlocks | crates/core/src/arc.rs:144-281 | turn by turn, the maker and such observers go through the given run |
| Cyclic.Construction.RunCatchUnwind | crates/core/src/arc.rs:144-202 | the code with its captured error slot ends as promised, with the observers' operations in turn with its own steps |
| Cyclic.Construction.RunPanicOnError | crates/core/src/arc.rs:206-227 | likewise with a panic for an error |
| Cyclic.Construction.RunUnchecked | crates/core/src/arc.rs:231-281 | likewise with the captured result, the count check and the early drop |
| Cyclic.Construction.Run | crates/core/src/arc.rs:338-346 | either the caller has an Arc to the value, or there is no strong reference; all weak references are the observers'; the error slot and the allocation are accounted for; the log is the maker's steps in turn with what the observers did |
| Rc.RcBox.TryNewCyclic | crates/core/src/rc.rs:52-79 | for every behaviour of the initializer: outcome, final counts and value; the stored `Weak`s are those it cloned less those it dropped, and the allocation outlives them; no user code saw a strong count; after success a stored `Weak` upgrades, after a failure no operation ever yields a strong reference |
| Rc.OpsAreBooked | crates/core/src/rc.rs:63-79 | for every sequence of user operations: `Weak`s made less `Weak`s dropped, each of them one weak count, and one strong count for each upgrade if there is a strong reference at all |
| Rc.StoredIsPlain | crates/core/src/rc.rs:63-79 | for operations that only use `Weak`s the program has, the count is clones less drops |
| Rc.DeadCountsStayDead | crates/core/src/rc.rs:59-63 | without a strong reference no sequence of user operations gets one |
| Rc.OneThreadNeedsNoPromise | crates/core/src/rc.rs:58-79 | on one thread the unchecked way of proceeding is safe without any promise by the caller |
| Utf8.CharactersAreScalars | crates/platform-linux/src/errno.rs:208-209 | the octet grammar consists of exactly the encodings of the Unicode scalar values |
| Utf8.ValidIsWellFormed | crates/platform-linux/src/errno.rs:208-209 | the recursive test accepts exactly what the grammar generates |
| Utf8.SubpartIsMaximal | crates/platform-linux/src/errno.rs:196-201 | one replacement character stands for exactly one maximal subpart |
| Utf8.DecompositionsYieldLossy | crates/platform-linux/src/errno.rs:185-202 | every division of a message into characters and maximal subparts yields the lossy decoding, with the encoding of U+FFFD for each maximal subpart |
| Utf8.ReplacementIsFffd | crates/platform-linux/src/errno.rs:196 | the replacement written is the encoding of U+FFFD |
| Utf8.EncodeKeepsOrder | crates/platform-linux/src/errno.rs:208-209 | encodings are ordered like the scalar values, which leaves only one encoding on the octet grammar |
| Utf8.Decompose | crates/platform-linux/src/errno.rs:185-202 | every message has such a division |
| Utf8.LossyFixpoints | crates/platform-linux/src/errno.rs:175-179 | lossy decoding is always well-formed, is idempotent, and changes nothing exactly if the message is well-formed |
| Utf8.LossyLength | crates/platform-linux/src/errno.rs:196-201 | the decoding is at most three times as long as the message |
| Utf8.LossyLengthIsTight | crates/platform-linux/src/errno.rs:196-201 | and that bound is attained at every length |
| Utf8.LossyOfChunk | crates/platform-linux/src/errno.rs:185-202 | what one round of the loop contributes; the first chunk has no invalid part exactly if the message is well-formed |
| Utf8.FirstChunkIsLongest | crates/platform-linux/src/errno.rs:173-179 | the valid part of a chunk is the longest valid front |
| Errno.WriteMessage | crates/platform-linux/src/errno.rs:108-138 | whichever bytes the foreign call leaves alone, all are initialised afterwards and those are zero; the message ends at the first NUL; the three kinds of return code; the panic exactly if a successful call put a nonzero byte on every zero |
| Errno.WrittenMeans | crates/platform-linux/src/errno.rs:128-137 | in terms of what the foreign call wrote: a positive code is the error, a negative one stands for `errno`, and after success the message is all that was written before the first byte that is NUL or was left alone |
| Errno.NulIsLeftIff | crates/platform-linux/src/errno.rs:129-132 | after a successful call the filled buffer holds a NUL exactly if the call did not overwrite every one |
| Errno.CallStrerror | crates/platform-linux/src/errno.rs:119-126 | the call is given initialised bytes only, and what it does not write keeps its value |
| Errno.FromBytesUntilNul | crates/platform-linux/src/errno.rs:129-132 | finds the first NUL of the buffer, and None exactly if there is none |
| Errno.FromPtr | crates/platform-linux/src/errno.rs:133-134 | reads no byte behind the end of the buffer if there is a NUL in it |
| Errno.CStrLength | crates/platform-linux/src/errno.rs:129-134 | the message is what precedes the first NUL |
| Errno.ScanChar | crates/platform-linux/src/errno.rs:173 | one character, or the maximal subpart in its place, by comparisons of bytes |
| Errno.Inspect | crates/platform-linux/src/errno.rs:173 | the offsets at which the first chunk divides and ends |
| Errno.Utf8Chunks.Next | crates/platform-linux/src/errno.rs:173-179 | each call takes the first chunk off what is left |
| Errno.PutChunk | crates/platform-linux/src/errno.rs:186-201 | a chunk's text is written at the index and nothing else is, or it does not fit |
| Errno.CopyLossy | crates/platform-linux/src/errno.rs:181-214 | the bytes read back are all initialised and are the lossy decoding, which is valid text; ERANGE exactly if it does not fit; the rest of the buffer is untouched |
| Errno.FormatMessage | crates/platform-linux/src/errno.rs:153-216 | the message is read back from the buffer, all of which is initialised, and its length is in bounds; errors are passed on, well-formed messages are formatted as they are, others after repair; the scratch buffer is written only for repair; `format` is only ever given valid text |
| Errno.FormattedIsLossy | crates/platform-linux/src/errno.rs:175-214 | both paths format the lossy decoding; ERANGE (34) exactly if the message is malformed and its decoding does not fit; three times the length always fits; repaired text needs no room |
| Layouts.MaskNewAccepts | crates/core/src/mem/mask.rs:106-142 | `new` accepts exactly the words 2^w - 2^k with k < w, exactly the values of `MaskRepr`, exactly the nonzero words without a hole; then `!m + 1` does not overflow and is a power of two |
| Layouts.XorTest | crates/core/src/mem/mask.rs:107-112 | the XOR test accepts exactly the masks |
| Layouts.HoleTest | crates/core/src/mem/layout_private.rs:7-9 | a nonzero word has no hole exactly if it is a mask |
| Layouts.DocumentedCheckAlsoAcceptsZero | crates/core/src/mem/mask.rs:20-25 | the documented check accepts exactly the masks and zero |
| Layouts.AlignsArePowers | crates/core/src/mem/align.rs:163-171 | the values of `AlignRepr` are exactly the words with a single one bit |
| Layouts.AlignsAndMasksCorrespond | crates/core/src/mem/mask.rs:157-193 | `from_align` and `align` are inverse to each other and reverse the order |
| Layouts.MinAndMaxCorrespond | crates/core/src/mem/mask.rs:207-224 | the mask of the smaller alignment is the larger mask and their bitwise OR; dually for AND |
| Layouts.ClampCorresponds | crates/core/src/mem/mask.rs:229-239 | clamping an alignment and clamping its mask agree, with the bounds exchanged, also when the bounds are in the wrong order |
| Layouts.FromAddrNonzero | crates/core/src/mem/align.rs:202-206 | the largest alignment that divides the address; the unwrap does not fail |
| Layouts.AlignedThreeWays | crates/core/src/mem/align.rs:202-221 | an alignment is at most the address's exactly if it divides the address exactly if its mask keeps the address; an alignment's own alignment is itself |
| Words.BitsOfXor | crates/core/src/mem/mask.rs:107-112 | each bit of `^` is set exactly if the two bits differ |
| Words.BitsOfNot | crates/core/src/mem/mask.rs:157-160 | each bit of `!` within the width is set exactly if the bit is not |
| Words.BitsOfAnd | crates/core/src/mem/align.rs:324-326 | each bit of `&` is set exactly if both are |
| Layouts.MaskRoundsDown | crates/core/src/mem/align.rs:274-276 | masking rounds down to a multiple of the alignment |
| Layouts.Log2 | crates/core/src/mem/align.rs:282-284 | the exponent of the alignment |
| Layouts.RoundUpSize | crates/core/src/mem/align.rs:322-337 | a result exactly if 0 < size <= 2^w - align, and then the least multiple not below the size; the assertion never fails |
| Layouts.RoundingIsExact | crates/core/src/mem/align.rs:326-334 | the masked wrapping sum is a multiple, zero on overflow and for size zero |
| Layouts.RoundingComposes | crates/core/src/mem/align.rs:322-337 | rounding to a smaller alignment first changes nothing, including every failure |
| Layouts.RoundingIsIdempotentAndMonotone | crates/core/src/mem/align.rs:322-337 | rounded sizes stay as they are, and larger sizes round to no less |
| Layouts.MaxSizeIsTight | crates/core/src/mem/align.rs:343-345 | a size is at most `max_size` exactly if it rounds up to at most `isize::MAX` |
| Layouts.AlignNew | crates/core/src/mem/align.rs:163-171 | exactly the values of `AlignRepr` are accepted |
| Layouts.FromAddr | crates/core/src/mem/align.rs:216-221 | None for the null address only, and else the largest alignment that divides the address |
| Layouts.FromAlign | crates/core/src/mem/mask.rs:157-160 | the word is a mask, and alignment and mask add up to 2^w |
| Layouts.MaskNew | crates/core/src/mem/mask.rs:137-142 | exactly the values of `MaskRepr` are accepted |
| Layouts.MaxSize | crates/core/src/mem/align.rs:343-345 | the subtraction does not overflow |
| Layouts.AlignMin | crates/core/src/mem/align.rs:362-368 | the unchecked constructor is given an alignment, and it is the smaller one |
| Layouts.AlignMax | crates/core/src/mem/align.rs:374-380 | likewise for the larger one |
| Layouts.AlignClamp | crates/core/src/mem/align.rs:386-396 | a result exactly if the bounds are in order, and then the alignment between them that is nearest |
| Layouts.FromNonzero | crates/core/src/mem/mask.rs:106-122 | exactly the masks are accepted, and the unchecked constructor inside is given an alignment |
| Layouts.MaskAlign | crates/core/src/mem/mask.rs:190-193 | the addition does not overflow, the unwrap does not fail, and mask and alignment add up to 2^w |
| Layouts.MaskMin | crates/core/src/mem/mask.rs:207-213 | the unchecked constructor is given a mask, and it is the smaller one |
| Layouts.MaskMax | crates/core/src/mem/mask.rs:218-224 | likewise for the larger one |
| Layouts.MaskClamp | crates/core/src/mem/mask.rs:229-239 | a result exactly if the bounds are in order, and then the mask between them that is nearest |

## Left out

- Channel.Shared.DropSender: the method runs without interference; the interleavings of its steps are those of `ChannelMachine`, which works on values.
- Cyclic.Construction.Interfere: with the unchecked strategy the observers are kept from upgrading in the window, which is the promise the function asks of its caller; what happens without it is stated on the machine.
- Errno.WriteMessage: without UB checks it requires that a successful `strerror_r` did not overwrite every NUL in the buffer, as the C string would otherwise have no end.
- Memory orderings: all atomic accesses are sequentially consistent, and `load_count` is a plain load; its panics on invalid orderings are not modelled.
- Overflow of a reference count, which aborts in the standard library.
- `Weak::upgrade` and every other operation of `Arc` and `Rc` are single steps; destructors of values run as part of dropping them, and panics inside destructors are not modelled.
- The `InitError` payload is private to the function, so a panic of the initializer never carries it.
- The `pipe2` call of `channel`; the model starts with two distinct descriptors.
- `send_many`, which is a `todo!()`, the message buffer, and `SendError`.
- `strerror_r` and `fcntl` are foreign: what the former writes into the buffer, byte by byte, and returns is a parameter, and duplicating a descriptor is not modelled.
- `WithBuffer` and its stack buffers: the two buffers are array parameters of any length.
- Hashing, comparison with other types, formatting, borrowing and pointer conversions of `Errno`, `Align` and `Mask`, and the constants used in the documentation.
- `crates/core/src/num`, `crates/core/src/ptr`, `crates/core/src/platform`, `dma_buf.rs` and the capture crates' other modules.
