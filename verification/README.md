# vinitd, verified in Dafny

vinitd is the init process of vorteil.io micro virtual machines. This project
models the four parts of it where most can go wrong and proves what they have to
guarantee, for every input, every schedule and every answer of the outside world.

**Growing the boot disk** (`Binary`, `Layout`, `LayoutBytes`, `Disk`, `Gpt`, `GptSafety`,
`GptGrow`, `GptLateCrash`, `GptWitness`). On a device that has become larger, vinitd rewrites the
partition table in place: it extends the last partition, rewrites the primary GPT header, writes
a backup header to the new last sector, clears the old backup area, copies the table and patches
the protective MBR. The disk is a byte array behind a file object; a write reaches it one sector
at a time, which calls fail is up to the device and arbitrary, and the object keeps a log of the
single-sector writes. `Plan` is the list of writes a complete resize performs. `GptModifier.Grow` is proved to perform a prefix of it, whatever
fails; the lemmas of `GptSafety` are about all prefixes. The layouts follow sections 5.2.3,
5.3.2 and 5.3.3 of the UEFI specification. The checksum is a parameter: everything holds for
every function from byte strings to 32-bit values, and so for the IEEE CRC-32 of the program.

**The life of the programs and the shutdown** (`Lifecycle`, `LifecycleSafety`,
`LifecycleRounds`, `LifecycleStory`, `LifecycleRace`, `LifecycleRest`, `PostSetup`). The
goroutines of vinitd race on shared variables, so this part is a step system: launcher and
waiter of each of any number of programs, the child reaper, the process listener, the main
routine, outside callers of `shutdown`, and the goroutines of a termination round each advance in
small steps, in any order. A schedule is any sequence of steps. `handleExit` reads one program per step, and nothing locks the status between
the check and the write in `shutdown`. The kernel hands out each exit status once, to the reaper
or to `Wait`, and pids are not reused.

**The VMware guest tools** (`Tclo`, `VmTools`). `Tclo` is the protocol of the conversation
with the host as an automaton over traces of calls, and what it implies for whole traces.
`VmTools.Tools` is the program: any number of rounds of its loop extend the conversation to one
that follows the protocol. The host is an arbitrary function from the number of a backdoor call
to the registers and the data it answers with, so what each call makes of the answer is stated on
the registers themselves. Which failures cost the channel is part of the protocol, and so is that
nothing else does. The one assumption is that a successful open of the TCLO channel does not
return the all-zero handle, which the program uses for "closed".

**Text** (`Substitution`, `SubstitutionExact`, `Hostname`, `HostnameMeaning`). Variables in
program arguments are replaced one after the other in the order of a Go map iteration, which is
unspecified. Where names and values are plain, the result is independent of that order if and
only if no '$' that starts no variable can be completed to one; without plain names or values it
need not be. Host names are rewritten label by label; what each label contributes is stated byte
by byte, and the fixed points of the rewrite are characterised.

`dafny verify dfyconfig.toml` checks the whole project.

Where the code and what it says about itself disagree, the model follows the code: the
comment at pkg/vorteil/gpt.go:203 puts the last usable sector at the sector count less 33, the
code at line 196 at the sector count less 34; the README of the program promises a stop after
an error in any stage, while the status write at pkg/vorteil/vinitd.go:503 and
pkg/vorteil/launch.go:722 can undo the power-off status of a shutdown that is under way.

## Model

| member | source | states |
|---|---|---|
| Binary.Get32Value | pkg/vorteil/gpt.go:187 | four bytes are read as the integer whose lowest byte comes first |
| Binary.Get64Value | pkg/vorteil/gpt.go:187 | the same for eight bytes |
| Layout.DecodeEncodeHeader | pkg/vorteil/types.go:158-174 | decoding inverts encoding for every GPT header |
| Layout.EncodeDecodeHeader | pkg/vorteil/types.go:158-174 | encoding inverts decoding for every 512-byte sector, so no byte is lost by reading and writing a header |
| Layout.EncodeHeaderCrc | pkg/vorteil/types.go:158-174 | the header checksum is bytes 16 to 20 and changing it changes no other byte |
| Layout.EncodeHeaderBackup | pkg/vorteil/types.go:158-174 | the same for the backup LBA at bytes 32 to 40 |
| Layout.EncodeHeaderLastUsable | pkg/vorteil/types.go:158-174 | the same for the last usable LBA at bytes 48 to 56 |
| Layout.EncodeHeaderCrcParts | pkg/vorteil/types.go:158-174 | the same for the table checksum at bytes 88 to 92 |
| Layout.DecodeEncodeEntry | pkg/vorteil/types.go:194-201 | decoding inverts encoding for every partition entry |
| Layout.EncodeDecodeEntry | pkg/vorteil/types.go:194-201 | encoding inverts decoding for every 128-byte string |
| Layout.EncodeEntryUpdate | pkg/vorteil/types.go:194-201 | the last LBA of an entry is its bytes 40 to 48 and nothing else |
| Layout.DecodeEncodeMbr | pkg/vorteil/types.go:177-191 | decoding inverts encoding for every protective MBR |
| Layout.EncodeDecodeMbr | pkg/vorteil/types.go:177-191 | encoding inverts decoding for every 512-byte sector |
| Layout.EncodeMbrUpdate | pkg/vorteil/types.go:177-191 | the sector count of the MBR is its bytes 458 to 462 and nothing else |
| LayoutBytes.HeaderRead | pkg/vorteil/types.go:158-174 | every field of a header is the little-endian integer or the bytes at the offset the specification gives it |
| LayoutBytes.EntryRead | pkg/vorteil/types.go:194-201 | the same for every field of a partition entry |
| LayoutBytes.MbrRead | pkg/vorteil/types.go:177-191 | the same for every field of the protective MBR |
| GptGrow.ZeroFill | pkg/vorteil/gptutil.go:72-83 | the doubling loop leaves the whole buffer zero, for every length |
| GptGrow.GptModifier.New | pkg/vorteil/gpt.go:39-60 | a modifier is returned only with the header and size of the file as they are; on a device of two sectors or more it succeeds if and only if none of its file calls fails |
| GptGrow.GptModifier.GetGPTHeader | pkg/vorteil/gpt.go:179-193 | the header read is the one in sector 1; on a device of two sectors or more it succeeds if and only if none of its file calls fails |
| GptGrow.GptModifier.CalculateCRCs | pkg/vorteil/gpt.go:263-302 | the table checksum comes from the disk or from the primary header, and the header checksum covers the header with its checksum field zero; with the table inside the device it succeeds if and only if its read does not fail |
| GptGrow.GptModifier.FindFinalPartition | pkg/vorteil/gpt.go:312-337 | the scan finds the last entry before the first unused one, and its offset; succeeds if and only if none of its file calls fails |
| GptGrow.GptModifier.ExtendFinalPartition | pkg/vorteil/gpt.go:310-354 | one write, of the last used entry with its end moved to the last usable sector; reports the sectors added; succeeds if and only if none of its file calls fails |
| GptGrow.GptModifier.UpdatePrimaryGPTHeader | pkg/vorteil/gpt.go:200-223 | one write, of the header for the larger disk with both checksums of the extended table; succeeds if and only if none of its file calls fails |
| GptGrow.GptModifier.UpdateSecondaryGPTHeader | pkg/vorteil/gpt.go:226-261 | one write, of the backup header to the last whole sector; succeeds if and only if none of its file calls fails |
| GptGrow.GptModifier.RelocateRedundantGPTTable | pkg/vorteil/gpt.go:356-392 | 33 writes that clear the old backup area, then 32 that copy the table as it was when the method began, even where the areas overlap; a failure leaves a prefix of them; succeeds if and only if none of its file calls fails |
| GptGrow.GptModifier.UpdateMBR | pkg/vorteil/gpt.go:149-176 | one write, of the MBR with the new sector count; succeeds if and only if none of its file calls fails |
| GptGrow.GptModifier.Grow | pkg/vorteil/gpt.go:113-146 | whatever fails, the writes performed are a prefix of the plan and the disk is their replay; a success has performed the whole plan; no resize, no write; it succeeds if and only if none of its file calls fails, so no offset of a resize leaves the device |
| GptGrow.GrowDisk | pkg/vorteil/disk.go:151-184 | one boot ends in the state that the resize prescribes, or in a prefix of it; it succeeds if and only if the device has two sectors and none of its file calls fails |
| GptGrow.BlocksFit | pkg/vorteil/disk.go:184-191 | the blocks asked for fit into the partition and waste less than one block and one sector |
| GptSafety.Geometry | pkg/vorteil/gpt.go:195-206 | on a growable disk no computation wraps; a resize moves the last usable sector and the backup header strictly up |
| GptSafety.StampIntact | pkg/vorteil/gpt.go:287-301 | a header filled in by the program satisfies the byte-level definition of a valid header checksum |
| GptSafety.PrimaryIntact | pkg/vorteil/gpt.go:200-223 | after the second write the primary copy is self-consistent for the larger disk |
| GptSafety.CrashSafety | pkg/vorteil/gpt.go:113-146 | after every prefix of the single-sector writes the old backup copy (at most one write) or the primary copy (from the second on) is self-consistent |
| GptSafety.FinalConsistency | pkg/vorteil/gpt.go:113-146 | after a complete resize both copies are self-consistent, name each other, have equal tables, the backup area is the last 33 whole sectors, and no further resize is wanted; no checksum and no backup copy need have been right before |
| GptSafety.FinalValid | pkg/vorteil/gpt.go:113-146 | a resized disk is again a valid disk |
| GptSafety.FinalBackupTable | pkg/vorteil/gpt.go:356-392 | the new backup table is the extended table, although the old backup area was cleared after the new backup header was written |
| GptSafety.OldBackupCleared | pkg/vorteil/gpt.go:362-373 | every byte of the old backup area is zero after a complete resize, except where the new area overlaps it |
| GptSafety.DataUntouched | pkg/vorteil/gpt.go:113-146 | no byte of the old data area, of the space between the backup areas or of a last partial sector changes |
| GptSafety.MetadataFrame | pkg/vorteil/gpt.go:149-223 | MBR, table and primary header change in the named fields only, byte for byte |
| GptSafety.PartitionsKept | pkg/vorteil/gpt.go:310-354 | disjoint partitions inside the usable range stay so, all but the last are identical, the last grows by exactly the positive reported number of sectors |
| GptSafety.CrashThenReboot | pkg/vorteil/gpt.go:113-117 | after a crash the next boot completes the resize to the same final disk if and only if at most one write was performed, and otherwise changes nothing |
| GptSafety.RepairedByNextResize | pkg/vorteil/gpt.go:113-146 | a disk left without a valid backup by a late crash is valid again after its next resize |
| GptLateCrash.PrimaryThroughout | pkg/vorteil/gpt.go:113-146 | whatever the backup copy is like, a resize keeps an intact primary copy intact after every number of writes but one, and after one write it is intact if and only if the extended table has the checksum of the old one |
| GptLateCrash.SecondCrash | pkg/vorteil/gpt.go:113-146 | on a disk that a late crash left without a valid backup, the next resize may be cut short too: that is fatal exactly after one write that changes the checksum of the table |
| GptSafety.BootValid | pkg/vorteil/disk.go:151-168 | a boot keeps a valid disk valid, leaves nothing to resize and keeps the data |
| GptSafety.LifeValid | pkg/vorteil/disk.go:151-168 | over any series of enlargements and boots the disk stays valid and keeps the data area it started with |
| GptSafety.LifeCrashSafety | pkg/vorteil/gpt.go:113-146 | at any point of such a life a resize may be cut short after any write and the disk is recoverable |
| GptSafety.MbrSectorsExact | pkg/vorteil/gpt.go:163 | the MBR gets the size the specification asks for if and only if the disk has at most 2^32 sectors or a multiple of 2^32 |
| GptSafety.MbrSectorsWrapped | pkg/vorteil/gpt.go:163 | a disk of 2^32 + 1 sectors is recorded with size zero |
| GptWitness.SmallDiskMeets | pkg/vorteil/types.go:158-201 | a concrete disk image meets the conditions of the final-state lemmas |
| GptWitness.ValidDiskExists | pkg/vorteil/gpt.go:113-146 | for every checksum there is a valid disk that wants to grow, so the crash-safety lemmas are not about nothing |
| Lifecycle.CountRunning | pkg/vorteil/process.go:222-247 | the count is zero exactly when every process in the table has a pid or a parent up to 2 or is chronyd or fluent-bit, and no program is counted |
| LifecycleSafety.UndisturbedScan | pkg/vorteil/process.go:235-247 | a scan that nothing disturbs finds zero exactly when the programs it reads are not counted |
| LifecycleRounds.ForeignKeepsRunning | pkg/vorteil/process.go:226-257 | a handleExit that has met a foreign process does not call shutdown, on any schedule, until it begins again |
| LifecycleSafety.AfterEvolves | pkg/vorteil/launch.go:103-213 | a step of launcher, process, reaper or waiter never makes a finished program unfinished, nor changes a recorded end |
| LifecycleSafety.StepKeepsInv | pkg/vorteil/process.go:95-257 | every step of every goroutine keeps the invariant |
| LifecycleSafety.RunKeepsInv | pkg/vorteil/process.go:95-257 | the invariant holds after every schedule |
| LifecycleSafety.SafePowerOff | pkg/vorteil/process.go:222-257 | whenever a handleExit calls shutdown, every configured program was started and its exit status collected, although programs are read one at a time |
| LifecycleSafety.FailedKeepsRunning | pkg/vorteil/launch.go:703-720 | after every schedule, if a program could not be started, no handleExit has called shutdown or is about to |
| LifecycleSafety.SkippingIsHarmless | pkg/vorteil/process.go:105-107 | a shutdown that skips the terminate signals never skips a running program |
| LifecycleSafety.PowerOffExactly | pkg/vorteil/launch.go:103-121 | when all scans that follow a collection have run, and none begun while no program was counted met a foreign process, handleExit has called shutdown if and only if each program exited normally and was collected by Wait, or was reaped and its pid delivered when its handle was recorded |
| LifecycleSafety.DeliveryExactly | pkg/vorteil/launch.go:664-672 | after every schedule a program is marked as reaped if and only if its pid was delivered while its handle was recorded, and is missed for good if and only if it was delivered before |
| LifecycleSafety.StuckStays | pkg/vorteil/launch.go:664-672 | a reaper loop or listener that has called shutdown never returns, on any schedule, and delivers nothing more |
| LifecycleSafety.ShutdownCount | pkg/vorteil/process.go:95-101 | the callers past the guard of shutdown are exactly those that raced through it, one per power-off undone by the main routine (at most two), and one if a power-off stands; after Launch wrote its status at most one more without a race |
| LifecycleStory.ThreeShutdowns | pkg/vorteil/launch.go:722 | three shutdowns without a race do happen, by the power button, a signal and the guest tools in turn |
| LifecycleRace.RacersAllShutDown | pkg/vorteil/process.go:97-101 | for any programs there is a schedule on which nobody but the waiters runs handleExit or calls shutdown, and its body is executed once for each program, so "at most once" is false of the code |
| LifecycleRest.ComesToRest | pkg/vorteil/launch.go:103-121 | every run can be brought to a quiet state by steps that only finish what has begun: waiters, deliveries, scans and callers in the guard; who passed the guard stays inside, and what a stuck reaper loop leaves undelivered concerns none of the programs |
| LifecycleRest.DecidedAtRest | pkg/vorteil/process.go:222-257 | and there it is decided, unless a scan begun while no program was counted met a foreign process: shutdown was called if and only if each program left a trace |
| LifecycleRounds.TerminationRound | pkg/vorteil/process.go:138-178 | each registered program gets its configured signal once or not at all; one whose goroutine found it finished has exited normally; "applications terminated" means that each has ended and was found finished by its goroutine, or was sent its signal and closed its exit channel; no exit channel is closed twice |
| LifecycleRounds.RoundMisses | pkg/vorteil/launch.go:641-651 | a round addresses exactly the programs registered when it reads the map; the running programs it misses are exactly those forked and not yet registered |
| LifecycleRounds.CheckExactly | pkg/vorteil/process.go:148-160 | on every schedule a goroutine of the round skips its program if and only if a normal exit of it is recorded, and otherwise sends it the configured signal, once |
| LifecycleRounds.InstantExactly | pkg/vorteil/process.go:105-107 | a shutdown skips the terminate signals if and only if the flag is set when it reads it; otherwise it addresses exactly the registered programs |
| LifecycleRounds.InstantOnlyByScan | pkg/vorteil/process.go:248-257 | only a scan that has found nothing running sets that flag, and nothing clears it |
| LifecycleRounds.MarksOnlyBeforePowerOff | pkg/vorteil/process.go:249-255 | a scan goes on to set it only if it has read all programs, found none running, and the machine is not powering off; it calls shutdown without setting it only if the machine is |
| LifecycleStory.PowerOffHappens | pkg/vorteil/process.go:222-257 | on a concrete schedule the machine powers off by itself after its one program has ended |
| LifecycleStory.FailureLaunches | pkg/vorteil/launch.go:713-722 | on a concrete schedule a program fails with its command set, and the launched status is written all the same |
| LifecycleStory.ReapedPowersOff | pkg/vorteil/launch.go:664-672 | on a concrete schedule the reaper is faster than Wait, the program has no recorded end, and the machine powers off by itself all the same |
| PostSetup.PhaseIsSafe | pkg/vorteil/vinitd.go:416-506 | in every interleaving the wait group stays non-negative, logging starts only after the metadata step, and the main routine goes on as if all were well only if no task fails |
| PostSetup.PhaseCompletes | pkg/vorteil/vinitd.go:416-506 | a run that cannot go on has succeeded if and only if no task fails, powers off if and only if one does, and has died of a send on the closed error channel if and only if both do; the metadata goroutine stays blocked exactly when logging does not wait for it |
| PostSetup.NoDeadlock | pkg/vorteil/vinitd.go:431-500 | until the main routine has gone on some goroutine can move |
| PostSetup.Completion | pkg/vorteil/vinitd.go:431-500 | every state can be run to one in which nothing can move |
| Tclo.Alternation | pkg/vorteil/vmtools.c:151-253 | between two successive polls of a channel the guest sends exactly once, or not at all after a failed address lookup |
| Tclo.FirstPoll | pkg/vorteil/vmtools.c:166-184 | between an open and the first poll the guest sends the reset reply and nothing else |
| Tclo.CommandWasFetched | pkg/vorteil/vmtools.c:213-219 | a command is the text before the first NUL of the data that was fetched just before |
| Tclo.AnsweredBeforePoll | pkg/vorteil/vmtools.c:219-253 | every command is answered with the reply that belongs to it before the next poll |
| Tclo.RpciNested | pkg/vorteil/vmtools.c:467-509 | an RPCI channel is closed before the next call on the TCLO channel |
| Tclo.RpciCarriesRequest | pkg/vorteil/vmtools.c:467-509 | what is sent on an RPCI channel is the request it was opened for, on the handle it was given |
| Tclo.RpciErrand | pkg/vorteil/vmtools.c:467-509 | between its open and its close an RPCI channel sends its request, polls if that succeeded, fetches the response, cut to the buffer, if one is there, and does nothing else |
| Tclo.FaultCloses | pkg/vorteil/vmtools.c:228-233 | after a failure that costs the channel it is closed before anything is polled again |
| Tclo.ClosedForCause | pkg/vorteil/vmtools.c:228-233 | the channel is closed only for such a failure since the last close |
| Tclo.FaultOnRecord | pkg/vorteil/vmtools.c:166-233 | while the channel is kept, the automaton's record of a fault is up exactly if one of the calls was such a failure |
| Tclo.FollowsIsDisciplined | pkg/vorteil/vmtools.c:151-253 | a trace that follows the protocol has all of these properties at every place, those of the RPCI channels included |
| Tclo.RepliesAre | pkg/vorteil/vmtools.c:135-149 | the reply to each of the nine known commands |
| Tclo.UnknownReply | pkg/vorteil/vmtools.c:219-224 | any other text is answered as an unknown command |
| Tclo.CStringIs | pkg/vorteil/vmtools.c:246 | the command in received data is the text before its first NUL |
| VmTools.Tools.constructor | pkg/vorteil/vmtools.c:255-268 | the initial state is one the loop may start from, with no call made |
| VmTools.Tools.RpcOpen | pkg/vorteil/vmtools.c:285-310 | success if and only if the high half of ecx is 1 and the low half of edx is 0 in the answer of the host, and the handle is the high half of edx, esi and edi |
| VmTools.Tools.RpcSend | pkg/vorteil/vmtools.c:317-360 | success if and only if the lowest bit of the high half of ecx is set in the answer to the length, and, for a non-empty payload, ebx is 0x10000 in the answer to the data; one send on this handle |
| VmTools.Tools.RpcGetLength | pkg/vorteil/vmtools.c:362-391 | success if and only if the lowest bit of the high half of ecx is set; the length is ebx if the second bit is set too, and zero otherwise |
| VmTools.Tools.RpcGetData | pkg/vorteil/vmtools.c:393-437 | the bytes of the host are in the buffer with a NUL behind them, inside it; success if and only if ebx is 0x10000 in the answer to the data and the high half of ecx is not 0 in that to the acknowledgement |
| VmTools.Tools.RpcClose | pkg/vorteil/vmtools.c:439-457 | one close of this handle |
| VmTools.MessagesAre | pkg/vorteil/vmtools.c:584-590 | the message that reports each of the five changes of state, and one example of each other message |
| VmTools.Tools.CloseTclo | pkg/vorteil/vmtools.c:439-465 | one close, after which handle and ping flag are zero whatever the host answered |
| VmTools.Tools.SendRpciBuf | pkg/vorteil/vmtools.c:467-509 | one request, with the bytes that were in the buffer, on a channel of its own that is closed again whatever happens; it fails if any part of it fails, succeeds with a host that grants everything, and the long-lived channel stays as it was |
| VmTools.Tools.SendRpci | pkg/vorteil/vmtools.c:528-543 | a message that fits is requested as it is, one that does not fit is not requested and fails |
| VmTools.Tools.Process | pkg/vorteil/vmtools.c:241-253 | the requests made are the ones that belong to the command, in order; the command is answered, or left unanswered after a failed lookup; the error flag is raised exactly if one of the calls failed for which the channel has to go |
| VmTools.Tools.OsCommand | pkg/vorteil/vmtools.c:592-603 | power-on, halt, reboot, resume and suspend each report their state code and answer; resume reports the guest first; only power-on changes the delay |
| VmTools.Tools.CapReg | pkg/vorteil/vmtools.c:550-582 | the three capability requests are made in order, then the command is answered |
| VmTools.Tools.Reset | pkg/vorteil/vmtools.c:511-526 | the branch that closes the channel is never taken; the reset reply is sent |
| VmTools.Tools.BroadcastIp | pkg/vorteil/vmtools.c:688-712 | a failed lookup is the last call of the handler; after a successful one the address found is reported if it fits and the command answered |
| VmTools.Tools.Ping | pkg/vorteil/vmtools.c:620-629 | uptime if it fits, then the guest information, then the answer |
| VmTools.Tools.UpdateGuestInfo | pkg/vorteil/vmtools.c:631-686 | host name if it fits, one network message of the size for the number of cards, and, the first time only, the two names of the system; the command is still to be answered afterwards |
| VmTools.Tools.ReportCards | pkg/vorteil/vmtools.c:638-672 | one message of the size for the number of cards under its key, whose failure is not looked at |
| VmTools.Tools.EnsureOpen | pkg/vorteil/vmtools.c:166-184 | a closed channel is opened and introduced with delay zero, or left closed with a delay of 15, or broken with the error flag; an open one is left alone |
| VmTools.Tools.Receive | pkg/vorteil/vmtools.c:194-219 | a command is received with room for its NUL, and the text in the buffer is that of the data the host sent; or nothing was there, or the channel is broken with the error flag |
| VmTools.Tools.Round | pkg/vorteil/vmtools.c:157-236 | every round extends the conversation as the protocol demands and leaves no error pending; its last call closes the channel if and only if one of its calls failed for which the channel has to go, and no other call closes it; without a channel it begins by opening one; a round that ends with a channel has polled it; the delay is the one left by the round before, or zero without a channel, and always a multiple of 5 up to 5000; the requests made are exactly those that belong to the command received, and none without one; the next delay is 5000 after a power-on command, else 0 or 15 after an open that succeeded or failed, else 5 more up to 5000; with a host that grants everything no error is raised and the channel is open afterwards |
| VmTools.Tools.Loop | pkg/vorteil/vmtools.c:151-239 | any number of rounds extend the conversation, at least one call a round, and the whole of it alternates sends and polls, answers every command, closes the channel after every failure that costs it and for no other reason, and keeps every RPCI channel to its request and inside its command; with a host that grants everything the channel is never closed |
| Substitution.OrderIndependent | pkg/vorteil/launch.go:521-526 | every iteration order of the map gives the one-pass simultaneous substitution, if names and values are plain and no dangling '$' can be completed |
| SubstitutionExact.OrderIrrelevantExactly | pkg/vorteil/launch.go:521-526 | where names and values are plain that condition is necessary and sufficient, for every argument |
| SubstitutionExact.SameOrApart | pkg/vorteil/launch.go:521-526 | replacing two unrelated variables in one order or the other gives the same text, or texts that have come apart: one is ahead by segments the other cannot make up, or they differ in a segment counted from the right |
| SubstitutionExact.StaysApart | pkg/vorteil/launch.go:521-526 | texts that have come apart stay apart, whatever stands in front of them |
| Substitution.SeparatedIsSettled | pkg/vorteil/launch.go:521-526 | a condition on the text alone that suffices, met in particular when every '$' starts a variable |
| Substitution.OrderMattersForValues | pkg/vorteil/launch.go:521-526 | with a '$' in a value two orders differ |
| Substitution.OrderMattersForPrefixes | pkg/vorteil/launch.go:521-526 | with a name that begins another two orders differ |
| Substitution.OrderMattersForDangling | pkg/vorteil/launch.go:521-526 | with plain names and values two orders still differ on a dangling '$' |
| Substitution.ReplaceAllIs | pkg/vorteil/launch.go:524 | a text cut at the leftmost occurrences of the pattern comes back with the replacement in their place |
| Substitution.Cut | pkg/vorteil/launch.go:524 | every text can be cut like that |
| Substitution.OnePass | pkg/vorteil/launch.go:521-526 | the one-pass substitution keeps text without '$', puts the value in place of a variable and keeps a '$' that no name follows |
| Substitution.SplitsAtFirst | pkg/vorteil/launch.go:517-518 | a definition is its name, the first '=' and its value, and no other name |
| Substitution.ReadEnv | pkg/vorteil/launch.go:512-519 | the map holds exactly the names before the first '=' of some entry, each with the text behind it in the last entry of that name |
| Substitution.Args | pkg/vorteil/launch.go:508-530 | each argument is the original with all variables replaced in some order, and in one pass where the order is irrelevant |
| Hostname.CleanElement | pkg/vorteil/network.go:783-801 | a label loses its leading illegal bytes and has every other one replaced by a dash; it fails exactly when it has no legal byte |
| Hostname.ValidateHostname | pkg/vorteil/network.go:764-808 | the loops compute the label-by-label rewrite, with the error and the index panic exactly where they occur |
| HostnameMeaning.PieceIs | pkg/vorteil/network.go:783-801 | what a label contributes, byte by byte: a dot unless it is the first, then its bytes from the first legal one on, each illegal one a dash |
| HostnameMeaning.Rewritten | pkg/vorteil/network.go:764-815 | the name of any labels joined by dots, less one leading dash, is the first 64 bytes of what the labels contribute |
| HostnameMeaning.NothingLegal | pkg/vorteil/network.go:783-801 | a non-empty label without a legal byte is an index out of range |
| HostnameMeaning.ByteByByte | pkg/vorteil/network.go:764-815 | where every label begins with a legal byte, only the first may be empty and there is no leading dash, a name of at most 64 bytes stays as it is but for a dash in place of every illegal byte |
| Hostname.HostnameIsLegal | pkg/vorteil/network.go:764-815 | the result has only legal bytes and single dots, is at most 64 bytes and never longer than the input |
| Hostname.FixedPoints | pkg/vorteil/network.go:764-815 | a name is left as it is if and only if it is legal, has no adjacent dots, no leading dash, no trailing dot and at most 64 bytes |

## Left out

- `addPartition` (pkg/vorteil/gpt.go:63-110), which nothing calls.
- The resize ioctls, file system detection and everything after the block count in `growDisk`; the block size is a parameter.
- A primary copy that is damaged already when a resize is cut short before its second write.
- Writes of the medium that are not atomic per sector.
- Lifecycle: `killAll`, the sync and reboot calls at the end of `shutdown`, and the exact error path through `SystemPanic`, which is an outside call of `shutdown` here.
- Lifecycle: the goroutines and globals are a step system over values, not a class, because what matters is the interleaving; concurrent access to the Go map of terminate signals is a snapshot.
- PostSetup: what `SystemPanic` does after the error channel is closed; the machine may be off before a second failing task is heard of.
- VmTools: what follows the key in the network card messages is arbitrary; the registers of a request are its kind, its number and the handle on record; `ShutdownForTools` and `RebootForTools` are not followed; `vsnprintf` does not fail.
- VmTools: the endless loop is any number of rounds.
- `envs`, whose meaning depends on the shell word parser, and the bootstrap commands, which use the same replacement.
- Host name salting and lower-casing, which happen before the rewrite.
- DHCP, DNS, NFS, NTP, logging, cloud metadata, tty, entropy and sysctl set-up: calls into libraries and the kernel.
