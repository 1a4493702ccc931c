# Verified model of OCSE

OCSE stands between a host application, linked with libocxl, and an AFU simulator, with which it exchanges clocked
packets. This project models its protocol and its engines and proves what they promise. `dafny verify dfyconfig.toml`
checks everything.

| file | what it models |
|---|---|
| `Common.dfy` | integer widths, big-endian fields, the length helpers of `common/utils.c` |
| `TlxPacket.dfy` | the two packet layouts, as written and as read |
| `TlxEvent.dfy`, `TlxInterface.dfy` | `struct AFU_EVENT`: the effect of each function of `common/tlx_interface.c`, and the object whose buffers and fields those functions update |
| `Link.dfy`, `LinkInvariant.dfy` | host, AFU driver and both wires as one system, its invariant over every run, and what each call and each clock edge stages and takes |
| `LinkCmdCredits.dfy`, `LinkAfuCredits.dfy` | conservation of the credits each side spends: ocse's for commands, spent without looking, and for configuration; the AFU's for responses and their data |
| `RdataFifo.dfy`, `Driver.dfy` | the linked response FIFO and the two clock edges of `afu_driver/src/afu_driver.c`, on the objects they update |
| `CmdEngine.dfy`, `CmdInvariant.dfy`, `CmdTheorems.dfy`, `CmdAssembly.dfy` | the command engine of `ocse/cmd.c` on values, what every handler keeps, and what follows for whole runs |
| `CmdKinds.dfy`, `CmdArrivals.dfy`, `CmdRequests.dfy`, `CmdNotices.dfy` | what a command asks for, read off its fields with the numbers of the protocol alone; that it enters the list as that, and that every request and message to an application is the one a command called for |
| `CmdBounds.dfy` | when the copies of the engine stay inside their buffers, exactly, and what an interrupt message says |
| `CmdCodes.dfy`, `CmdStalled.dfy`, `CmdInputs.dfy` | the opcode and code of every answer, the commands that never get one, and the runs that reach the failing inputs |
| `CmdLink.dfy` | engine, link and AFU driver as one system, and what a read delivers end to end |
| `CmdHandlers.dfy`, `OclLoop.dfy` | the same handlers on cells, pointers and clients, and their order in `ocse/ocl.c` |
| `PageCache.dfy` | the page cache of `ocse/cmd.c` |
| `Mmio.dfy`, `ConfigWalk.dfy`, `Clients.dfy` | host requests, range allocation and client slots of `ocse/mmio.c` and `ocse/ocse.c` |
| `Lpc.dfy`, `EventQueue.dfy` | the edges of libocxl |

Code that updates objects is a class whose methods are proved against functions on values; the theorems about those
functions then hold of the objects. Ghost fields record history (answers sent, beats copied, bytes returned, the
command as it came, payloads, arrivals). Every `allow_*` call is a free choice and the wires are sequences of whole
packets.

What is assumed, each as a precondition in the model:

- The AFU returns a response credit only for a response it holds, returns none while in reset, and asks for no more
  lines than have been delivered (`Link.AfuBehaves`).
- Clients stay valid, their sockets accept what is written, and an application answers a read with as many bytes as
  were asked for (`CmdTheorems.BytesAsked`).
- Driving and clock edges of the link model alternate strictly. The driver skips both while the delayed reset
  `c_reset_d4` holds (`afu_driver/src/afu_driver.c` lines 389 and 986-989), so the model covers the time outside it.
- A pass of the engine starts with waiting interrupts that fit their message, and the command it comes to accept is no
  interrupt that does not (`OclLoop.InterruptsFit`): past a copy outside a buffer the code has no defined behaviour.
- The AFU answers a host request completely (`Mmio.MmioEvent.CompleteResponse`), as the limitations in the
  repository's own README.md (line 53) say.

Where the code does less than it promises, the model follows the code:

- With `HOST_CL_SIZE` 64 a refused continuation still advances `resp_dp`, so the next part names the wrong quarter.
  `CmdTheorems.SplitTiles` gives the exact condition, `CmdTheorems.RefusalSkipsPart` the input.
- LPC addresses travel as 32 bits. `Lpc.AddressedExactly` gives the exact condition, `Lpc.StraysOutside` the byte that
  goes astray. README.md (line 52) asks for aligned offsets and sizes; the code serves any, and the proofs cover any.
- `pp_mmio_stride * context` wraps at 32 bits. `Clients.IsolatedExactly` gives the exact condition.
- An interrupt with data and a `pl` that stands for no size is accepted with size 65535, which `handle_interrupt`
  copies out of 256 bytes into 45. `CmdBounds.OverrunExactly` gives the exact condition,
  `CmdBounds.LongInterruptOverruns` the input.
- A data beat that arrives with a NOP, an unsupported opcode, a duplicate tag, an actag no client has, or a misaligned
  or badly sized write or AMO is dropped, even when it belongs to the write being assembled. `CmdAssembly.KeepsBeat`
  is the exact condition, proved both ways by `CmdAssembly.CmdBeside`; `CmdAssembly.NopDropsBeat` is an input.
- `function_actag_length_enabled` is added to without being set first. `ConfigWalk.FunctionRangeExact` is exact.
- `handle_aerror` keeps the opcode of success; `_add_amo` fails an amo_rd with a write's opcode in the default case of
  its `pl` check, and gives amo_rd.n (0x3c) the write opcodes when misaligned or carried out. An AFU that believes
  READ_RESP then asks for lines that never come, which `Link.AfuBehaves` assumes away. `CmdCodes.RightOpcodeExactly`
  gives the exact condition; `CmdCodes.DeniedRead`, `CmdCodes.MisjudgedAmo` and `CmdCodes.AmoReadAsWrite` are inputs.
- A write or AMO gets the beat that came with it or none. Without one, or while another write is being assembled, it
  enters MEM_IDLE and no handler ever selects it; amo_rd, which brings no data, is such a command.
  `CmdStalled.StallsExactly` gives the exact condition, `CmdStalled.StalledForever` the consequence,
  `CmdStalled.SecondWriteStalls` and `CmdStalled.AmoReadStalls` inputs.
- `tlx_afu_send_cmd` does not test its credit. `LinkCmdCredits.StepPool` says exactly when the counter wraps, and
  `LinkCmdCredits.CmdCreditsConserved` what is conserved all the same.
- A response, or a beat of response data, that ocse has not read when the AFU's next packet comes is overwritten, and
  the AFU never gets its credit back. `LinkAfuCredits.AfuCreditsConserved` counts exactly those.
- An interrupt with data is passed on whether or not its beat came with it; without it the application is told zeros.
  `CmdNotices.BeatExactly` gives the exact condition, `CmdNotices.BeatComesLate` the input.
- The sixteen operand bytes of an AMO, and the data of an interrupt, are taken from behind the line where the address
  leads there, and are zeros there: `CmdRequests.RequestFor`, `CmdNotices.NoticeFor`.
- A read that the AFU fails without data leaves the head of the host request queue waiting for a beat.
  `Mmio.ReadDoneExactly` says exactly when the head is done, `Mmio.FailedReadWaits` is the input.

## Model

| member | source | states |
|---|---|---|
| `Common.LengthHelpersAgree` | common/utils.c:359-475 | for every supported dl, size_to_dl undoes dl_to_size, and both length decodings describe the same number of 64-byte lines |
| `Common.BigEndianRoundTrip` | common/tlx_interface.c:1022-1031 | reading a big-endian field of k bytes gives back every value that fits k bytes |
| `Common.RdCntTable` | common/utils.c:475-498 | the read count a 3-bit field stands for, by its table |
| `CmdKinds.SizesArePowers` | common/utils.c:359-475 | dl_to_size and pl_to_size give the powers of two their tables list, or -1 |
| `TlxPacket.HostPacketRoundTrip` | common/tlx_interface.c:980-1131 | for every combination of groups and every field value: the packet is one the receiver takes whole (its computed length is the packet's), has at most 1070 bytes, is one byte exactly when no group is valid, and parses to the groups sent cut to their declared widths, unchanged if and only if all fields are within width |
| `TlxPacket.AfuPacketRoundTrip` | common/tlx_interface.c:1136-1296 | the same for the other direction |
| `TlxPacket.HostHeaderPresence` | common/tlx_interface.c:1607-1700 | the header byte tells exactly which groups follow |
| `TlxInterface.HostHeaderBuilt` | common/tlx_interface.c:1000-1131 | setting one flag per packed group gives the header of the layout |
| `TlxInterface.AfuEvent.SignalAfuModel` | common/tlx_interface.c:980-1131 | sends the layout's packet and clears what it sent, or refuses and changes nothing when the clock is not held |
| `TlxInterface.AfuEvent.SignalTlxModel` | common/tlx_interface.c:1136-1296 | the AFU's transmission: the layout's packet when the clock is held, nothing otherwise |
| `TlxInterface.AfuEvent.GetTlxEvents` | common/tlx_interface.c:1607-1891 | on every whole packet the AFU transmits first, then takes exactly the groups the layout holds and counts each returned credit in its own counter, modulo 256; over runs LinkAfuCredits.AfuCreditsConserved and LinkInvariant.CreditConservation pin all four counters |
| `TlxInterface.AfuEvent.GetAfuEvents` | common/tlx_interface.c:1308-1600 | on every whole packet the host takes exactly the groups the layout holds, stages a credit per command and data beat, and counts returned credits |
| `TlxEvent.CountedOnce` | common/tlx_interface.c:1438-1502 | a credit the AFU returns is counted once: its flag is cleared, and only the counters of the flags set go up, by one |
| `TlxInterface.AfuEvent.SendResp` | common/tlx_interface.c:380-410 | guarded by credit, then by a response already staged; otherwise stages it and takes one credit |
| `TlxInterface.AfuEvent.SendRespAndData` | common/tlx_interface.c:447-498 | as SendResp, with the slice of the data buffer that dp and dl select |
| `TlxInterface.AfuEvent.SendCmd` | common/tlx_interface.c:531-655 | staged unless one already is; the credit counter is decremented modulo 256 whatever its value |
| `TlxInterface.AfuEvent.SendCfg` | common/tlx_interface.c:669-735 | refused when one is staged, when it is no configuration opcode or without credit, in that order; a write of four bytes goes out with its own data, any other write with filler, a read with whatever the bus held |
| `TlxEvent.FillerIsDead` | common/tlx_interface.c:669-735 | a configuration write of other than four bytes, and a configuration response that brings no data, carry 'dead' |
| `TlxEvent.RefusedFor` | common/tlx_interface.c:380-786 | why each call is refused, in the order the source tests, each error if and only if its reason applies |
| `LinkInvariant.HostStages` | common/tlx_interface.c:380-735 | in every run what ocse hands to a call is staged as it is, bytes and bdi included, exactly when its credit is there and nothing of its kind is staged; nothing else staged changes |
| `TlxInterface.AfuEvent.ReadCfgResp` | common/tlx_interface.c:742-786 | takes a configuration response only with the expected tag, with a different error for none and for another's, stages its acknowledgement, and hands out data for a successful read only |
| `TlxEvent.ReadsTake` | common/tlx_interface.c:832-975 | what ocse reads is what the AFU sent, whole, and only that group is gone afterwards |
| `TlxInterface.AfuEvent.ReadCmdAndData` | common/tlx_interface.c:885-941 | takes the command with the data beat that came with it |
| `TlxInterface.AfuEvent.ReadResp` | common/tlx_interface.c:832-853 | takes a response and stages its credit |
| `TlxInterface.AfuEvent.ReadRespData` | common/tlx_interface.c:859-879 | takes a data beat and stages its credit |
| `TlxInterface.AfuEvent.HostReadInitialCredits` | common/tlx_interface.c:343-373 | takes the AFU's grant once it has come |
| `TlxInterface.AfuEvent.AfuReadInitialCredits` | common/tlx_interface.c:1916-1947 | takes ocse's grant once it has come |
| `TlxInterface.AfuEvent.AfuSendCmd` | common/tlx_interface.c:2114-2161 | guarded by credit, then by a command already staged |
| `TlxInterface.AfuEvent.AfuSendCmdData` | common/tlx_interface.c:2166-2190 | guarded by credit only |
| `TlxInterface.AfuEvent.AfuSendRespAndData` | common/tlx_interface.c:2021-2065 | needs both credits and both places, and takes both |
| `TlxInterface.AfuEvent.AfuSendCfgResp` | common/tlx_interface.c:2072-2109 | staged unless one is; filler takes the place of data a response does not bring |
| `LinkInvariant.StepInv` | common/tlx_interface.c:984-1144 | every call of ocse, every transmission and reception and every clock edge of the driver keeps the whole link invariant |
| `LinkInvariant.RunInv` | ocse/ocl.c:286-301 | so it holds in every state of every run from start-up |
| `LinkInvariant.ClockLockstep` | common/tlx_interface.c:1335-1342 | in every reachable state there is exactly one clock token, each wire holds at most one packet, neither side has anything staged that an arriving packet could overwrite, and a received response has been taken before the AFU's next packet |
| `LinkInvariant.CreditConservation` | common/tlx_interface.c:1438-1502 | in every reachable state, for AFU commands, AFU command data and host responses: credits free, staged, in packets, held and on their way back add up to the grant, so no counter passes it or wraps |
| `LinkInvariant.ReadDataInOrder` | afu_driver/src/afu_driver.c:717-793 | in every reachable state the lines driven to the AFU are a prefix of the response payloads accepted from ocse, and the rest is in flight, in order |
| `LinkInvariant.DriveCmdDataInv` | common/tlx_interface.c:2166-2190 | the unguarded command data call never overwrites a beat, because each clock edge empties the place |
| `LinkCmdCredits.StepPool` | common/tlx_interface.c:531-655 | each step changes ocse's pools of command and configuration credits by what the AFU returns less what it is handed, exactly; the command counter wraps if and only if a command is staged while it is 0, and either if and only if a credit is counted while it is 255 |
| `LinkCmdCredits.CmdCreditsConserved` | common/tlx_interface.c:531-655 | from any state after the grant is read, over every run and whatever the AFU returns, that pool and what the AFU holds keep one sum, but for 256 each time the counter wraps |
| `LinkCmdCredits.CfgCreditsConserved` | common/tlx_interface.c:669-735 | the same for configuration credits, whose counter is tested: from any state after the grant is read, over every run, the pool and what the AFU holds keep one sum but for 256 each time a returned credit finds the counter at 255; it never wraps below 0 |
| `LinkCmdCredits.StartsAtGrant` | common/tlx_interface.c:343-373 | in every run each counter of ocse starts at exactly what the AFU granted for it |
| `LinkAfuCredits.StepConserves` | common/tlx_interface.c:1860-1891 | each step keeps the pools of AFU response and response data credits, but for what the AFU's grant adds and what an unread response or beat that is overwritten takes away |
| `LinkAfuCredits.AfuCreditsConserved` | common/tlx_interface.c:1955-2065 | in every state of every run the AFU's credits for responses, and for their data, free, staged, in packets, held by ocse and on their way back, add up to the grant less one for each that ocse had not read when the next packet came |
| `LinkInvariant.HostGroupsDelivered` | common/tlx_interface.c:1607-1891 | one transmission and the clock edge that receives it hand the AFU exactly what ocse had staged, cut to width, and leave nothing behind |
| `LinkInvariant.AfuGroupsDelivered` | common/tlx_interface.c:1308-1600 | the same towards ocse; returned credits are counted on the way |
| `LinkInvariant.CatchShape` | afu_driver/src/afu_driver.c:741-790 | cutting a response's data into lines keeps every byte, in order |
| `LinkInvariant.DriveStages` | afu_driver/src/afu_driver.c:389-716 | in every run a driving edge stages what the AFU presents, as it is, if and only if the credits for it are there; a response and its data go together or not at all |
| `LinkInvariant.DriveTakes` | afu_driver/src/afu_driver.c:717-985 | in every run a driving edge takes every command, configuration command and response received, and the grant on the first edge out of reset; only data without its command is left |
| `RdataFifo.Fifo.Push` | afu_driver/src/afu_driver.c:771-791 | a cell goes to the tail of the linked list, and the tail pointer is only followed while it is not dangling |
| `RdataFifo.Fifo.Catch` | afu_driver/src/afu_driver.c:755-793 | a response adds as many 64-byte lines as its dl stands for, one for dl 0 |
| `RdataFifo.Fifo.Pop` | afu_driver/src/afu_driver.c:896-911 | one line at most leaves the head when lines are due; exactly its cell joins the freed ones, of which none is ever on the list |
| `RdataFifo.Fifo.Tick` | afu_driver/src/afu_driver.c:717-911 | one driving edge on the linked list: request counted, response caught, at most one line driven |
| `RdataFifo.LinkTicks` | afu_driver/src/afu_driver.c:717-911 | the link model's driving edge changes FIFO, count and AFU data exactly as Tick does |
| `Driver.Bfm.Drive` | afu_driver/src/afu_driver.c:389-985 | the driving edge on the driver's own event and FIFO is exactly the link model's driving edge: the state it leaves and the line it puts on the AFU's data bus |
| `Driver.Bfm.Clock` | afu_driver/src/afu_driver.c:227-249 | the rising edge on the driver's event is exactly the link model's clock edge: the state it leaves and the packet it sends |
| `CmdEngine.First` | ocse/cmd.c:1840-1853 | the scan of every handler: the first command in a state it works on, if any |
| `CmdEngine.FindByActag` | ocse/cmd.c:109-127 | the first client with the actag, or none when no client has it |
| `CmdEngine.AssignActag` | ocse/cmd.c:377-388 | the first client with the command's bdf and pasid takes the actag; every other client, and every client when none has them, is unchanged |
| `CmdInvariant.AnswerOk` | ocse/cmd.c:1826-1983 | whatever the link answers, the command selected by handle_response keeps its shape or leaves with a complete answer |
| `CmdInvariant.PartAccepted` | ocse/cmd.c:1894-1928 | an accepted part extends the answer by exactly that part, and finishes it exactly when every byte is acknowledged |
| `CmdInvariant.PartRefused` | ocse/cmd.c:1971-1981 | a refused part leaves the bytes acknowledged as they were |
| `CmdInvariant.GatherShape` | ocse/cmd.c:968-996 | one more beat extends the buffer by exactly its 64 bytes, and the write is received when its size is reached |
| `CmdInvariant.ReturnShape` | ocse/cmd.c:1636-1811 | an application's answer of the size asked for fits the buffer and leaves the command ready to be answered |
| `CmdInvariant.AskInv` | ocse/cmd.c:900-937 | a request makes its command the client's one access |
| `CmdInvariant.CmdInv` | ocse/cmd.c:693-755 | handle_cmd keeps the engine's invariant for every command, data beat, alignment and place in the list |
| `CmdTheorems.NextInv` | ocse/ocl.c:131-150 | every handler keeps it, under every choice and every outcome of a send |
| `CmdTheorems.RunInv` | ocse/ocl.c:131-150 | so it holds in every state of every run |
| `CmdTheorems.HandlersDefined` | ocse/cmd.c:944-1255 | in every state that keeps the invariant every handler copies inside its buffers and follows only pointers to commands that are there, the interrupt handler when what waits fits its message |
| `CmdBounds.NeverOutOfBounds` | ocse/cmd.c:944-1522 | so in every state of every run, whatever handler comes next, unless an interrupt with data and a pl that stands for no size has been accepted |
| `CmdBounds.AcceptedFits` | ocse/cmd.c:693-755 | handle_cmd leaves every waiting interrupt fitting its message if and only if they fitted and the command is not an accepted interrupt with data whose pl stands for no size (6 or 7) |
| `CmdBounds.OverrunExactly` | ocse/cmd.c:1421-1522 | the exact condition over every run: what waits after a command is accepted can all be passed on inside the 256-byte and 45-byte buffers if and only if that command is not such an interrupt |
| `CmdBounds.LongInterruptOverruns` | ocse/cmd.c:654-670 | the failing input, as a run: a client attaches and one intrp_req.d with pl 6 is accepted with size 65535; every unrefused handle_interrupt would copy that much |
| `CmdBounds.NoticeHeard` | libocxl/libocxl.c:266-315 | the application reads from the message exactly the kind byte, flag, address and data of the command, with at most the 32 bytes it has room for |
| `CmdTheorems.OneAccessPerClient` | ocse/cmd.c:901-940 | in every reachable state a client has at most one unanswered request, and its command is on the list in no state that handle_response or the pending handler frees |
| `CmdTheorems.OneWriteGathering` | ocse/cmd.c:162-182 | in every reachable state at most one command is in MEM_BUFFER, and dpartial and the buffer are exactly its beats so far |
| `CmdTheorems.CommandPersists` | ocse/cmd.c:1951-1969 | a command on the list is there in the next state, its answers only growing, or has just left; MEM_DONE is left only by leaving; what has left never changes or returns |
| `CmdCodes.ExactlyOnce` | ocse/cmd.c:1260-1332 | in every run a command that has left got one final response, with code 0 if and only if it did not fail, or every part of one split success, or one pending response and then its xlate_done or intrp_rdy, and nothing else; each under its tag and the one opcode that the command as it came and its outcome give |
| `CmdCodes.AnswersSized` | ocse/cmd.c:1886-1928 | in every run each answer of success says how many bytes it stands for, all of a command or one HOST_CL_SIZE of it, and brings them if and only if it answers a read |
| `CmdCodes.RightOpcodeExactly` | ocse/cmd.c:1813-1983 | in every run a command that has left was answered with the opcode its kind and outcome call for if and only if its application did not deny it and it is not an amo_rd that fails the pl check, nor an amo_rd.n that is misaligned or carried out |
| `CmdCodes.StepCodes` | ocse/cmd.c:766-1820 | every handler keeps the tie between command, outcome, opcode and code, for every choice |
| `CmdArrivals.ArrivesExactly` | ocse/cmd.c:184-240 | handle_cmd adds the staged command, for the first client with its actag and exactly at the place allow_reorder chooses, if and only if its tag is not in flight, some client has its actag, and it is no NOP or actag assignment |
| `CmdArrivals.ActagGoesTo` | ocse/cmd.c:377-388 | assign_actag gives the actag to the first client with the command's BDF and PASID, to no other, and adds no command |
| `CmdArrivals.CameAs` | ocse/cmd.c:340-570 | in every run a command that was not failed on arrival has the address its first eight bytes give, least significant first, the length its dl or pl stands for, and the tag, byte enables, flag and endianness it came with |
| `CmdArrivals.FailedOnArrival` | ocse/cmd.c:569-755 | in every run a command is failed with 0x0b if and only if its address, read so, is not a multiple of its length, and with 0x09 if and only if its dl or pl stands for no length |
| `CmdRequests.StepAsks` | ocse/cmd.c:766-940 | each handler asks, for the command it selects when its client is free and nothing refuses it, exactly what that command came for, and otherwise nothing |
| `CmdRequests.RequestsOwned` | ocse/cmd.c:1004-1255 | in every run every request made to an application is exactly the one called for by a command that came: client, tag, address, length, byte enables, flag, endianness, and the bytes of its beats; of a partial write those its address points at, of an AMO with operands the sixteen there |
| `CmdRequests.AmoReturned` | ocse/cmd.c:1763-1811 | in every run an amo_rd or amo_rw that was carried out was answered with one line that holds what its application returned, where its address says |
| `CmdNotices.StepTells` | ocse/cmd.c:1421-1475 | handle_interrupt passes on the first interrupt or wake-up that waits, unless one of its four refusals takes its place, and no other handler passes on anything |
| `CmdNotices.NoticesOwned` | ocse/cmd.c:1477-1522 | in every run every interrupt and wake-up an application is sent is exactly the one called for by a command that came: client, kind, flag, address bytes and the bytes of its beat that the address points at, zeros when no beat came with it |
| `CmdNotices.BeatExactly` | ocse/cmd.c:252-275 | an accepted interrupt with data gets its beat if and only if the beat came with it and no write was being assembled |
| `CmdNotices.BeatComesLate` | ocse/cmd.c:1421-1522 | the failing input, as a run: an interrupt with data whose beat comes on the next clock; its application is told a zero and the beat stays behind |
| `CmdCodes.RefusalCodes` | ocse/cmd.c:766-940 | of the four refusals of a request the first allowed decides the code: retry 0x02, failed 0x0e, data error 0x08, pending 0x04, which alone leaves it pending |
| `CmdCodes.InterruptRefusals` | ocse/cmd.c:1421-1475 | each code of an interrupt if and only if its refusal applies; a wake-up is never left pending and only an interrupt with data has a data error |
| `CmdCodes.CompletionCodes` | ocse/cmd.c:1260-1332 | the completion of a pending command says retry 0x02 or done 0x00, and is not sent when it is to fail |
| `CmdCodes.DeniedRead` | ocse/cmd.c:1813-1823 | a failing input, as a run: a read its application denies is answered READ_RESP with code 0x0e and no data |
| `CmdCodes.MisjudgedAmo` | ocse/cmd.c:437-481 | a failing input, as a run: an amo_rd with pl 0 is answered WRITE_FAILED |
| `CmdCodes.AmoReadAsWrite` | ocse/cmd.c:499-513 | a failing input, as a run: an amo_rd.n that is carried out brings its data back under WRITE_RESP |
| `CmdStalled.StalledForever` | ocse/cmd.c:239-275 | in every run a write or AMO that entered the list without its first beat stays there as it is, unanswered, in every later state |
| `CmdStalled.StallsExactly` | ocse/cmd.c:239-275 | handle_cmd adds such a command if and only if it accepts one that brings data, and either no beat came with it or another write was being assembled |
| `CmdStalled.StalledExactly` | ocse/cmd.c:1004-1134 | in every reachable state a command on the list is one of these if and only if no handler can ever select it and no application owes it an answer: nothing but a missing first beat leaves a command behind |
| `CmdStalled.SecondWriteStalls` | ocse/cmd.c:239-275 | a failing input, as a run: a write that comes with its beat while another is being assembled |
| `CmdStalled.AmoReadStalls` | ocse/cmd.c:1121-1134 | a failing input, as a run: an amo_rd that comes without data |
| `CmdTheorems.NeverEarly` | ocse/cmd.c:1951-1969 | a command still on the list has been answered nothing, or pending only, or a proper part of a split success whose acknowledged bytes resp_bytes_sent counts |
| `CmdTheorems.SplitTiles` | ocse/cmd.c:1894-1908 | in every run the parts of a finished split answer cover [0,size) in order without gap or overlap if and only if no part's dp was displaced: always for HOST_CL_SIZE 128 or without refusals, and for 64 exactly when the refused continuations before each part are a multiple of four |
| `CmdTheorems.RefusalSkipsPart` | ocse/cmd.c:1901-1904 | the failing input: with 64-byte parts one refused continuation of a 128-byte read sends its second half with dp 2 |
| `CmdTheorems.SplitReadData` | ocse/cmd.c:1886-1928 | in every run, under that condition, the payloads of a finished split read concatenate to the data read |
| `CmdTheorems.WholeReadData` | ocse/cmd.c:1912-1928 | an unsplit full read carries all of its data |
| `CmdTheorems.ReadStored` | ocse/cmd.c:1636-1685 | what the application returns for a read is stored where its address says, the start of the buffer for a full read |
| `CmdTheorems.ReadReturned` | ocse/cmd.c:1636-1928 | in every run a full read that has been answered, whole or in parts whose dp was kept, sent exactly the bytes its application returned; a partial read sent them at their place in a 64-byte line |
| `CmdTheorems.StepChanges` | ocse/ocl.c:131-150 | each handler leaves the list alone, moves one command on, completes one, or adds one under a new tag, and a message the link accepted enters the history of exactly the command it answers |
| `CmdLink.CallsOnLink` | ocse/cmd.c:1826-1983 | the calls a handler makes have exactly its effect on the link's event, and put exactly the data of an accepted message behind the payloads sent so far |
| `CmdLink.SystemRunInv` | ocse/ocl.c:286-301 | in every state of every run of engine, link and AFU driver together both invariants hold, the two agree on the command and beat staged, and the link's payload stream is the data of the messages accepted |
| `CmdLink.EngineRun` | ocse/ocl.c:131-150 | a run of engine, link and AFU driver together is a run of the engine, so every theorem about those holds in it |
| `CmdLink.SystemInBounds` | ocse/ocl.c:131-150 | in every such run without an interrupt too long for its message, every handler that comes next is possible as soon as ocse holds the clock and its outcome is the link's |
| `CmdLink.EndToEnd` | ocse/ocl.c:286-301 | in every state of every such run the lines driven to the AFU are a prefix of the data of the messages accepted and the rest is in flight in order; the answers in the histories of all commands are those messages, each history a subsequence |
| `CmdLink.ReadEndToEnd` | ocse/ocl.c:286-301 | in every such state a full read that has been answered put into those messages exactly the bytes its application returned, under READ_RESP, code 0 and its tag, while every dp was kept |
| `CmdAssembly.CmdBeside` | ocse/cmd.c:569-690 | handle_cmd never touches a write being assembled, and keeps its next beat staged exactly under KeepsBeat |
| `CmdAssembly.WriteStarts` | ocse/cmd.c:252-275 | a long write arriving alone starts with exactly its first beat |
| `CmdAssembly.StepBeside` | ocse/ocl.c:131-150 | no other handler touches it or the staged signals |
| `CmdAssembly.NopDropsBeat` | ocse/cmd.c:944-1000 | the failing input: of two beats on successive clocks the first comes with a NOP; it is dropped and the second takes its place in the write |
| `CmdAssembly.PassGathers` | ocse/cmd.c:944-1000 | one clock adds exactly the beat that came, if one came and was kept |
| `CmdAssembly.VisitsBeside` | ocse/ocl.c:316-343 | applications that answer or attach between two passes leave a write being assembled alone |
| `CmdAssembly.BeatsGather` | ocse/cmd.c:944-1000 | over any number of rounds of the loop, with idle clocks, overlapping commands, and answers and new clients after each pass, the write gains exactly the beats that came, in order |
| `CmdAssembly.WriteAssembled` | ocse/cmd.c:944-1000 | on its last beat, after any such rounds, the write is received, its data all beats in order |
| `CmdAssembly.RequestBytes` | ocse/cmd.c:1062-1092 | the write request carries those bytes, or of a partial write the part its address selects, which stays inside the line |
| `CmdHandlers.CmdEvent.Advance` | ocse/cmd.c:1894-1947 | the fields handle_response changes before it tries to send |
| `CmdHandlers.CmdEvent.TakeFirst` | ocse/cmd.c:252-268 | the first beat and the state it puts the command in |
| `CmdHandlers.CmdEvent.TakeNext` | ocse/cmd.c:968-990 | a further beat at dpartial |
| `CmdHandlers.CmdEvent.Return` | ocse/cmd.c:1763-1811 | the answer of the application, stored by type |
| `CmdHandlers.Cmd.Free` | ocse/cmd.c:1965-1969 | unlinking a cell is safe when no client points at it; the others keep their cells |
| `CmdHandlers.Cmd.HandleResponse` | ocse/cmd.c:1826-1983 | the handler on cells: new list, what it asked of the link, and the engine's invariant, no stale mem_access included |
| `CmdHandlers.Cmd.HandlePendingSent` | ocse/cmd.c:1260-1332 | the handler on cells, for every answer of allow_reorder and every outcome of the send |
| `CmdHandlers.Cmd.HandleBufferWrite` | ocse/cmd.c:766-940 | the handler on cells and clients, and the request it sends |
| `CmdHandlers.Cmd.HandleCmdData` | ocse/cmd.c:944-1000 | the handler on cells and the staged beat |
| `CmdHandlers.Cmd.HandleWriteCmd` | ocse/cmd.c:1004-1103 | the handler on cells and clients |
| `CmdHandlers.CmdEvent.BuildNotice` | ocse/cmd.c:1477-1512 | the message built in the 45-byte buffer is kind, flag, address in little-endian order and, with data, its size and bytes |
| `CmdHandlers.Cmd.HandleInterrupt` | ocse/cmd.c:1421-1522 | the handler on cells, and the message it sends to the client, or none |
| `CmdHandlers.Cmd.HandleOperate` | ocse/cmd.c:1105-1255 | the handler on cells and clients, and the request it sends; over runs CmdRequests.RequestsOwned says which bytes, byte enables, flag and endianness those are |
| `CmdHandlers.Cmd.HandleAnswer` | ocse/cmd.c:1763-1823 | the client's pointer is followed to a cell that is still there, updated, and cleared |
| `CmdHandlers.Cmd.AddCmd` | ocse/cmd.c:184-275 | a new cell at the place allow_reorder chooses, with the beat that came if it is its own |
| `CmdHandlers.Cmd.ParseCmd` | ocse/cmd.c:569-690 | the dispatch by opcode, each case with its restored or consumed beat; over runs CmdArrivals.CameAs says which address, length and fields a command gets |
| `CmdHandlers.Cmd.HandleCmd` | ocse/cmd.c:693-755 | the handler: duplicates are ignored with their beat, all others parsed; CmdArrivals.ArrivesExactly says what enters the list, CmdArrivals.FailedOnArrival what fails there |
| `OclLoop.HandleAfu` | ocse/ocl.c:131-150 | the handlers called in order on the cells are exactly the pass of the value model, with the outcomes the link model gives for its event and the allow_* answers; the link's event ends as those answers, and the command and beat taken, leave it |
| `PageCache.CalcIndex` | ocse/cmd.c:1690-1696 | an address and its page fall into the same set, always below 16 |
| `PageCache.SetsOfPages` | ocse/cmd.c:1690-1696 | two addresses share a set if and only if their page numbers agree modulo 16 |
| `PageCache.TouchKeepsLru` | ocse/cmd.c:1698-1740 | a touch, with the victim chosen as the source chooses it, keeps a set the most recently used distinct pages of its history, each age the number of touches since |
| `PageCache.AgesDistinct` | ocse/cmd.c:1698-1740 | so valid ages in a set are pairwise distinct |
| `PageCache.NotedReplaceable` | ocse/cmd.c:1703-1728 | what the loop notes is a hit exactly when the page is held, and otherwise the first empty or an oldest way |
| `PageCache.Pages.UpdateAge` | ocse/cmd.c:1698-1740 | on the arrays: after any sequence of touches every one of the 16 sets is least-recently-used, and only the touched one changes |
| `Lpc.PlanCovers` | libocxl/libocxl_lpc.c:159-193 | for every offset and size the accesses are naturally aligned powers of two of at most 256 bytes and cover [offset,offset+size) in order without overlap |
| `Lpc.AccessBound` | libocxl/libocxl_lpc.c:159-193 | at most size/256 + 16 accesses |
| `Lpc.StrideRises` | libocxl/libocxl_lpc.c:159-193 | before 256 is reached each full stride is followed by a strictly larger alignment |
| `Lpc.PlanFalls` | libocxl/libocxl_lpc.c:159-193 | once the remainder is below the alignment every stride is below the one before, and there are at most 8 |
| `Lpc.FallingStrictly` | libocxl/libocxl_lpc.c:159-193 | so of any two of them the later is strictly shorter |
| `Lpc.LpcAfu.Write` | libocxl/libocxl_lpc.c:159-207 | the nested loops end with every byte written at its 32-bit address and no other byte changed, having made exactly the planned accesses |
| `Lpc.LpcAfu.Read` | libocxl/libocxl_lpc.c:299-357 | the nested loops end with out equal to the bytes at those addresses |
| `Lpc.ReadAfterWrite` | libocxl/libocxl_lpc.c:299-357 | a read after a write returns the bytes written, at any offset |
| `Lpc.CopyInside` | libocxl/libocxl_lpc.c:159-207 | a transfer that ends within the first 2^32 bytes is one copy of [offset,offset+size) |
| `Lpc.AddressedExactly` | libocxl/libocxl.c:1293-1338 | every byte reaches the address asked for if and only if the transfer is empty or ends there, since addresses travel as 32 bits |
| `Lpc.StraysOutside` | libocxl/libocxl.c:1293-1338 | the failing byte: one beyond 2^32 is written outside the range asked for |
| `Mmio.Queue.Add` | ocse/mmio.c:141-145 | a request goes to the end of the list |
| `Mmio.Queue.SentInOrder` | ocse/mmio.c:744-752 | in every reachable state requests sent are a prefix of those that arrived, at most one is unfinished, only the head is not idle, and none on the list is done |
| `Mmio.Queue.Send` | ocse/mmio.c:724-975 | only an idle head is sent; what the link then holds for it is Carried: the opcode and tag of its kind, a dl or pl that stands for exactly its bytes, its address and byte enables, and its data at their place |
| `Mmio.Queue.HandleApResp` | ocse/mmio.c:1194-1316 | a response is taken for the pending head; a memory read goes on to wait for data, anything else is done; a configuration read that brings no data stores 0 |
| `Mmio.Queue.HandleApRespData` | ocse/mmio.c:985-1140 | a beat extends the head's buffer by exactly its bytes; a read of 64, 128 or 256 bytes completes on exactly its last beat with the concatenation of its beats, whatever idle clocks come between; a read leaves the list exactly when it is done |
| `Mmio.ReadDoneExactly` | ocse/mmio.c:985-1140 | over any number of passes a read that has been answered is done if and only if all the beats of its size have come, whatever its response said |
| `Mmio.FailedReadWaits` | ocse/mmio.c:1194-1316 | the failing input: a read failed with response 0x02 and no data waits in every later pass |
| `Mmio.MmioEvent.TakeBeat` | ocse/mmio.c:1053-1131 | where a beat goes, every copy in bounds, and when it is the last |
| `Mmio.MmioEvent.Respond` | ocse/mmio.c:1194-1316 | the fields a response sets, 0 for a configuration read without data among them, and that an unexpected one sets none |
| `Mmio.MmioEvent.Send` | ocse/mmio.c:724-975 | what the link holds after a send that succeeds, stated from the request alone: opcode and tag by kind, the length its dl or pl stands for, address, byte enables, and each byte of the data bus |
| `Mmio.MmioEvent.RequestedCarries` | ocse/mmio.c:724-975 | the call made for a request leaves exactly that on the link, configuration requests included |
| `Mmio.MmioEvent.CfgAnswered` | ocse/mmio.c:1194-1316 | a configuration response counts if and only if it has the tag of the request, and brings its word only when it is a read response |
| `Mmio.MmioEvent.MemoryAnswered` | ocse/mmio.c:1194-1316 | any other response is taken as it is, opcode, code, dl and dp |
| `Mmio.MmioEvent.RegisterValue` | ocse/mmio.c:1630-1715 | the value of a register in an acknowledgement is the number its bytes hold in memory |
| `Mmio.Queue.MmioDone` | ocse/mmio.c:1630-1715 | a request is freed exactly when done, and then the list no longer holds it; its client gets the acknowledgement of its kind, the response code and, unless it failed, the data read: the beats that came, or the part of the one beat its address selects |
| `ConfigWalk.Walk` | ocse/mmio.c:370-705 | the walk's loops hand every AFU its acTags behind all those handed out before, from 0, and its PASIDs behind those of its own function, from 0, cut to the widths of the configuration structs; each function's BAR window starts behind the windows of all masks before it, from 0x40000000000 |
| `ConfigWalk.ActagsDisjoint` | ocse/mmio.c:546-669 | no two AFUs of the device share an acTag if and only if all together ask for at most 2^16, whatever AFUs ask for none |
| `ConfigWalk.PasidsDisjoint` | ocse/mmio.c:640-655 | no two AFUs of a function share a PASID when all fit 8 bits |
| `ConfigWalk.WindowsDisjoint` | ocse/mmio.c:482-507 | for i before j the window of i, as long as its mask says (2^64 less the mask), ends where that of j starts or before; the first starts at 0x40000000000 |
| `ConfigWalk.FunctionRangeExact` | ocse/mmio.c:655-705 | a function's own acTag range, when it ends below 2^16, covers exactly its AFUs if and only if its length counter, which nothing initialises, started at zero |
| `Clients.Ocl.Associate` | ocse/ocse.c:567-579 | the first empty slot, or -1 when there is none; context and PASID are the slot |
| `Clients.Ocl.Release` | ocse/ocl.c:320-332 | the slot of a detached client is empty again, the others unchanged |
| `Clients.Ocl.DistinctContexts` | ocse/ocse.c:567-579 | open clients hold distinct contexts |
| `Clients.Ocl.ClientsIsolated` | ocse/mmio.c:113-118 | so their per-PASID addresses never coincide with offsets below the stride, while windows start below 2^32 |
| `Clients.PhysAddrMeans` | ocse/mmio.c:113-118 | while nothing wraps, the address is base, offset, the client's window and the offset within it |
| `Clients.IsolatedExactly` | ocse/mmio.c:113-118 | the windows of n clients are disjoint if and only if stride * (n - 1) is below 2^32, where the product wraps |
| `EventQueue.Queue.HandleDsi` | libocxl/libocxl.c:189-219 | a fault is queued, by the 4096-byte page its address lies in, unless one waits; the scan stays in the array and the assertion after it holds |
| `EventQueue.Queue.HandleInterrupt` | libocxl/libocxl.c:325-374 | an interrupt is known exactly when a source has its id; it is queued with the irq of the first such source and count 1 unless one waits, and an unknown one changes nothing |
| `EventQueue.Queue.Pop` | libocxl/libocxl.c:2987-2999 | the oldest event is taken, the others move up, and the pipe byte read is its own |
| `EventQueue.CoalescedIsShort` | libocxl/libocxl.c:196-205 | at most one event per type leaves one of the three slots empty |
| `EventQueue.TakenInOrder` | libocxl/libocxl.c:189-374 | over any run events are taken in the order they entered, none lost and none twice |

## Left out

- Sockets, timeouts, partial receives and short writes: packets arrive whole.
- Threads and mutexes: one lock makes each step atomic, so steps are atomic here.
- Client drop, detach and abort: they break the engine's invariants on purpose (`CLIENT_VALID` is assumed).
- The TLX4 fields: not compiled.
- `_handle_DMO_OPs`, `_handle_write_be` and `_mem_write_be`: case tables in which one branch settles each case.
- `handle_touch` (its filter never selects a command) and `handle_mmio_ack` (not called).
- CmdHandlers.Cmd.HandleInterrupt: does not model the acknowledgement the application sends back.
- Driver.Bfm.Drive: does not model the pins on which commands and configuration commands are driven, only that they are
  taken, and the line driven on the data bus.
- The command data FIFO of `tlx_bfm`: the same code as the response FIFO.
- The bad data indication of lines popped later than their response: the driver shows the latest one.
- The configuration walk's capability parsing: the functions and AFUs found are a list.
- PageCache.Pages.UpdateAge: ages are unbounded where the source has an int, so overflow of an age is not modelled.
- TlxInterface.AfuEvent.SignalAfuModel: fields are grouped as the interface tables group them, so a field of an
  invalid group is not kept once the group has been sent.
- CmdHandlers.CmdEvent.TakeNext: the 256-byte buffer of a command is a sequence field reassigned, not an array.
- Mmio.MmioEvent.TakeBeat: the same for the buffer of a host request.
- EventQueue.Queue.HandleInterrupt: the list of interrupt sources is fixed for the life of the queue.
- `test/`, `common/debug.c`, `ocse/parms.c`, `ocse/shim_host.c`, `common/TestAFU_config.c`: logging, text and test
  code.
