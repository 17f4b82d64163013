# nvshm IPC control plane, modelled in Dafny

This project models the control logic of the AP-side shared-memory IPC link to
the baseband modem in `drivers/staging/nvshm/nvshm_ipc.c`. Four parts are
modelled:

- the integrity check of the 32-bit mailbox word;
- the work handler `ipc_work`, the link control state machine;
- the config reader `ipc_readconfig`;
- the channel classifier `init_interfaces` / `cleanup_interfaces`.

The handle (`struct nvshm_handle`) is the class `Ipc.Handle`. Its fields are
the ones these functions read and write: region bases and sizes, queue head and
tail, the config reference, `configured`, `old_status` and the channel table,
which is an array. Each run of the work handler reads shared memory once, as a
`Snapshot`: the mailbox word and the config block. Calls into collaborators are
appended to a ghost trace of `Event`s. Those collaborators are the queue
(abort, process, init), the buffer pool (init) and the terminal and network
adapters (init, cleanup).

The modules:

- `Mailbox` (`mailbox.dfy`): the check on line 190, over `bv32`. `Message` is
  the encoding a well-behaved peer uses. `Accepted` is proved to hold exactly of
  the words whose high half is the complement of the low half, and the lemmas
  prove that these are exactly the messages of their own command.
- `Shmem` (`shmem.dfy`): the data model. It holds the config block, channel-map
  entries, the layout, the events and the build-time `Platform` constants.
- `Interfaces` (`interfaces.dfy`): channel counting and the calls each table
  leads to. Each adapter family is started or stopped once, exactly when one of
  its channels is present: terminals first, then network.
- `Control` (`control.dfy`): the state machine as functions of the handle's
  state. `Work` is one run of the handler. `Run` is consecutive runs on the
  serialized worker. The lemmas prove the properties of the state machine.
- `Ipc` (`ipc.dfy`): the class. Each method is proved to change the handle and
  the trace exactly as the matching function says: `CountChannels`,
  `InitInterfaces` and `CleanupInterfaces` follow `Interfaces.CountOf`,
  `InitCalls` and `CleanupCalls`; `ReadConfig`, `TearDown`, `Negotiation` and
  `IpcWork` follow `Control.ConfigRead`, `TeardownOutcome`,
  `NegotiationOutcome` and `Work`. So every lemma about `Work` holds of
  `Handle.IpcWork`.

Addresses are integers: the opaque base `ipcBase` of the IPC region plus the
offsets from the config block.

The command codes, `NVSHM_CONFIG_VERSION` and `NVSHM_MAX_CHANNELS` are defined
in headers that are not part of this model. They are the fields of a `Platform`
value. The only thing assumed of the codes is what the C `switch` needs: they
are pairwise distinct (`Codes.Distinct`). `new_state`, `cmd` and `old_status`
are C `int`s, so they are modelled as `bv32`.

Four details of the code that the model keeps as they are:

- The switch lists eight boot-error codes (lines 220-227).
- On a version mismatch, `ipc_readconfig` leaves the whole handle untouched,
  `configured` included. So a handle that is still configured keeps its old
  configuration. That happens after READY, then a boot error, then a READY whose
  config has the wrong version.
- On a size mismatch, the code only warns. It stores neither size.
- The negotiation runs `nvshm_iobuf_init`, `nvshm_init_queue` and
  `init_interfaces` even when `ipc_readconfig` fails. They then work on the
  layout and channel table the handle already had. The `IobufInit` and
  `InitQueue` events carry the layout the collaborator sees, which makes this
  visible (`Control.FreshReady`).

One consequence of the code is proved as it stands, in
`Control.ReadyAfterCorruption`. A corrupted word keeps `old_status`. So on a
link that was up on READY, a corrupted word followed by a valid READY tears the
link down and then only processes the queue. No renegotiation follows.

## Model

| member | source | states |
|---|---|---|
| Mailbox.Command | drivers/staging/nvshm/nvshm_ipc.c:189 | the command is the low half of the word, so it is at most 0xFFFF |
| Mailbox.Message | drivers/staging/nvshm/nvshm_ipc.c:188-190 | the word a peer writes for a command carries that command back in its low half |
| Mailbox.Accepted | drivers/staging/nvshm/nvshm_ipc.c:190 | the check passes if and only if the high 16 bits equal the complement of the low 16 bits |
| Mailbox.AcceptedIffMessage | drivers/staging/nvshm/nvshm_ipc.c:190 | the check passes if and only if the word is the message of the command it carries |
| Mailbox.MessageIsAccepted | drivers/staging/nvshm/nvshm_ipc.c:190 | every command's message has the complement in its high half and passes the check |
| Mailbox.AcceptedEncodingIsUnique | drivers/staging/nvshm/nvshm_ipc.c:190 | two accepted words carry the same command if and only if they are equal |
| Mailbox.ExampleWords | drivers/staging/nvshm/nvshm_ipc.c:188-190 | 0xFFFE0001 passes with command 1; 0x00000001 fails; 0xFFFE0001 is the message of 1 |
| Interfaces.CountOf | drivers/staging/nvshm/nvshm_ipc.c:107-121 | a per-type channel count never exceeds the table size |
| Interfaces.InitCalls | drivers/staging/nvshm/nvshm_ipc.c:123-134 | the terminal init call is made if and only if a terminal channel is counted, the network init call if and only if a network channel is; at most two calls |
| Interfaces.CleanupCalls | drivers/staging/nvshm/nvshm_ipc.c:165-176 | the terminal cleanup call is made if and only if a terminal channel is counted, the network cleanup call if and only if a network channel is; at most two calls |
| Interfaces.CountPositiveIffPresent | drivers/staging/nvshm/nvshm_ipc.c:123-134 | a type's count is non-zero if and only if some channel has that type |
| Interfaces.InitCallsByPresence | drivers/staging/nvshm/nvshm_ipc.c:102-137 | interface init starts the terminal family once if any channel is a terminal, then the network family once if any is network; nothing else |
| Interfaces.CleanupCallsByPresence | drivers/staging/nvshm/nvshm_ipc.c:139-178 | interface cleanup stops the terminal family once if any terminal channel exists, then the network family once if any network channel exists |
| Interfaces.InterfaceCallKinds | drivers/staging/nvshm/nvshm_ipc.c:123-176 | init makes only adapter-init calls and cleanup only adapter-cleanup calls; log channels make none |
| Interfaces.TwoTerminalsOneNetwork | drivers/staging/nvshm/nvshm_ipc.c:107-134 | two terminals, no log and one network channel give exactly one terminal init and one network init, not one per channel; likewise for cleanup |
| Interfaces.TwoTerminalsOneNetworkTable | drivers/staging/nvshm/nvshm_ipc.c:107-176 | on a concrete four-entry table with two terminals, one network channel and an unmapped entry, init is exactly one terminal init then one network init, and cleanup exactly one terminal cleanup then one network cleanup |
| Control.Classify | drivers/staging/nvshm/nvshm_ipc.c:199-241 | for pairwise distinct codes, a command takes the READY, boot-request, boot-error or protocol-violation branch if and only if it equals one of that branch's codes |
| Shmem.ConfigLayout | drivers/staging/nvshm/nvshm_ipc.c:47-87 | each region base and queue end lies at the IPC base plus the block's offset (head at the baseband queue, tail at the AP queue); region sizes are the block's sizes |
| Control.CopyChannels | drivers/staging/nvshm/nvshm_ipc.c:89-96 | the table has one entry per map entry, and entry i has index i and a copy of map entry i |
| Control.ConfigRead | drivers/staging/nvshm/nvshm_ipc.c:29-100 | the last status is kept; the handle ends configured if and only if it was configured or the version matches; a wrong version leaves it unchanged; a right one installs the copied table and the config |
| Control.ConfigReadOutcome | drivers/staging/nvshm/nvshm_ipc.c:38-99 | wrong version: handle unchanged; otherwise configured, regions and queue ends at base plus the block's offsets (head from the baseband queue), channel i has index i and map entry i; the reported size plays no part |
| Control.TeardownOutcome | drivers/staging/nvshm/nvshm_ipc.c:193-196 | afterwards the link is unconfigured and nothing else of the handle changes; calls are made if and only if the link was configured, and the first is the queue abort |
| Control.NegotiationOutcome | drivers/staging/nvshm/nvshm_ipc.c:205-210 | the handle is the config reader's result; the calls start with buffer-pool init then queue init on the resulting layout, and all are negotiation steps |
| Control.Dispatch | drivers/staging/nvshm/nvshm_ipc.c:199-241 | the switch leaves the last status alone; it processes the queue if and only if the command is a repeated READY, aborts the queue if and only if it is a boot request on a configured link, negotiates if and only if it is a fresh READY, and does nothing for any other command |
| Control.Work | drivers/staging/nvshm/nvshm_ipc.c:188-243 | after a rejected word `old_status` is unchanged; after an accepted word it is the word's command, whatever the command |
| Control.Run | drivers/staging/nvshm/nvshm_ipc.c:180-243 | after consecutive runs the last status is the command of the last word that passed the check, or the earlier status if none did |
| Control.RejectedWord | drivers/staging/nvshm/nvshm_ipc.c:190-197 | a rejected word on a configured link makes exactly the queue abort then the cleanup calls and unconfigures it; on an unconfigured link it does nothing; never a negotiation step |
| Control.RepeatedReady | drivers/staging/nvshm/nvshm_ipc.c:200-204 | READY equal to the last status makes one queue-process call and changes nothing |
| Control.FreshReady | drivers/staging/nvshm/nvshm_ipc.c:205-211 | READY after another status: config read, then buffer pool and queue init on the resulting layout, then interface init; this runs even if the config read failed |
| Control.BootRequest | drivers/staging/nvshm/nvshm_ipc.c:213-219 | a boot firmware request tears a configured link down (abort then cleanup) and does nothing to an unconfigured one |
| Control.LoggedOnly | drivers/staging/nvshm/nvshm_ipc.c:220-241 | boot errors, cold-boot and firmware-configured indications and unknown commands make no call and change only `old_status` |
| Control.NegotiationNeedsFreshReady | drivers/staging/nvshm/nvshm_ipc.c:190-243 | unless the word is an accepted READY that differs from the last status, no negotiation call is made and the config is not read: layout, channel table and config reference are kept |
| Control.ConfiguredOnlyByNegotiation | drivers/staging/nvshm/nvshm_ipc.c:180-243 | an unconfigured link becomes configured only through a fresh READY whose config has the right version |
| Control.ReadyRepeated | drivers/staging/nvshm/nvshm_ipc.c:200-212 | once READY is the last status, n further identical READY runs make exactly n queue-process calls and change nothing |
| Control.ReadyBurst | drivers/staging/nvshm/nvshm_ipc.c:200-212 | n+1 identical READY runs after another status make exactly one negotiation followed by n queue-process calls |
| Control.ReadyAfterCorruption | drivers/staging/nvshm/nvshm_ipc.c:190-212 | on a link up on READY, a corrupted word then a valid READY give abort, cleanup, then only a queue-process call |
| Control.ExampleScenario | drivers/staging/nvshm/nvshm_ipc.c:188-212 | with READY = 1, 0xFFFE0001 first negotiates, then only processes the queue; 0x00000001 tears a configured link down |
| Ipc.Handle.ReadConfig | drivers/staging/nvshm/nvshm_ipc.c:29-100 | returns 0 exactly when the version matches, and -1 otherwise; the handle becomes `ConfigRead` of its old state, filled field by field and in a loop over the channel table |
| Ipc.Handle.CountChannels | drivers/staging/nvshm/nvshm_ipc.c:107-121 | the loop's counts of terminal, log and network channels equal `CountOf` on the channel table |
| Ipc.Handle.InitInterfaces | drivers/staging/nvshm/nvshm_ipc.c:102-137 | returns 0 and appends exactly `InitCalls` of the channel table to the trace; nothing else changes |
| Ipc.Handle.CleanupInterfaces | drivers/staging/nvshm/nvshm_ipc.c:139-178 | returns 0, clears `configured` and appends exactly `CleanupCalls` of the channel table; nothing else changes |
| Ipc.Handle.TearDown | drivers/staging/nvshm/nvshm_ipc.c:193-196 | the handle and trace after the abort-and-cleanup block are those `TeardownOutcome` gives |
| Ipc.Handle.Negotiation | drivers/staging/nvshm/nvshm_ipc.c:205-210 | the handle and trace after the fresh-READY sequence are those `NegotiationOutcome` gives |
| Ipc.Handle.IpcWork | drivers/staging/nvshm/nvshm_ipc.c:180-243 | one run leaves the handle and the trace exactly as `Work` says, so every `Control` lemma about `Work` holds of it |

## Left out

- Workqueue lifecycle and dispatch (`nvshm_ipc_handler`, `nvshm_register_ipc`, `nvshm_unregister_ipc`, lines 245-271): kernel scheduling and concurrency. One `IpcWork` call is one run of the worker, and `Control.Run` is a series of runs. Coalescing of hardware events and the drain before destroy are not modelled.
- `nvshm_generate_ipc` (lines 273-279): a memory barrier and a hardware call, with no state to model.
- `container_of` (lines 182-184): the handle is the receiver of the method.
- Logging (`pr_debug`, `pr_err`, `pr_warn`), including the channel names printed by the config reader. The size-mismatch warning is an empty branch.
- The `CONFIG_TEGRA_BASEBAND_SIMU` build (lines 73-80): only the hardware build is modelled, with the queue head at `queue_bb_offset`.
- Collaborator internals (queue, buffer pool, terminal and network adapters): they are in other files and appear only as trace events.
- The peer writing shared memory during a run: each run reads one snapshot of the mailbox word and config block.
- `Ipc.Handle.ReadConfig`: `handle->conf` points into live shared memory; the model stores the snapshot value.
- Addresses are unbounded integers, so 32-bit pointer wrap-around is not modelled.
- The fixed config offset inside the mailbox region is not modelled: the snapshot carries the config block directly.
- `Ipc.Handle.constructor`: the handle is allocated and filled outside this file, so the constructor assumes a zero-filled handle (`Control.Initial`).
- The config reader and the work handler require the channel map to have `maxChannels` entries. In C this is the fixed array type of the config block.
