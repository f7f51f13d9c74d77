# QoS bootstrap of ops-sysd, modelled in Dafny

At startup the ops-sysd daemon fills the switch's configuration database with its
quality-of-service defaults. This happens in one transaction and has four parts:

- it sets the trust mode to "none";
- it installs the 8-entry CoS map and the 64-entry DSCP map;
- it builds a queue profile and a schedule profile, each in two variants. "default" is
  editable and the System row points at it. "factory-default" is a read-only restore
  point; it and every row it links are flagged `hw_default = true`.

Each profile is a named row. It holds a map from queue number to an entry row. The
database stores that map as a pair of key and value arrays, and a write replaces the
whole column. The commands are find-or-create of a profile and upserts of entry rows:

- "map local priority p to queue q" adds p to the queue's priority list unless it is
  already there;
- "strict" and "wrr" overwrite the queue's algorithm and weight.

Neither creates a second entry for the same queue.

The model is pure. The database is an immutable `Store` with one sequence per table, and
a row's id is its position. Inserting a row appends it, and the C code never deletes
one. Every C function in the core becomes a Dafny function from store to store. A
`CommandResult` carries the C function's `true` error return.

Modules follow the source:

- `Association`: key/value columns;
- `Profiles`: lookup, find-or-create, entry upsert and the pairs a command list links,
  shared by both profile tables;
- `QueueProfile` and `ScheduleProfile`: the commands and the factory-default builders;
- `Bootstrap`: `qos_init_queue_profile` and `qos_init_schedule_profile`;
- `QosMaps`: trust, the CoS and DSCP maps, and the factory values kept in `hw_defaults`;
- `QosUtils`: the stand-alone default CoS map;
- `Decimal`: `%d` rendering;
- `QosConstants`: the header's constants;
- `Schema`: the tables.

Some behaviours of the code worth knowing before reading the contracts:

- The WRR command stores any integer weight; weights are not validated.
- The schedule builder first unlinks every queue row of the profile and only then issues
  the eight default commands, so the old queue rows stay in the table, unreferenced.
  The queue builder does not unlink anything: it only adds to what the profile maps.
- On a later boot, the entry rows of an existing "default" queue profile keep whatever
  priorities and flags they had; the builder only adds to them.

## Model

| member | source | states |
|---|---|---|
| Association.Get | src/qos_init.c:61-71 | the entry lookup finds a value exactly when the queue number is among the keys, and the value it finds is paired with that key |
| Association.IndexOf | src/qos_init.c:194-204 | the scan stops at the first pair with the key; it finds nothing exactly when the key is absent |
| Association.GetAppend | src/qos_init.c:89-96 | appending (q, id) to the arrays keeps every existing key's value and makes a new key q map to id |
| Association.AppendNoDuplicateKeys | src/qos_init.c:150-157 | appending a key that is not present keeps the keys unique |
| Association.GetExtend | src/qos_init.c:222-229 | pairs appended after a key's first occurrence never change what the key maps to |
| Association.GetUnique | src/qos_init.c:64-68 | when keys are unique, every pair is what lookup returns for its key |
| Profiles.FindProfile | src/qos_init.c:49-59 | a name lookup returns a row with exactly that name, the first one, or None exactly when no row has the name |
| Profiles.FindUnique | src/qos_init.c:182-192 | with unique names, every profile is found under its own name |
| Profiles.FindStable | src/qos_init.c:536-550 | a successful lookup still returns the same row after writes that keep the names |
| Profiles.FindAppended | src/qos_init.c:109-113 | a profile inserted under a new name is what lookup returns for it |
| Profiles.ProfileCommand | src/qos_init.c:103-116 | find-or-create: afterwards the name is found; the table grows by one fresh, empty, unflagged row exactly when the name was absent, and otherwise is unchanged |
| Profiles.ProfileCommandIdempotent | src/qos_init.c:236-249 | a second find-or-create of the same name changes nothing |
| Profiles.ProfileCommandKeepsNamesUnique | src/qos_init.c:242-246 | find-or-create never creates a second row with an existing name, and renames no row |
| Profiles.ProfileCommandKeepsEntriesIn | src/qos_init.c:109-113 | find-or-create leaves every entry reference resolvable |
| Profiles.InsertEntryRow | src/qos_init.c:73-101 | inserting an entry row appends one blank row and extends the profile's key array by q and its value array by the new id; every other profile is unchanged |
| Profiles.UpsertEntry | src/qos_init.c:150-157 | afterwards the profile maps q to the returned row; an existing row is reused with nothing changed; otherwise the row is inserted; keys stay unique |
| Profiles.EntryInRange | src/qos_init.c:262-269 | an entry row that a profile links exists |
| QueueProfile.HasLocalPriority | src/qos_init.c:36-47 | the scan answers true exactly when the priority is in the row's list |
| QueueProfile.AddLocalPriority | src/qos_init.c:118-136 | afterwards the list holds exactly the old priorities and p; it grows only at its end, by at most one; a present p is a no-op; lists without repeats stay without repeats |
| QueueProfile.QueueProfileCommand | src/qos_init.c:103-116 | never reports an error; afterwards the profile exists; a present name changes nothing, an absent one appends a fresh profile; nothing else changes |
| QueueProfile.QueueProfileMapCommand | src/qos_init.c:138-163 | reports an error exactly when the profile is absent, and then changes nothing; otherwise queue q's entry lists lp: a queue that had an entry row gets lp added to that row and to no other, with the profiles untouched, and a queue without one gets exactly one new row listing only lp; only the two queue-profile tables change |
| QueueProfile.MapCommandKeepsOthers | src/qos_init.c:150-160 | a map command leaves the priority list of every entry row except queue q's own unchanged, and adds at most one row |
| QueueProfile.MapCommandTouchesOnly | src/qos_init.c:138-163 | a map command changes no profile of another name and no old entry row that the named profile does not link afterwards |
| QueueProfile.MapCommandGrows | src/qos_init.c:150-160 | a map command only grows the queue-profile tables: no name, flag, pair or listed priority is lost |
| QueueProfile.GrowsKeepsMapping | src/qos_init.c:118-136 | growth never takes back a priority mapped to a queue |
| QueueProfile.MapCommandIdempotent | src/qos_init.c:120-122 | repeating a map command changes nothing |
| QueueProfile.MapCommandNoDuplicates | src/qos_init.c:150-160 | the map command keeps a profile's queue keys unique and every priority list free of repeats |
| QueueProfile.MapCommandFresh | src/qos_init.c:154-160 | mapping a queue with no entry appends the pair (q, next id) and one fresh row listing only lp |
| QueueProfile.DefaultQueueMappingIsIdentity | src/qos_init.c:170-177 | the builder's list maps each queue to the priority of the same number, covering 7 down to 0, each once |
| QueueProfile.MapAll | src/qos_init.c:170-177 | running a list of map commands keeps the profile lookup and entry references valid, and changes only the two queue-profile tables |
| QueueProfile.QueueProfileCreateFactoryDefault | src/qos_init.c:165-178 | after the builder the profile exists, entry references are valid, and only the two queue-profile tables have changed |
| QueueProfile.MapAllMaps | src/qos_init.c:170-177 | on an existing profile, every mapping of a command list holds after the list runs |
| QueueProfile.MapAllAppends | src/qos_init.c:170-177 | on a profile that has none of the list's queues, the list appends one pair and one single-priority row per mapping, in command order |
| QueueProfile.CreateFactoryDefaultMaps | src/qos_init.c:165-178 | after the builder the profile exists and maps queue N to local priority N for N in 0..7, and the tables have only grown |
| QueueProfile.MapAllTouchesOnly | src/qos_init.c:170-177 | a list of map commands changes no profile of another name and no old entry row that the named profile does not link afterwards |
| QueueProfile.CreateFactoryDefaultTouchesOnly | src/qos_init.c:165-178 | the builder changes no profile of another name and no old entry row that the built profile does not link afterwards; the tables only grow |
| QueueProfile.CreateFactoryDefaultFresh | src/qos_init.c:165-178 | for a new name the builder appends one profile linking queues 7..0, in that order, to eight fresh rows each listing only its own number |
| ScheduleProfile.ScheduleProfileCommand | src/qos_init.c:236-249 | never reports an error; afterwards the profile exists; a present name changes nothing, an absent one appends a fresh profile |
| ScheduleProfile.SetQueue | src/qos_init.c:251-304 | reports an error exactly when the profile is absent, and then changes nothing; otherwise queue q has a row holding the new algorithm and weight; only the schedule-profile tables change |
| ScheduleProfile.WriteSetting | src/qos_init.c:299-301 | overwrites the algorithm and weight of the queue's row and nothing else |
| ScheduleProfile.ScheduleProfileStrictCommand | src/qos_init.c:251-276 | an absent profile is an error with no change; otherwise queue q is STRICT with an empty weight |
| ScheduleProfile.ScheduleProfileWrrCommand | src/qos_init.c:278-304 | an absent profile is an error with no change; otherwise queue q is WRR and its weight is exactly [w] |
| ScheduleProfile.SetQueueKeepsOthers | src/qos_init.c:262-273 | the command changes no queue row but its own, keeps every row's hw_default, and adds at most one row; an existing row is overwritten in place |
| ScheduleProfile.SetQueueIdempotent | src/qos_init.c:271-273 | repeating a strict or WRR command changes nothing |
| ScheduleProfile.SetQueueLastWins | src/qos_init.c:299-301 | two commands on one queue leave exactly what the second alone leaves |
| ScheduleProfile.SetQueueFresh | src/qos_init.c:266-269 | a command on a queue with no row appends the pair (q, next id) and one row holding the setting |
| ScheduleProfile.ApplyAll | src/qos_init.c:318-325 | running a list of strict/WRR commands keeps queue references valid, adds no profile, and changes only the schedule-profile tables |
| ScheduleProfile.ClearQueues | src/qos_init.c:311-315 | unlinks every queue of the profile: its association becomes empty, its name and hw_default stay, every other profile and table is unchanged, and the queue rows themselves remain |
| ScheduleProfile.ScheduleProfileCreateFactoryDefault | src/qos_init.c:306-326 | the builder adds one profile exactly when the name was absent, keeps queue references valid, and changes only the schedule-profile tables |
| ScheduleProfile.ApplyAllAppends | src/qos_init.c:318-325 | on a profile that has none of the list's queues, the commands append one pair and one row per setting, in command order |
| ScheduleProfile.DefaultScheduleQueues | src/qos_init.c:318-325 | the default command list names queues 7 down to 0, each once |
| ScheduleProfile.DefaultPairsLookup | src/qos_init.c:318-325 | through the default pairs, queue q in 0..7 resolves to row b + 7 - q, and no other queue number resolves |
| ScheduleProfile.CreateFactoryDefaultLayout | src/qos_init.c:306-326 | whatever the profile held, the builder leaves it linking exactly the eight default pairs and appends eight rows; every other profile, every old row and every other table is unchanged |
| ScheduleProfile.CreateFactoryDefaultSchedules | src/qos_init.c:306-326 | after the builder, queue 7 is STRICT, queue q in 0..6 is WRR with weight q + 1, and no queue outside 0..7 is linked |
| Bootstrap.InitQueueProfile | src/qos_init.c:531-567 | the queue-profile bootstrap keeps entry references valid and changes only the queue-profile tables and the System row's queue-profile pointer; what it installs is stated by the Bootstrap.InitQueueProfile* lemmas |
| Bootstrap.InitFactoryQueueProfile | src/qos_init.c:546-566 | building and flagging "factory-default" keeps entry references valid and changes only the queue-profile tables |
| Bootstrap.InitScheduleProfile | src/qos_init.c:569-605 | the schedule-profile bootstrap keeps queue references valid and changes only the schedule-profile tables and the System row's schedule-profile pointer; what it installs is stated by the Bootstrap.InitScheduleProfile* lemmas |
| Bootstrap.InitFactoryScheduleProfile | src/qos_init.c:584-604 | building and flagging "factory-default" keeps queue references valid and changes only the schedule-profile tables |
| Bootstrap.MarkRows | src/qos_init.c:561-566 | flags exactly the rows the profile links, once each, and leaves every other row as it was |
| Bootstrap.MarkQueueProfile | src/qos_init.c:556-566 | flags the profile and exactly the entry rows it links; names and maps are unchanged |
| Bootstrap.MarkQueueProfileFlags | src/qos_init.c:557-566 | after flagging, the profile and every entry row it links carry hw_default = true |
| Bootstrap.InitQueueProfileInstalls | src/qos_init.c:531-567 | afterwards both profiles exist and map queue N to priority N for N in 0..7; the System row points at "default"; outside the queue-profile tables nothing but that pointer changes |
| Bootstrap.InitQueueProfileKeepsOthers | src/qos_init.c:531-567 | every profile not named "default" or "factory-default" is unchanged; so is every old entry row that neither of them links afterwards; an old entry row that "factory-default" does not link keeps its hw_default |
| Bootstrap.InitQueueProfileFlagsFactoryDefault | src/qos_init.c:546-566 | "factory-default" and every entry row it links are flagged hw_default = true |
| Bootstrap.InitQueueProfileKeepsDefaultFlag | src/qos_init.c:531-547 | "default" keeps the hw_default it had, and has none when the bootstrap created it |
| Bootstrap.InitQueueProfileFirstBoot | src/qos_init.c:531-567 | on an empty start the bootstrap appends exactly "default" then "factory-default", each linking queues 7..0 to eight fresh single-priority rows; only the factory rows are flagged; the System row points at "default" |
| Bootstrap.MarkScheduleProfile | src/qos_init.c:594-604 | flags the schedule profile and exactly the queue rows it links; names, maps and scheduling columns are unchanged |
| Bootstrap.MarkScheduleFlags | src/qos_init.c:594-604 | flagging keeps the schedule the profile holds and flags the profile and each of its eight queue rows |
| Bootstrap.InitScheduleProfileInstallsDefault | src/qos_init.c:569-582 | afterwards the System row points at "default", which holds the default schedule on fresh, unflagged queue rows |
| Bootstrap.InitScheduleProfileFrame | src/qos_init.c:569-605 | the bootstrap appends sixteen queue rows and changes no old one; every schedule profile not named "default" or "factory-default" is unchanged; outside the schedule-profile tables only the System row's pointer changes |
| Bootstrap.InitScheduleProfileInstallsFactoryDefault | src/qos_init.c:584-604 | "factory-default" is flagged and holds the default schedule on eight fresh queue rows, each flagged |
| Bootstrap.InitScheduleProfileKeepsDefaultFlag | src/qos_init.c:569-585 | "default" keeps the hw_default it had, and has none when the bootstrap created it |
| QosMaps.InitTrust | src/qos_init.c:330-337 | qos_trust becomes "none"; every other key of the QoS configuration and every other column and table are unchanged |
| QosMaps.SetCosMapEntry | src/qos_init.c:339-362 | the row takes the four values; hw_defaults gains exactly the four keys, the numbers are stored as text that reads back as their 32-bit cast, and other keys are kept |
| QosMaps.SetDscpMapEntry | src/qos_init.c:402-429 | the row takes the five values, with the priority code point as a one-value column; hw_defaults gains exactly the five keys, and the numbers read back |
| QosMaps.CosFactoryValuesRestore | src/qos_init.c:353-361 | whatever later edits do to a CoS row's live columns, its hw_defaults read back as the setting it was initialised with |
| QosMaps.DscpFactoryValuesRestore | src/qos_init.c:419-428 | the same round trip for a DSCP row's five recorded values |
| QosMaps.CosLocalPriority | src/qos_init.c:366-373 | the CoS rule changes only code points 0 and 1, and keeps 0..7 within 0..7 |
| QosMaps.CosLocalPriorityInvolution | src/qos_init.c:366-367 | applying the CoS rule twice gives back the code point, so the rule is a permutation of 0..7 |
| QosMaps.DefaultCosSettingsFollowRule | src/qos_init.c:364-374 | the CoS table has 8 green rows; row i is for code point i and has the rule's local priority; no two rows share a priority or a description |
| QosMaps.DefaultDscpFollowsReference | src/qos_init.c:431-503 | the DSCP table has 64 rows and row cp equals the DiffServ rule: the class as priority, AF drop precedence as colour, and CS/AF/EF names |
| QosMaps.DscpPriorityCodePointAgreesWithCos | src/qos_init.c:431-503 | every DSCP row's priority code point is a CoS code point that the CoS table sends to the same local priority |
| QosMaps.WriteRows | src/qos_init.c:366-373 | row base + i receives the i-th setter call and no other row changes |
| QosMaps.InitCosMap | src/qos_init.c:376-400 | inserts 8 rows after the existing ones, writes row i from the table's i-th setting, and points the system's CoS map at exactly those rows in order; nothing else changes |
| QosMaps.InitDscpMap | src/qos_init.c:505-529 | inserts 64 rows, writes row i from the i-th setting, and replaces the system's DSCP map with exactly those rows in order; nothing else changes |
| QosMaps.InitCosMapInstallsDefaults | src/qos_init.c:364-400 | entry i of the installed CoS map is a green row for code point i with the IEEE 802.1Q priority; its hw_defaults hold the four keys and read back as its setting |
| QosMaps.InitDscpMapInstallsDefaults | src/qos_init.c:431-529 | entry cp of the installed DSCP map is the DiffServ rule's row for cp; its hw_defaults hold the five keys and read back as it |
| Decimal.Int32Of | src/qos_init.c:349 | the `(int)` cast yields a 32-bit value congruent to its input modulo 2^32, and keeps values that already fit |
| Decimal.Digits | src/qos_init.c:413 | `%d` of a natural number is a non-empty digit string without leading zeros |
| Decimal.FormatInt | src/qos_init.c:349 | `%d` text is never empty, and it is digits only exactly when the number is not negative; Decimal.FormatIntRoundTrip reads it back |
| Decimal.FormatIntRoundTrip | src/qos_init.c:349-351 | parsing the `%d` text of any integer gives that integer back |
| QosUtils.CreateDefaultCosMap | src/sysd_qos_utils.c:41-54 | allocates one fresh block, the only allocation added, holding eight green records; record i is for code point i and has the IEEE 802.1Q priority; priorities and descriptions are distinct |
| QosUtils.CreateDefaultCosMapAgreesWithBootstrap | src/sysd_qos_utils.c:44-51 | the records of the stand-alone map are the table that the bootstrap installs |
| QosUtils.DestroyDefaultCosMap | src/sysd_qos_utils.c:56-62 | a null map is a no-op; otherwise exactly that allocation is released |
| QosUtils.CreateThenDestroy | src/sysd_qos_utils.c:41-62 | creating the map and then destroying it leaves exactly the allocations that were live before, and the heap stays well formed |
| QosConstants.ProfileNamesDistinct | src/sysd_qos_utils.h:21-22 | the two profile names differ, so a lookup of one never finds the other |

## Left out

- The IDL transaction is left out: its handle, its commit and its change tracking. The
  model assumes read-your-writes inside the one transaction; a setter is a row update.
- The global `idl` and its hash-ordered iteration are modelled as insertion order. With
  unique names, a lookup's result does not depend on the order.
- `VLOG_ERR` logging is left out. A failed lookup after find-or-create cannot happen;
  it is kept as the model's `None` branch, which returns early as the C code does.
- `xmalloc` and `free` of the temporary key and value arrays are left out. Every column
  write replaces the whole column, as in the code.
- The `sprintf` buffers are left out. `QOS_CLI_STRING_BUFFER_SIZE` is not modelled,
  since 67 bytes always hold a 32-bit decimal.
- `qos_create_default_dscp_map` and `qos_destroy_default_dscp_map` are declared at
  src/sysd_qos_utils.h:60-65 but defined nowhere, so they are not modelled.
- QosUtils.CreateDefaultCosMap and QosUtils.DestroyDefaultCosMap model memory as a
  set of live addresses plus the next address the allocator hands out. `xmalloc`
  aborts rather than failing, so the model has no out-of-memory path. Block sizes and
  the allocator's reuse of freed addresses are not modelled.
- The `QOS_DEFAULT_*_KEY` macros for `hw_defaults` are defined outside the core. They
  become the enumeration `HwDefaultsKey`, so their spellings are not modelled.
- The header's override keys, default colour and description, and CLI display constants
  are not used by the core. They are not modelled.
- src/sysd_cfg_yaml.c is not part of this model. It covers device and port YAML parsing
  and hardware reads, not QoS.
- A set or map column (a profile's queue map, a priority list, the System row's CoS
  and DSCP maps) is modelled as the array the code builds and hands to the setter. The
  database keeps such a column unordered, and the setters at src/qos_init.c:95, 133,
  228, 397 and 526 sort it and drop repeats. So every claim about element order, such as
  "grows at its end", "in command order", "queues 7..0" or "those rows in order", is
  about the built arrays, not about how the database stores them.
- The race between a find and a create is left out. The model is single-threaded, as
  the bootstrap runs in one transaction.
- Decimal.FormatIntRoundTrip: the factory values read back as the 32-bit cast of the
  number, not the number. QosMaps.CosFactoryValuesRestore and
  QosMaps.DscpFactoryValuesRestore therefore require 32-bit values; every call site
  passes 0..63.
- Bootstrap.InitQueueProfileKeepsDefaultFlag states only the flag of the "default"
  profile row. It says nothing about the hw_default of that profile's entry rows on a
  later boot: a database edited by other code could let both profiles link the same
  entry row, and flagging "factory-default" would then flag it too. The entry rows are
  shown unflagged only for a first boot, by Bootstrap.InitQueueProfileFirstBoot.
