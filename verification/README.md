# KVM agent model

A Dafny model of the part of a KVM management agent that can lose data or corrupt definitions: the
one-pass rewriters of libvirt domain XML, the step protocols that create, clone, change, delete and
migrate machines on top of `virsh`, `ssh`, `scp` and `qemu-img`, the mapping from guest file systems to
disks, and the address, path, quoting and configuration text arithmetic around them.

`dafny verify dfyconfig.toml` checks everything.

## How it is modelled

- **Documents.** A domain document is a token sequence; `Xml.Forest` is the tree it spells out, and
  `Xml.Flatten` the way back. Each rewriter is a loop over tokens with the stacks, depths and buffers of
  the original and is proved to write the tokens of a plain recursive tree edit. What the agent wants of
  the rewrite is then proved about the edit.
- **Hosts.** `Storage.Host` has the files and definitions of one hypervisor. Operations change it only by
  commands (`Commands.Command`). An immutable schedule, `choices`, says of each command whether it works,
  whether a failing one leaves a partial file, and what free content it writes; it is arbitrary, so every
  theorem is about every schedule of failures. `log` records the commands given and the state after each,
  and `Valid()` says that each state is the effect of its command under the schedule and that the log ends
  in the present state. A statement about all new events is a statement about every prefix of every run.
- **What may be left over.** A new file may stay after a failed run only with an excuse
  (`Storage.Excused`): in the log of this run a look at it or its removal failed, or a machine uses its path.
- **Success.** What the queries in front of an operation answer is a parameter. Each operation says exactly when it
  succeeds: the checks pass, what it needs is there and free, and no command of its log fails (`Commands.Smooth`).
- **Runs.** `Commands.Execute` gives the events of commands that are given in order until one does not work.
  Deletions and migrations are proved to grow the logs by exactly the events that setting and schedule
  determine (`Migration.TargetEvents`, `Migration.SourceEvents`), so a lemma about all schedules is about all
  runs of the methods.
- **Two hosts.** A migration first changes only the target and then only the source; `Migration.Moments`
  lists the pairs of states in that order.
- **Backing files.** A disk is read with its backing chain; `DomainConfig.Depends` says which files a
  machine needs, the chain and the media of other devices included.
- **Arithmetic.** 32-bit numbers wrap around explicitly (`Ipv4.Uint32`), bitwise operations are defined bit
  by bit on naturals. Strings are sequences of Unicode scalar values.

| file | content |
|---|---|
| Common, Strings, Pieces, Paths, Bits | results, Go string functions, cutting and joining, lexical path cleaning, bits |
| Xml, DomainConfig | tokens and trees; what unmarshalling reads off a document |
| DeviceRewrite, DeviceEffect, InterfaceEffect, DeviceElements | the device rewrite, its effect on disks and on interfaces, and how its elements read |
| DeviceValidation, InterfaceValidation | the checks in front of a device rewrite, and what accepted requests do |
| CloneRewrite, CloneEffect, CloneSizes, CloneInterfaces, DiskRenaming | the clone rewrite and its effect |
| CloneSources | which sources a clone request gives the interfaces |
| MediaRewrite, MediaOS, MediaChange, MediaBoot | the boot order rewrites and runs of them |
| MediaOrders, MediaDevices | the boot order that is read afterwards, per disk and in os mode, and what stays |
| MigrationXml, Migration, MigrationEffect, VMMigration | disk-copy migration |
| Commands | states, commands, schedules, runs |
| Storage, Provisioning | volume operations, making and removing volumes |
| VMCreation, VMClone, VMCloneEffect, DeviceUpdate, Deletion | machines on one host |
| GuestFilesystem, DiskNames, GuestUsage | guest file systems to disks |
| Ipv4, AddressOverlap, PoolLookup, Quoting, Ifcfg | networks, pools, quoting, DNS lines |
| WorkerPool, Hotplug | the describing pool, live expansion |
| Witnesses, InterfaceWitnesses, FileWitnesses, DeletionWitnesses, MigrationWitnesses, WitnessDocs | inputs at which the code does less than one might expect |

## What the proofs show about the code

Some things one might expect do not hold in general; the lemmas give the exact condition, and for each a
concrete input that fails.

- A rewritten interface is looked up by its MAC as written while the keys are lower case
  (`InterfaceEffect.UpdateTakesEffect`, `InterfaceValidation.RequestReaches`, `InterfaceWitnesses.UpperCaseMac`).
- A new disk may take the target of a CDROM drive (`DeviceValidation.AllTargetsStayDistinct`,
  `Witnesses.DriveTargetTwice`).
- A clone with only some disks requested shares the others with its source (`VMCloneEffect.CloneShares`,
  `FileWitnesses.DiskShared`), and a disk requested twice leaves an orphan volume
  (`VMCloneEffect.OrphanCopy`, `FileWitnesses.CopyUnused`).
- The copy of a disk in a subdirectory of a pool is taken from the file of the same name in the pool's own
  directory (`VMCloneEffect.TakenFromItself`, `Witnesses.SubdirectoryDisk`).
- A clone request with one memory size rewrites the number of the current memory without its unit, or the unit
  without its number, so the clone states another size, and possibly a current size above the maximum
  (`CloneSizes.CloneMemory`, `CloneSizes.CurrentStated`, `Witnesses.OneSizeOnly`). A current number of CPUs
  without a maximum is ignored (`CloneSizes.CloneCPU`, `Witnesses.CurrentIgnored`).
- A source requested for an interface of a clone takes effect only if the mac or target element it goes by
  stands in front of the source element (`CloneSources.NamedSource`, `InterfaceWitnesses.SourceInFront`).
- Deleting a machine, or a disk of one, protects files that plain disks of other machines have as their path, but
  not backing files and not media of other devices (`Deletion.TakesFromOther`, `DeviceUpdate.UpdateTakes`,
  `DeletionWitnesses.BackingFileTaken`, `DeletionWitnesses.BackingFileUpdated`).
- A migration that removes the machine from the source keeps its contents in every run only if the target gets
  them for certain (`MigrationEffect.RunsKeep`). A disk whose path is the backing base of a later disk is given
  that disk's copy by a cold migration, whose content is another one (`MigrationEffect.NamesOwnCopy`,
  `MigrationWitnesses.StackedLost`). Backing files are not copied unless they are disks themselves
  (`MigrationEffect.ColdHolds`, `MigrationWitnesses.BackingLeft`). A live migration loses whatever the copies
  taken of the running guest do not hold (`MigrationWitnesses.StaleLost`).
- A cold migration overwrites and removes `/tmp/kvm-manager-migrate-<name>.xml` on the target without looking
  (`Migration.KeepsBut` excepts that path, `MigrationWitnesses.TemporaryFileLost`).
- A pool at the root directory matches no path but the root itself (`PoolLookup.MatchIsComponentPrefix`,
  `Witnesses.RootPool`).
- A kept line of an ifcfg file that ends in a lone carriage return changes at every rewrite
  (`Ifcfg.LastRewriteWins`, `Witnesses.LoneReturn`).

## Model

| member | source | states |
|---|---|---|
| DeviceRewrite.UpdateDomainDevices | agent/internal/kvm/virsh_config.go:314-433 | The one-pass loop with its buffers and depths writes exactly the tokens of the tree edit, for every balanced document: new devices as last children of devices, deleted ones gone, updated interfaces re-sourced. |
| DeviceRewrite.ShouldDeleteDiskTokens | agent/internal/kvm/virsh_devices.go:277-296 | On the tokens of a disk the search decides deletion as the tree edit does, nested tags and the last one winning included. |
| DeviceRewrite.EncodeUpdatedInterface | agent/internal/kvm/virsh_devices.go:236-267 | The tokens written for a kept interface are those of the re-sourced element, or the element unchanged if no update applies. |
| DeviceRewrite.EncodeFragments | agent/internal/kvm/virsh_devices.go:477-551 | The fragments for new interfaces and disks are the tokens of the elements that are read back by DeviceElements.DiskElementsAfter and InterfaceElementsAfter, in request order. |
| DeviceEffect.RestUnchanged | agent/internal/kvm/virsh_config.go:326-427 | With disks and interfaces taken out of both, the document before and after is the same: nothing else is touched or reordered. |
| DeviceEffect.AddThenDelete | agent/internal/kvm/virsh_config.go:397-408 | Deleting the targets just added gives the original document back, if none of them was in use. |
| DeviceEffect.DisksAfter | agent/internal/kvm/virsh_config.go:326-427 | With one devices element the disks read back are the old ones without the deleted targets, in order, then the new ones. |
| DeviceElements.DiskElementsAfter | agent/internal/kvm/virsh_devices.go:477-522 | Element by element: the disks that are not deleted stay as they were, in order, then one file disk per new one in request order, read back with driver qemu, the requested format as driver type, and the requested path, target and bus. |
| DeviceElements.InterfaceElementsAfter | agent/internal/kvm/virsh_devices.go:524-551 | The last interfaces read back are the new ones in request order: type and model as given or network and virtio, the source under the given attribute or the one of the type, and under no other. |
| DeviceElements.InterfaceElementsKept | agent/internal/kvm/virsh_devices.go:236-275 | Frame inside interfaces: those that are not deleted stay in order with everything in them but type and source, and entirely as they were if no update goes by their name or MAC. |
| DeviceUpdate.NewDisksDefined | agent/internal/kvm/virsh_devices.go:50-78 | From the request to the definition: the new definition ends with one disk per request, in order, with the trimmed target and bus, the format in lower case, and the file of the new volume. |
| DeviceUpdate.DeletedDisksLeave | agent/internal/kvm/virsh_devices.go:78-92 | Of the disks that were there the new definition keeps exactly those that no deletion names. |
| DeviceUpdate.InterfacesAsAsked | agent/internal/kvm/virsh_devices.go:78-92 | The interfaces of the new definition are what the interface changes alone make of them, whatever happens to the disks. |
| DeviceValidation.ValidateDeletedDisks | agent/internal/kvm/virsh_devices.go:370-417 | A deletion request is accepted if and only if it leaves a disk and every name is a listed disk other than the first named one, with a path; the actions name exactly the requested targets and their own volumes. |
| DeviceValidation.ValidateNewDisks | agent/internal/kvm/virsh_devices.go:419-467 | A request for new disks is accepted if and only if every disk is well formed and its target and volume are free of the machine, of the pool and of earlier requests. |
| DeviceValidation.FirstDiskSurvives | agent/internal/kvm/virsh_devices.go:391-408 | After every accepted request the rewritten domain still has its first named disk first, and has a disk if it had one. |
| DeviceValidation.TargetsStayDistinct | agent/internal/kvm/virsh_devices.go:419-467 | Targets of disks stay pairwise distinct over every accepted request. |
| DeviceValidation.AllTargetsStayDistinct | agent/internal/kvm/virsh_devices.go:419-430 | Over all devices, CDROM drives included, targets stay distinct if and only if no new target is the target of a device that is not a plain disk, which the check does not see. |
| InterfaceValidation.ValidateInterfaceUpdates | agent/internal/kvm/virsh_interfaces.go:8-47 | Requests are accepted if and only if each names a source and an interface of the machine; there is exactly one update for every interface asked for, that of the first request for it. |
| InterfaceValidation.AskedMeans | agent/internal/kvm/virsh_interfaces.go:8-34 | A request asks for the last interface of its name, or else for the last one of its MAC up to case, or else for none. |
| InterfaceValidation.ChosenApart | agent/internal/kvm/virsh_interfaces.go:112-123 | On a machine whose interfaces share no name and no MAC, the accepted updates have pairwise different keys. |
| InterfaceValidation.RequestReaches | agent/internal/kvm/virsh_devices.go:236-267 | What a whole accepted request does: the first request for an interface re-sources it if and only if the interface has a name, or a MAC without upper-case letters; one that no request asks for stays as it is. |
| InterfaceValidation.UpdatedNicReads | agent/internal/kvm/virsh_interfaces.go:225-235 | How a re-sourced interface reads: the bridge of a bridged pool of that name, or the pool as a network, or the source under the attribute of the interface type; MAC, name and model are its own. |
| InterfaceEffect.UpdatesByKey | agent/internal/kvm/virsh_interfaces.go:112-123 | The key map sends every name and lower-cased MAC of the accepted updates to the update of the last action that has this key, and has no other keys. |
| InterfaceEffect.UpdateTakesEffect | agent/internal/kvm/virsh_devices.go:236-246 | The update the rewriter finds for an accepted action is that action's own if and only if the interface has a name, or a MAC without upper-case letters: the lookup uses the MAC as written. |
| InterfaceEffect.InterfacesAfter | agent/internal/kvm/virsh_config.go:326-427 | The interfaces read back after the rewrite are the old ones in order, without the deleted ones and with each found update applied, then the new ones. |
| InterfaceValidation.InterfacesOfRequest | agent/internal/kvm/virsh_config.go:326-427 | Without deletions each interface of the rewritten domain is the edit of the one that was in its place, and the new ones follow. |
| InterfaceEffect.UpdateReachesInterface | agent/internal/kvm/virsh_devices.go:236-267 | The interface an update was accepted for is re-sourced by that very update under the same condition, and otherwise stays as it was. |
| InterfaceWitnesses.UpperCaseMac | agent/internal/kvm/virsh_interfaces.go:112-123 | The nameless interface with MAC 52:54:00:AA:BB:CC: the request to re-source it is accepted, gives one update that would change it, and the rewrite leaves the interface as it was. |
| Witnesses.DriveTargetTwice | agent/internal/kvm/virsh_devices.go:419-430 | A machine with a disk vda and a drive sda: a new disk on sda is accepted, and the rewritten domain has sda twice. |
| CloneRewrite.BuildCloneDomain | agent/internal/kvm/virsh_clone.go:235-369 | The one-pass loop with stack, skip depth and current interface writes exactly the tokens of the tree edit, for every balanced document. |
| CloneEffect.CloneIsAnonymous | agent/internal/kvm/virsh_clone.go:262-291 | In every clone, wherever they stand, no domain has a uuid or a description child and no interface a target child. |
| CloneEffect.ClonedChildren | agent/internal/kvm/virsh_clone.go:262-291 | Of the children of any element exactly those are missing, uuid and description of a domain and target of an interface; all others are there, in order. |
| CloneEffect.CloneKeepsShape | agent/internal/kvm/virsh_clone.go:235-369 | But for uuid and description of a domain, target of an interface, and the attributes and texts the edit means to change, every element, attribute, text and comment stays as it is, in order. |
| CloneEffect.CloneDiskSources | agent/internal/kvm/virsh_clone.go:278-285 | The disk sources are the old ones in order, each replaced by its copy, emptied by the disconnect policy, or kept. |
| CloneEffect.SourcePathSurvives | agent/internal/kvm/virsh_clone.go:278-285 | A source path that is no copy is still a disk source of the clone if and only if it was one, no request maps it, and disks are not disconnected. |
| CloneEffect.CloneMacs | agent/internal/kvm/virsh_clone.go:297-302 | MACs are the old ones in order, each mapped one replaced. |
| CloneSizes.CloneName | agent/internal/kvm/virsh_clone.go:329-334 | The document still has one name, and it is the requested one. |
| CloneSizes.CloneCPU | agent/internal/kvm/virsh_clone.go:275-352 | For every combination of the two counts: when the clone shows the requested CPUs, and when current is within maximum, as conditions on request and source. |
| Witnesses.CurrentIgnored | agent/internal/kvm/virsh_clone.go:275-352 | A request for two current CPUs without a maximum is accepted, and the clone of a machine with four has four. |
| CloneSizes.CloneMemory | agent/internal/kvm/virsh_clone.go:272-346 | For every combination of the two sizes, units included: the clone shows the requested memory if and only if no current size is given, or a maximum is, or the source counts its current memory in KiB; and the exact condition under which current is within maximum. |
| CloneSizes.CurrentStated | agent/internal/kvm/virsh_clone.go:272-346 | The bytes the rewritten current memory states: its number follows the current size of the request, its unit the maximum, each on its own. |
| Witnesses.OneSizeOnly | agent/internal/kvm/virsh_clone.go:272-346 | From a source with 2048 MiB, asking for 1 MiB of current memory alone gives 1024 MiB, and a maximum of 1 MiB alone leaves a current memory of 2 MiB. |
| CloneInterfaces.CloneInterfaces | agent/internal/kvm/virsh_clone.go:286-321 | The interfaces read back from the clone are the source's in order, each with its new MAC, without a target, and with the requested source where one applies. |
| CloneInterfaces.SourceStands | agent/internal/kvm/virsh_clone.go:286-316 | The source set on an interface is the one stored for its target if the target stands in front of the source element, else the one stored for its MAC if the MAC does, else none. |
| CloneSources.InterfaceSources | agent/internal/kvm/virsh_clone.go:190-233 | The map of requested sources has for every key, a name or a MAC, the resolved source of the last request that writes it, and no other keys. |
| CloneSources.SourceGiven | agent/internal/kvm/virsh_clone.go:190-316 | From the requests to the clone: for every list of requests, which stored source an interface of the clone is given, the order of its elements included. |
| CloneSources.NamedSource | agent/internal/kvm/virsh_clone.go:190-316 | A request that names an interface, with no later one for its name or MAC, takes effect if and only if the target, or a MAC, stands in front of the source element. |
| InterfaceWitnesses.SourceInFront | agent/internal/kvm/virsh_clone.go:286-316 | An interface whose source element stands first: the request is stored under name and MAC, and the clone keeps the old source. |
| DiskRenaming.CloneDisks | agent/internal/kvm/virsh_clone.go:278-285 | The disks read back from the clone are the source's in order, with the same device and target and the renamed path. |
| MediaChange.UpdateCdromBootOrder | agent/internal/kvm/virsh_media.go:127-196 | The rewriter as a whole, choosing the mode by a search over the tokens, gives the tokens of the tree edit, and an error exactly if the CDROM target is blank or does not exist. |
| MediaChange.HasOSBootElements | agent/internal/kvm/virsh_media.go:198-229 | The token search answers whether an os element holds a boot element that names a device. |
| MediaChange.HasCdromTargetInDomain | agent/internal/kvm/virsh_media.go:324-358 | The token search answers whether a CDROM disk holds that target. |
| MediaRewrite.WithoutBoot | agent/internal/kvm/virsh_media.go:405-425 | Taking boot elements out of a token buffer is the tree edit that removes them at any depth. |
| MediaRewrite.SetDiskBootOrder | agent/internal/kvm/virsh_media.go:427-445 | All boot elements of the disk go, and one with the given order is put behind the first target that ends, and nowhere else. |
| MediaRewrite.UpdateDiskTokens | agent/internal/kvm/virsh_media.go:360-385 | One disk is rewritten as the tree edit says, and the flags tell whether it is the drive asked for and whether a normal disk has been met. |
| MediaRewrite.UpdateDisks | agent/internal/kvm/virsh_media.go:139-196 | The per-disk loop equals the tree edit and reports whether the drive exists. |
| MediaOS.RewriteOSBoot | agent/internal/kvm/virsh_media.go:284-314 | The children of an os element lose all boot devices and get the new ones in front of the end of the element. |
| MediaOS.UpdateOS | agent/internal/kvm/virsh_media.go:231-282 | The os loop equals the tree edit and reports whether there was an os element. |
| MediaDevices.OSBootsFrom | agent/internal/kvm/virsh_media.go:284-322 | In os mode, for every document: the devices read back from the boot elements of every os element are exactly cdrom, hd after a connect and hd after a disconnect. |
| MediaDevices.OSModeMeans | agent/internal/kvm/virsh_media.go:198-229 | The os mode applies exactly if some os element names a boot device. |
| MediaDevices.ChangeKeepsRest | agent/internal/kvm/virsh_media.go:127-196 | Frame: in os mode a change touches nothing but the boot elements inside os that name a device, in per-disk mode nothing but those inside disks. |
| MediaBoot.DisksAbsorb | agent/internal/kvm/virsh_media.go:360-385 | In per-disk mode the later of two rewrites alone decides, whatever the drives and directions. |
| MediaBoot.ChangeAbsorbed | agent/internal/kvm/virsh_media.go:127-196 | A change neither switches the mode nor makes drives appear or vanish, and the next change undoes its traces. |
| MediaBoot.OnlyLastChangeCounts | agent/internal/kvm/virsh_media.go:127-196 | Path independence: after any run of changes the document is the original with only the last effective change applied. |
| MediaOrders.ChangeOrders | agent/internal/kvm/virsh_media.go:360-385 | In per-disk mode a connect gives order 1 to the target and 2 to the first normal disk with a target, a disconnect 1 to that disk alone; no other targeted drive or disk shows an order and all other devices are as before. |
| MediaOrders.ConnectBootsTarget | agent/internal/kvm/virsh_media.go:360-385 | With unique drive targets exactly one drive shows an order after a connect: the target, with order 1. |
| MediaOrders.ChangePossible | agent/internal/kvm/virsh_media.go:127-137 | A change goes through exactly if the target is named and a CDROM drive has it: as its own target in per-disk mode, as any target in it in os mode. |
| MediaOrders.BootStandsBehindTarget | agent/internal/kvm/virsh_media.go:405-445 | A disk that gets an order has one boot child, right behind its first target, and its other children in order. |
| MigrationXml.BuildMigrationDomain | agent/internal/kvm/virsh_create_migrate.go:322-366 | The loop writes the tokens of the document with only mapped disk sources replaced. |
| MigrationXml.MigrateDisks | agent/internal/kvm/virsh_create_migrate.go:335-342 | The disks read back are the source's in order with their paths renamed. |
| MigrationXml.MigrationKeepsRest | agent/internal/kvm/virsh_create_migrate.go:322-366 | Frame: nothing changes but the file and dev attributes of disk sources. |
| Storage.Host.CreateStorageVolume | agent/internal/kvm/virsh_pools.go:116-144 | It succeeds if and only if the request passes the checks, the path is free in a known pool, and no command fails; then exactly the new blank volume is added. On failure nothing is lost, and the volume is left only if the look at it failed by itself or a machine names its path. |
| Storage.Host.CloneStorageVolumeToPool | agent/internal/kvm/virsh_pools.go:150-204 | It succeeds if and only if names and format pass the checks, the original is listed, the path is free, and no command fails; then exactly the new volume is added, with the content of the original. Of a failing copy at most the volume is left, and only after a failed look, a failed removal of a partial file, or with a user. |
| Storage.Host.DeleteStorageVolume | agent/internal/kvm/virsh_pools.go:97-114 | It succeeds if and only if the volume is listed, no command fails, and no machine uses its path or it is an ISO image; then exactly that file is gone, else nothing has changed, and no event shows any other state. |
| Storage.Host.VolumeUsedByVM | agent/internal/kvm/virsh_pools.go:617-638 | The search over machines and disks answers whether any definition uses the path. |
| Storage.CleanVolumePath | agent/internal/kvm/virsh_pools.go:190-190 | Joining a clean pool directory and a proper volume name gives the path the pool lists. |
| VMCreation.CreateVM | agent/internal/kvm/virsh_create_migrate.go:22-134 | It succeeds if and only if the name is free, every volume can be made in its turn, virt-install gives a document, and no command fails. For every number of disks and every schedule of failures: either the machine is defined as the printed document, which a command of the log gave, with the disks of that document, and all its volumes are there with their contents, or the host is as before but for files of the run whose look or removal failed, or that a machine uses; at every moment old files and other definitions are intact and a definition implies all its volumes; on success the log has the definition and then all settings in a row. |
| Provisioning.Cleanup | agent/internal/kvm/virsh_clone.go:501-508 | The commands are exactly the look and the removal of each volume from the last one to the first, whatever fails in between: each is gone unless a command of this very cleanup on it failed or a machine uses it, and nothing else changes at any moment. |
| Provisioning.NothingLeft | agent/internal/kvm/virsh_create_migrate.go:37-41 | If no look at a volume of the run and no removal of one failed, and no machine uses one, a run without a definition leaves the host exactly as it was. |
| VMClone.ValidateCloneDisks | agent/internal/kvm/virsh_clone.go:131-163 | Requests are accepted if and only if each names a disk with its own path and no two have the same target. |
| VMClone.AcceptedMeans | agent/internal/kvm/virsh_clone.go:131-163 | On the requests as they are given: accepted exactly if each has a name, a pool and a target name, names a listed disk with a path, gives no path or that one, and no two have the same pool and target name. |
| VMClone.CloneVM | agent/internal/kvm/virsh_clone.go:16-109 | It succeeds if and only if the checks pass, every copy can be made in its turn, and no command fails. Either the clone is defined as the rewritten document, which a command of the log gave, with its disks and all copies, or the host is as before but for files with such an excuse; the same safety at every moment. |
| VMCloneEffect.ClonedDisks | agent/internal/kvm/virsh_clone.go:55-83 | Each disk that a request names becomes the copy made last for it, a new file, with the content of the original if that copy was taken from the disk itself; other disks keep or drop their path, and every disk keeps its backing chain. |
| VMCloneEffect.CloneShares | agent/internal/kvm/virsh_clone.go:131-163 | The clone shares no existing file if and only if every disk with an existing file is named by a request or disks are disconnected. |
| FileWitnesses.DiskShared | agent/internal/kvm/virsh_clone.go:131-163 | A machine with two disks, one of them requested: the completed clone has the other one's file as its disk. |
| VMCloneEffect.OrphanCopy | agent/internal/kvm/virsh_clone.go:77-82 | A copy is a disk of the clone's definition if and only if no later request names the same disk, or a disk that no request names already has the copy's path. |
| FileWitnesses.CopyUnused | agent/internal/kvm/virsh_clone.go:77-82 | One disk requested twice: both copies are made, and the first is used by no disk of the clone. |
| VMCloneEffect.TakenFromItself | agent/internal/kvm/virsh_clone.go:64-75 | The copy is taken from the disk itself if and only if the disk lies directly in the directory of the pool its path is looked up in, under a name without white space at its ends. |
| Witnesses.SubdirectoryDisk | agent/internal/kvm/virsh_clone.go:64-75 | The copy of /p/s/x in pool directory /p is taken from /p/x. |
| VMCloneEffect.VolumeFromItself | agent/internal/kvm/virsh_clone.go:64-75 | The copy of a volume directly in a listed pool is taken from that very volume, pool lookup and base name together. |
| Deletion.DeleteVM | agent/internal/kvm/virsh_actions.go:64-98 | If a query is not answered well nothing happens; else the commands are exactly those of the removal of the machine and its own disks, and it succeeds if and only if each volume may go and is there in its turn and no command fails. At every moment the machine is untouched, or undefined with only unused volumes of its disks gone. |
| Deletion.DeleteConfigDisksAfterUndefine | agent/internal/kvm/virsh_actions.go:107-131 | The commands given are exactly: undefine, then for each volume the look and the removal, up to the first that does not work or whose volume a machine uses; nothing is removed unless the machine is undefined first. |
| Deletion.OthersKeepDisks | agent/internal/kvm/virsh_pools.go:617-638 | A file that a deletion takes is a volume of one of the deleted machine's disks, and either an ISO image or no disk path of another machine, at any moment. |
| Deletion.TakesFromOther | agent/internal/kvm/virsh_pools.go:617-638 | A completed deletion takes a file another machine depends on, backing files and media included, if and only if one of the deleted machine's volumes is such a file; then it is an ISO image or the other machine has it behind a disk or in another device, where the search for users does not look. |
| Deletion.DependsHow | agent/internal/kvm/virsh_pools.go:617-638 | A machine depends on a file as the path of a plain disk, which the search sees, or as a backing file or medium of another device, which it does not. |
| DeletionWitnesses.BackingFileTaken | agent/internal/kvm/virsh_pools.go:617-638 | A legal log of a completed deletion of the template with disk /p/base: the backing file of the other machine's disk /p/over is gone, and no search for users finds it. |
| Deletion.OwnDisksGone | agent/internal/kvm/virsh_actions.go:140-151 | A successful deletion removes every disk that is a volume of its own pool. |
| DeviceUpdate.UpdateVMDevices | agent/internal/kvm/virsh_devices.go:40-109 | It succeeds if and only if the checks pass, the new volumes can be made, the volumes of the deleted disks can go in their turn, and no command fails. Before the new definition nothing is lost at any moment and a failure rolls back; after it only the volumes of exactly the requested disks go, and only if no definition uses them; on success the disks are grown right behind the definition. |
| DeviceUpdate.UsedFilesStay | agent/internal/kvm/virsh_devices.go:100-106 | A file that is a disk path of any definition after the update is there at every moment, whatever was to be deleted, ISO images excepted. |
| DeviceUpdate.UpdateTakes | agent/internal/kvm/virsh_devices.go:100-106 | A completed update takes a file some machine depends on if and only if a requested disk's volume is such a file; then it is an ISO image, or a backing file or a medium of another device. |
| DeletionWitnesses.BackingFileUpdated | agent/internal/kvm/virsh_devices.go:100-106 | A legal log of an accepted update that deletes a disk, with every command working, and with it the backing file of another machine. |
| DeviceUpdate.NewVolumesStay | agent/internal/kvm/virsh_devices.go:56-92 | A volume the update made is never removed by it once the definition stands. |
| Migration.CopyMigrationDisks | agent/internal/kvm/virsh_create_migrate.go:399-428 | The commands given are exactly the reservation and the copy of each disk in order, up to the first that does not work or the first disk that fails a check; whatever fails no existing target file is touched, and on success all disks are in new files with the content of the originals. |
| Migration.RunArrives | agent/internal/kvm/virsh_create_migrate.go:278-320 | For every schedule of failures, a run that gets through has the machine and the copies on the target; what was at the path of the temporary file is gone or replaced. |
| VMMigration.MigrateStopped | agent/internal/kvm/virsh_create_migrate.go:278-320 | The two logs grow by exactly the run that setting and schedule determine, or nothing happens; at every moment the source is untouched or the machine with its own disks has arrived, the target keeps all but the temporary file, and in a safe setting some host has the machine with its contents. |
| VMMigration.MigrateLive | agent/internal/kvm/virsh_create_migrate.go:235-276 | The same for a live migration, with no temporary file, and with the machine stopped on the source before it is undefined. |
| Migration.MapsToCopy | agent/internal/kvm/virsh_create_migrate.go:422-425 | The path map sends a disk to its own copy if and only if its path is not the backing base of a later disk. |
| MigrationEffect.NamesOwnCopy | agent/internal/kvm/virsh_create_migrate.go:305-311 | The definition on the target names a disk's own copy if and only if the disk is no later disk's backing base. |
| MigrationEffect.ColdHolds | agent/internal/kvm/virsh_create_migrate.go:278-320 | The arrived machine has on the target the original contents of all disks and backing files if and only if every disk has the content of the disk whose copy it is given, and each backing file was copied as a disk or was on the target with that content. |
| MigrationEffect.OwnContentsIff | agent/internal/kvm/virsh_create_migrate.go:422-425 | With pairwise different contents the first of these conditions holds if and only if no disk is a later disk's backing base. |
| MigrationEffect.ColdNeverLost | agent/internal/kvm/virsh_create_migrate.go:278-320 | Under that condition, at every moment of a cold migration, whatever fails, some host has the machine with the contents of all its disks and backing files. |
| MigrationEffect.ColdLost | agent/internal/kvm/virsh_create_migrate.go:278-320 | The condition is exact: a completed run that removed the source holds the contents somewhere if and only if it was met. |
| MigrationWitnesses.StackedLost | agent/internal/kvm/virsh_create_migrate.go:278-320 | A machine whose second disk is backed by its first, migrated cold with every command working: legal logs of a run that arrives, after which no host has it with its contents. |
| MigrationWitnesses.BackingLeft | agent/internal/kvm/virsh_create_migrate.go:278-320 | The same for a machine whose backing file is no disk of its own. |
| MigrationWitnesses.StaleLost | agent/internal/kvm/virsh_create_migrate.go:235-276 | The same for a live migration: the copy of the first disk is stale, and the original is given up. |
| MigrationWitnesses.TemporaryFileLost | agent/internal/kvm/virsh_create_migrate.go:303-311 | A run of a cold migration in which every command works, at whose end the file that was at the temporary path of the target is gone. |
| MigrationEffect.RunsKeep | agent/internal/kvm/virsh_create_migrate.go:235-320 | For both migrations, the machine is kept with the contents of all its disks and backing files at every moment of every run, however its commands go, if and only if the source is not to be undefined, or a check or an occupied path known before keeps the run from arriving, or the target gets the contents for certain: cold under the condition of ColdHolds, live only if there is no disk to copy. |
| GuestFilesystem.MergeRows | agent/internal/kvm/virsh_guest_filesystem.go:129-168 | Per name the row of highest priority is kept, the latest among equals, and every node is stored under its own name. |
| GuestFilesystem.WinnerDecides | agent/internal/kvm/virsh_guest_filesystem.go:143-168 | The kept node says what its row says, a dash read as nothing; no row of the name outranks it and it outranks the later ones, in the order lv, vg, pv, partition, device, all else. |
| GuestFilesystem.UniqueSameSizePV | agent/internal/kvm/virsh_guest_filesystem.go:232-245 | Over any order of the map the answer is the only physical volume of that size, or none. |
| GuestFilesystem.ResolveNodeDevice | agent/internal/kvm/virsh_guest_filesystem.go:211-230 | The recursion over a shared set terminates on every map and answers the guarded walk; with nothing seen that is exactly the disk at the end of the way that goes on from node to node by the rule of GoesOn, and nothing if there is none. |
| GuestFilesystem.WalkRule | agent/internal/kvm/virsh_guest_filesystem.go:219-230 | The rule, on any map and whatever was seen: from a volume group of positive size with a listed smaller parent of positive size the search goes on at the one physical volume of the size of the group, and ends without an answer if there is none or more than one; from any other listed node with a parent it goes on at the parent. |
| GuestFilesystem.WalkLeads | agent/internal/kvm/virsh_guest_filesystem.go:211-230 | The walk answers a disk if and only if the way by that rule leads to it. |
| GuestFilesystem.WalkIsFirstDisk | agent/internal/kvm/virsh_guest_filesystem.go:211-230 | The walk answers exactly the first node along parents that names a disk, and fails if and only if no node however far does, cycles included. |
| GuestFilesystem.ResolveFilesystemDeviceParent | agent/internal/kvm/virsh_guest_filesystem.go:187-209 | The candidates are all the name itself, so the branch is one plain walk. |
| GuestFilesystem.ResolveFilesystemDevice | agent/internal/kvm/virsh_guest_filesystem.go:170-185 | All branches together are one plain walk from the name of the file system: the answer is exactly the disk the rule leads to. |
| DiskNames.GuestDiskDeviceName | agent/internal/kvm/virsh_guest_filesystem.go:300-313 | The loop writes the bijective base-26 name of the index. |
| DiskNames.DecodeLetters | agent/internal/kvm/virsh_guest_filesystem.go:300-313 | Decoding undoes naming for every index. |
| DiskNames.LettersDecode | agent/internal/kvm/virsh_guest_filesystem.go:300-313 | Naming undoes decoding for every name: the numeral system leaves none out. |
| DiskNames.DirectGuestDevice | agent/internal/kvm/virsh_guest_filesystem.go:266-282 | The loop strips the partition number. |
| DiskNames.DirectOfDisk | agent/internal/kvm/virsh_guest_filesystem.go:266-282 | A disk's name with any digits behind it leads back to the disk. |
| DiskNames.DirectMeans | agent/internal/kvm/virsh_guest_filesystem.go:266-282 | A name stands for a disk exactly if its last component is, perhaps behind an x, a vd, sd or hd name that ends in no digit, perhaps with a number behind it. |
| DiskNames.DiskTargets | agent/internal/kvm/virsh_guest_filesystem.go:284-298 | The map names each placed disk by its position and no entry overwrites another. |
| GuestUsage.UsageByDisk | agent/internal/kvm/virsh_guest_filesystem.go:81-99 | Each target gets the sum of its file systems, and all targets together the sum of all file systems that lead to a known disk. |
| Ipv4.NetworkValue | agent/internal/kvm/virsh_network_xml.go:129-143 | Masking gives the aligned first address of the block, whose last address still is a 32-bit number. |
| Ipv4.RangeValue | agent/internal/kvm/virsh_network_xml.go:115-127 | For every address and prefix nothing wraps around: gateway, start and end are network+1, network+2 and broadcast-1, and the two longest prefixes have no range. |
| Ipv4.FixedAddressEntries | agent/internal/kvm/virsh_network_xml.go:86-103 | Leases are accepted if and only if the prefix is 20 to 30, and then are exactly network+2 up to broadcast-1 in order; the loop ends. |
| Ipv4.LeasesMatchDhcp | agent/internal/kvm/virsh_network_xml.go:64-84 | The leases run from the start to the end of the DHCP range. |
| Ipv4.LeaseInside | agent/internal/kvm/virsh_network_xml.go:115-127 | No lease is for the network, gateway or broadcast address. |
| Ipv4.DistinctMacs | agent/internal/kvm/virsh_network_xml.go:153-155 | All leases of a block have different MACs, although only 24 address bits are used. |
| Ipv4.LeaseReads | agent/internal/kvm/virsh_network_xml.go:149-155 | Reading a lease back gives the address from its dotted text, and the three low bytes of the address, highest first, from its MAC behind 52:54:00. |
| AddressOverlap.PointTests | agent/internal/kvm/host_interface_address_validation.go:41-43 | The two point-in-block tests fail if and only if the blocks are disjoint, for any width (blocks nest or are disjoint, section 3.1 of RFC 4632). |
| AddressOverlap.ValidateUniqueness | agent/internal/kvm/host_interface_address_validation.go:19-47 | A static address is accepted if and only if it parses and its block is disjoint from that of every other interface with a parsed address, the named bridge source excepted. |
| PoolLookup.PoolTargetForPath | agent/internal/kvm/virsh_create_migrate.go:430-448 | The loop answers the first pool among those with the longest matching directory. |
| PoolLookup.PoolNameForPath | agent/internal/kvm/virsh_config.go:798-816 | The loop answers the name of that same pool, so both lookups agree. |
| PoolLookup.BestIsFirstLongest | agent/internal/kvm/virsh_config.go:798-827 | The answer is the pool whose directory is longest among those the path is in or continues behind with a slash or a backslash, the first of equals; without an answer there is none. |
| PoolLookup.SameLengthSamePath | agent/internal/kvm/virsh_config.go:818-827 | Two matches of equal length have the same directory. |
| PoolLookup.OrderIrrelevant | agent/internal/kvm/virsh_config.go:798-816 | With distinct directories the answer is the same for every order of the pools. |
| PoolLookup.MatchIsComponentPrefix | agent/internal/kvm/virsh_config.go:818-827 | On absolute backslash-free paths matching is component prefix, except that the root directory matches only itself. |
| Witnesses.RootPool | agent/internal/kvm/virsh_config.go:818-827 | The file /p is below the directory of a pool at the root, and the lookup does not find the pool. |
| Paths.CleanTwice | agent/internal/kvm/virsh_pools.go:674-679 | Lexical cleaning is idempotent. |
| Quoting.QuotedIsOneWord | agent/internal/kvm/virsh_host_interfaces.go:524-526 | The shell reads either quotation as one word, the original value, for every string. |
| Quoting.QuotationReads | agent/internal/kvm/virsh_migration_ssh.go:388-390 | The same for a quotation anywhere in a command, after any text and in front of any text. |
| Quoting.RemoteReads | agent/internal/kvm/virsh_migration_ssh.go:244-246 | The remote command is read as three words, the last one the command as it was. |
| Quoting.NestedReads | agent/internal/kvm/virsh_migration_ssh.go:228-238 | Twice nested, the inner shell reads the host name as it was. |
| Quoting.HostsReads | agent/internal/kvm/virsh_migration_ssh.go:186-190 | The shell reads the hosts command as sed with the script for the trimmed host name and printf with address, blank and host name, one word each, whatever they hold. |
| Quoting.EscapesEach | agent/internal/kvm/virsh_host_interfaces.go:528-535 | The five replacements in a row equal a map of single characters. |
| Quoting.EscapeRoundTrip | agent/internal/kvm/virsh_host_interfaces.go:528-535 | Reading the predefined entities (section 4.6 of XML 1.0) gives the value back. |
| Ifcfg.UpdateIfcfgDns | agent/internal/kvm/host_interface_system_config.go:162-182 | The loops give the text of the kept lines and the numbered servers. |
| Ifcfg.OtherLinesKept | agent/internal/kvm/host_interface_system_config.go:162-182 | All other non-blank lines are kept in order, but for a carriage return at their end. |
| Ifcfg.DnsTextMeans | agent/internal/kvm/host_interface_system_config.go:168-195 | A line counts as a DNS entry exactly if it starts with DNS, one or more digits and an equals sign. |
| Ifcfg.LastRewriteWins | agent/internal/kvm/host_interface_system_config.go:162-182 | Rewriting twice equals the second rewrite alone if and only if no kept line ends in a carriage return. |
| Ifcfg.OrdinaryFile | agent/internal/kvm/host_interface_system_config.go:163-163 | A file whose carriage returns are all part of CRLF meets that condition. |
| Witnesses.LoneReturn | agent/internal/kvm/host_interface_system_config.go:162-182 | A line that ends in two carriage returns and a newline keeps one at the first rewrite and loses it at the second. |
| Ifcfg.ServersReadBack | agent/internal/kvm/host_interface_system_config.go:178-180 | Reading the numbered keys back gives exactly the servers in order. |
| WorkerPool.StepInv | agent/internal/kvm/virsh.go:75-104 | Every step of producer and workers keeps the invariants: no index is held twice, each delivered one is at work or written, slots hold what was written. |
| WorkerPool.NoDeadlock | agent/internal/kvm/virsh.go:84-103 | Until the wait returns some step is possible, for every number of items. |
| WorkerPool.RunsEnd | agent/internal/kvm/virsh.go:84-103 | Every interleaving ends within a bound linear in the number of items. |
| WorkerPool.PoolResult | agent/internal/kvm/virsh.go:75-104 | When the wait returns, every index was delivered once in order and written once by at most four workers, and the result is that of the plain loop. |
| WorkerPool.DescribeInOrder | agent/internal/kvm/virsh.go:61-69 | The plain loop gives the descriptions in order. |
| Hotplug.Machine.UpdateRunning | agent/internal/kvm/virsh_config.go:74-98 | The new sizes after any combination of failing commands, and success exactly if the request expands and the needed commands work. |
| Hotplug.UpdateExpands | agent/internal/kvm/virsh_hotplug.go:8-30 | One update, whatever fails, keeps the maxima, shrinks nothing and exceeds no maximum, also for sizes that are no multiple of 1024 KiB. |
| Hotplug.UpdateReaches | agent/internal/kvm/virsh_hotplug.go:32-49 | With working commands the sizes read back are the requested ones. |
| Hotplug.RunExpands | agent/internal/kvm/virsh_config.go:74-98 | The same over every run of updates, accepted or not, failing or not. |

## Left out

- The XML lexer, encoder and namespaces: documents start as tokens, attributes as name and value. Tokens are
  values, so sharing of byte slices between the decoder and buffered text is not modelled.
- Attribute helpers that edit a slice in place are modelled as functions on values; no caller keeps the old slice.
- DeviceRewrite.UpdateDomainDevices: the two token buffers of the original, never in use together, are one
  variable, and its stack, whose content is never read, is not kept.
- Documents with more than one devices element: the loop adds the fragments to each of them, as the tree edit
  does; the statements about disks read back ask for one (`DomainConfig.DomainDoc`).
- InterfaceEffect.InterfacesAfter: asks for interfaces as libvirt writes them, one source and direct children only.
- DeviceElements.InterfaceElementsAfter: asks the same, as does DeviceUpdate.InterfacesAsAsked; the elements themselves
  (`DeviceElements.InterfaceElementsKept`) are for any.
- DeviceUpdate.DeletedDisksLeave: asks for disks without nested disks whose targets are direct children.
- InterfaceEffect.UpdateTakesEffect: asks that no two actions share a key, as does
  InterfaceEffect.UpdateReachesInterface; InterfaceValidation.ChosenApart says when accepted ones do not.
- InterfaceValidation.RequestReaches: asks for interfaces without a name or MAC in common, as libvirt defines them;
  the checks on deleted and on new interfaces are left out.
- CloneSizes.CloneMemory: asks for one memory and one currentMemory element, each a number with a unit libvirt
  knows; a missing currentMemory element is left out.
- CloneSizes.CloneCPU: asks for one vcpu element with a number; CloneSizes.CloneName for one name element.
- CloneInterfaces.CloneInterfaces: asks for interfaces as libvirt writes them and for none outside devices.
- CloneSources.SourceGiven: the interface has at most one mac and one target element.
- MediaBoot.OnlyLastChangeCounts: asks that boot elements contain no disk and no target, as libvirt's never do.
- MediaOrders.ChangeOrders: asks the same of boot elements, as does MediaOrders.ConnectBootsTarget.
- MediaOrders.BootStandsBehindTarget: asks that the targets of the disk are direct children of it.
- MediaDevices.OSBootsFrom: boot elements whose dev is blank name no device and stay; they are not counted.
- VMCloneEffect.ClonedDisks: asks for at most one source element for each disk with an absent or non-blank path,
  and for one devices element.
- MigrationEffect.ColdHolds: asks in addition for absolute paths without surrounding white space, and for no disk
  and no backing file at the path of the temporary file. Contents are compared as wholes: how a disk's content
  and its backing files make up what the guest sees is not modelled.
- MigrationEffect.ColdNeverLost: starts from a source on which every disk and backing file exists.
- MigrationEffect.OwnContentsIff: is for pairwise different contents; ColdHolds needs no such condition.
- MigrationEffect.RunsKeep: starts from a source on which every disk and backing file exists. The content of a copy
  of a disk in use is arbitrary, as the guest may write at any time; media of other devices are not counted.
- VMMigration.MigrateLive: the definition on the target is taken to be permanent; without the persistent option
  libvirt forgets it when the machine stops. A running guest's memory, post-copy and the plain migration without
  disk copies are left out.
- VMMigration.MigrateStopped: what virsh answers about the machine, its disks and the target's pools is a parameter,
  as is the content of the sent document; checks of the destination's address are left out.
- Storage.Host: what queries answer is a parameter, or depends on the schedule where a query stands between
  commands. Listings of machines and their disks always answer; the original takes a failing listing in `volumeUsedByVM` for an unused volume.
  Pool directories are clean and absolute. Text of commands, timeouts and temporary files on the agent's own host
  are not modelled.
- Storage.Host.Do: a failing command other than a conversion or a transfer has no effect; a command that took
  effect although it timed out is not modelled.
- Deletion.OwnDisksGone: restricted to disks whose volume lies in the pool recorded for them. The pool comes from
  the backing base and the name from the active file, so an overlay across pools names another file.
- Deletion.TakesFromOther: for which deletions a file is lost is said of completed ones; `Deletion.OthersKeepDisks`
  is about every moment.
- VMCreation.CreateVM: the document comes from virt-install and is arbitrary; memory statistics, description and
  start are steps that may change the definition but not its disks. Request checks and argument building are easy
  members. The last query about the finished machine, whose failure the original reports, is left out.
- VMClone.CloneVM: option checks, and the choice of MACs, are parameters, as are the interface sources, which
  CloneSources.InterfaceSources determines; a MAC the request leaves open is random.
- DeviceUpdate.UpdateVMDevices: resizing is a step that may fail and leaves contents alone; the interface
  changes are a parameter. The live variant, which attaches disks one by one, is left out.
- GuestFilesystem.MergeRows: takes rows cut into columns; CSV text and number parsing are left out, as are 64-bit
  overflows of sizes and sums.
- Ipv4.FixedAddressEntries: takes a parsed address and prefix; CIDR text and IPv4-mapped IPv6 forms are left out.
- AddressOverlap.ValidateUniqueness: takes parsed addresses, None for a text that does not parse; a family has one width.
- Strings: lower-casing is that of ASCII letters; case folding is exact against ASCII words only.
- Quoting: expansions, comments and pathname patterns outside quotes are not read; each operator character is a
  token of its own.
- WorkerPool: describing a machine is a function of its name; the model has one state for each channel
  operation and slot write, not the memory model of the language.
- Hotplug.Machine.UpdateRunning: statistics period and description follow the sizes and are left out; the live
  and the stored definition change together.
- `rewriteDomainMemoryXML`, `setOrRemoveAttr`, graphics and console rewrites and `mergeConfigInterfaces`: loops of
  the same kind with simpler edits.
- Routers, authentication, event streams, proxies, rates and percentages, random MACs, and the frontend.
