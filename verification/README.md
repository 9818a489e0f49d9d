# Sizer models in Dafny

A model, in Dafny 4.11, of the parts of the SC//HyperCore sizer where several
records, files, requests or workers have to agree with each other, with proofs
of what they keep. `dafny verify dfyconfig.toml` checks all of it.

- **Estate merge** (`Reachability`, `UnionFind`, `EstateModel`, `VmClasses`,
  `VmOrder`, `Overlaps`, `EstateKeep`, `EstateRecut`, `EstateTargets`,
  `EstateMerge`, `EstateMapping`, `EstateStores`, `Datastores`, `ClusterSplit`,
  `SplitAgreement`): several parsed files become one estate. A union-find over
  VMs, written in place with path halving, is proved to hold exactly the closure
  of the edges drawn; overlap choices keep a copy of every VM class and one
  file's hosts for every host key; the re-cut into the targets the user asked for
  loses nothing and duplicates nothing; every target gets the datastore parts it
  is due; one file merges as the single-file splitter splits it.
- **Catalog backup and restore** (`CatalogModel`, `CatalogImport`,
  `CatalogExport`, `CatalogRows`, `CatalogBlocks`, `CatalogRestore`,
  `CatalogExact`, `CatalogAdd`, `CatalogGain`, `CatalogRelist`, `CatalogReads`,
  `CatalogSheets`, `CatalogDb`): the eleven-sheet export and the import that reads it, as
  functions and as a class that writes the tables row by row. What an import
  makes of any workbook is stated key by key; restoring a backup over any catalog
  is characterised completely; the round trip and "adding twice" follow.
- **OAuth codes and tokens** (`OAuthModel`, `OAuthSafety`, `OAuthLineage`,
  `OAuthGrants`, `OAuthAnswers`, `OAuthServer`): one request is one step; the
  theorems are over every run, both of what is refused and of what succeeds.
- **Job queue and admission gate** (`JobQueue`, `AdmissionGate`): interleaved
  steps of any number of workers or threads. One gate proof serves the export
  gate and the LibreOffice gate.
- **Quoted hardware** (`ClusterLayouts`, `HardwareFigures`, `HardwareOverride`,
  `HardwareAgreement`, `HardwareRecords`): a stored recommendation re-described
  for other hardware agrees with a direct build of the quoted figures, and the
  input record is never written.
- **Tool schemas** (`ToolSchema`, `ToolReports`, `ToolDefaults`) and **licence
  prices** (`Licensing`).
- `Text`, `Rounding` and `Sequences` are shared helpers.

Code that updates state in place is modelled by classes and loops whose
contracts tie the new state to a function of the old one; what the system
promises is then proved about those functions.

Where the code does not do what its comments say, the model follows the code and
proves when the two agree: a cluster named "__skip__" is skipped by a merge
(`SplitAgreement.OneFileAgrees`); VM classes can depend on upload order when a
file repeats a uuid (`VmOrder.OrderMatters`, `VmOrder.OrderJoins`,
`VmOrder.OrderExact`); a third file's cluster of a shared name joins the common
target without sharing a host (`EstateRecut.ThirdFileJoins`,
`EstateRecut.SameNameOneTarget`); an old requeue scan can put a running job back
(`JobQueue.CommitKeepsOwned`); the quoted layout of a bill of materials can part
from the one shown, and storage quoted in words keeps the totals of the old
nodes (`HardwareOverride.ConsistentExactly`,
`HardwareOverride.QuotedLayoutSlips`, `HardwareOverride.QuotedWordsSlip`); band
0 reports the top band (`Licensing.ReportedBandIsCharged`); a restore that lists
a model twice is refused when the model has storage and a drive
(`CatalogRelist.RelistedModelRefused`, `CatalogRelist.TwiceListedRefused`).

## Model

| member | source | states |
|---|---|---|
| Reachability.ConnectedLeast | app/import_merge.py:199-228 | "Same VM" is the least equivalence holding the drawn edges: every relation that is reflexive, symmetric, transitive and holds each edge holds every connected pair |
| UnionFind.HalvingForest | app/import_merge.py:143-148 | path halving keeps the parent map a forest and changes no node's root |
| UnionFind.UnionRepresents | app/import_merge.py:150-153 | after linking two roots, two nodes have one root exactly when they are connected by the old edges and the new one |
| UnionFind.UF.Find | app/import_merge.py:143-148 | terminates; returns the node's root while rewriting parents in place; adds a missing node as its own class; the partition and the edges drawn are unchanged |
| UnionFind.UF.Union | app/import_merge.py:150-153 | the two classes become one and no other class changes: roots agree exactly along the edges drawn so far |
| VmClasses.RegisterKeys | app/import_merge.py:208-212 | appends the VM to the holders of each of its keys, creating a key's list when it is new, and touches no other list |
| VmClasses.UniteByUuid | app/import_merge.py:213-216 | draws exactly the edges from each uuid's first holder to its holders in other files |
| VmClasses.UniteByName | app/import_merge.py:217-225 | draws exactly the edges between same-named VMs of different files unless both have a uuid |
| VmClasses.UniteVms | app/import_merge.py:200-225 | after both passes the union-find represents exactly the closure of the uuid and name edges, over every VM of every file |
| VmOrder.UuidEdgeMeaning | app/import_merge.py:213-216 | a uuid edge joins exactly a uuid's first holder in upload order with a holder in another file |
| VmOrder.NameEdgeMeaning | app/import_merge.py:217-225 | a name edge joins exactly two VMs of different files with one non-blank name, one of them without a uuid, lower file id first |
| VmOrder.OrderIndependent | app/import_merge.py:199-228 | when no uuid that also occurs in another file repeats inside one file, the VM classes are the same for every upload order of the files |
| VmOrder.OrderJoins | app/import_merge.py:199-228 | for every estate, up to two uuids a VM and any names: the upload order does not matter exactly when no order parts the holders of a uuid that two files hold |
| VmOrder.OrderExact | app/import_merge.py:199-228 | when uuids that meet on one VM always go together and no name edge touches a repeated holder, every upload order gives the same VM classes exactly when no uuid that two files hold repeats inside one of them |
| VmOrder.OrderMatters | app/import_merge.py:213-216 | two files, one holding a uuid twice and the other once: the two VMs of the first are one class only when the other file is uploaded first |
| EstateModel.HostKeyIs | app/import_merge.py:53-59 | a host is known by its name in lower case without blanks around it: all of it when it is an IPv4 address, else the part before the first dot |
| EstateModel.SameHost | app/import_merge.py:53-59 | names that differ in case, blanks or domain share a key; two addresses share one only when they are the same |
| EstateModel.VmGoesBy | app/import_merge.py:62-69 | a VM goes by either uuid and by its name, in lower case without blanks around them, where they are not blank |
| Text.StripCuts | app/import_merge.py:53-73 | stripping takes the blanks at both ends and nothing else |
| Text.LowerAt | app/import_merge.py:53-69 | lower case, letter by letter |
| Overlaps.Newest | app/import_merge.py:156-159 | the file that no other given file beats on collection time and then upload position, one of the files given |
| Overlaps.HostOverlaps | app/import_merge.py:177-197 | the overlapping host keys are exactly the non-blank keys held by two or more files, each with exactly those files |
| Overlaps.VmOverlaps | app/import_merge.py:226-247 | a VM has an overlap entity exactly when its class spans several files; the entity is a class member and lists exactly the class's files |
| Overlaps.ClassHasOneKey | app/import_merge.py:229-237 | two VMs share an entity exactly when they are in one class |
| Overlaps.ApplyChoices | app/import_merge.py:250-262 | every overlap gets the requested file when it is one of its own, "both" for VMs only, else the newest file |
| Overlaps.Decide | app/import_merge.py:393-395 | the overlaps, their entities and their choices together, for every set of files and every resolution map |
| Overlaps.RequestCounts | app/import_merge.py:250-262 | a request for one of the overlap's files, or for both copies of a VM, is the choice; only without one it is the file that none of the others is newer than |
| EstateKeep.KeepHosts | app/import_merge.py:401-408 | the hosts kept from a file, in order, and exactly their keys |
| EstateKeep.KeepStores | app/import_merge.py:413-423 | a mounted datastore is kept with its mounts cut to kept hosts, and dropped when none is left; one without mounts stays while its file keeps a host or has none |
| EstateKeep.KeepVms | app/import_merge.py:424-432 | the VM copies kept from a file, in order, each tagged with its file and position |
| EstateKeep.Keep | app/import_merge.py:399-434 | the kept records of every file, in upload order |
| EstateKeep.VmKeptMeaning | app/import_merge.py:424-432 | a VM is kept exactly when it exists and its overlap choice, if any, names its file or "both" |
| EstateKeep.HostKeptMeaning | app/import_merge.py:401-408 | a host is kept exactly unless its key overlaps and another file is chosen for it |
| EstateKeep.StoreKeptMeaning | app/import_merge.py:413-423 | a datastore is dropped exactly when all its mounts are, or when it has none and its file keeps none of the hosts it had; one that stays has exactly its mounts on kept hosts, in order, and is otherwise unchanged |
| EstateKeep.KeptStoresMeaning | app/import_merge.py:413-423 | a datastore is kept from a file exactly when it is one of the file's datastores, cut to its kept mounts, that stays |
| EstateKeep.KeptStoresCount | app/import_merge.py:413-423 | as many datastores are kept as stay, so none is kept twice |
| EstateKeep.StoresKeptMeaning | app/import_merge.py:413-423 | a file's kept datastores are, in order, those with a mount on a kept host or, without mounts, of a file that keeps a host or has none; each has exactly its mounts on kept hosts |
| EstateKeep.ClassKeepsChosenCopies | app/import_merge.py:250-262 | a class in several files keeps exactly the chosen file's copies, at least one, or all of them under "both"; a VM in one file is kept |
| EstateKeep.NoVmClassVanishes | app/import_merge.py:424-432 | some copy of every VM class is kept, for every resolution map |
| EstateKeep.HostKeyKeptOnce | app/import_merge.py:401-408 | every non-blank host key survives from exactly one file: the one chosen for it, when several have it |
| EstateKeep.RowsFollowHosts | app/import_merge.py:409-412 | a performance or NIC row is kept exactly when its host is kept from the same file |
| EstateRecut.CollectGroups | app/import_merge.py:457-472 | the (file, cluster) groups in first-seen order, hosts before VMs, with one standalone group for all files |
| EstateRecut.GroupsCover | app/import_merge.py:455-472 | every host and VM of every file belongs to a listed group |
| EstateMapping.GroupsInOrder | app/import_merge.py:457-472 | the groups are exactly those of the records, each once, in the order in which the files' hosts and then VMs first name them |
| EstateRecut.MapGroups | app/import_merge.py:271-293 | every group of a file gets what the user asked: skipped; the mapped text's first 120 characters without blanks around it; and only unmapped or blank the default, which is "Standalone hosts", the bare cluster name, or name and file stem when another file uses the name and no two files' clusters of it share a host; the names are exactly those, each once, in group order |
| EstateRecut.SameNameOneTarget | app/import_merge.py:271-286 | two files' clusters of one name default to one target exactly when they share a host, or their files have one stem, or another pair of clusters of that name shares a host |
| EstateRecut.ThirdFileJoins | app/import_merge.py:271-286 | three files with one cluster name, of which only the first two share a host: the third file's cluster defaults to the same target; without the second file it does not |
| EstateTargets.PlaceHosts | app/import_merge.py:519-523 | each kept host of a file is appended to the list of its own target, and a host key's target is that of its last host |
| EstateTargets.PlaceVms | app/import_merge.py:524-525 | each kept VM is appended to the list of its own target |
| EstateTargets.PlaceRows | app/import_merge.py:526-533 | each row is appended to its host's target |
| EstateTargets.PlaceStores | app/import_merge.py:538-554 | a file's datastores are shared over the targets of its own hosts and VMs and appended there |
| EstateTargets.FileTargetsCover | app/import_merge.py:534-537 | a file's targets hold the target of each of its VMs and no target twice |
| EstateTargets.RecutFile | app/import_merge.py:516-556 | one file re-cut: every target's lists grow by exactly that file's records for that target |
| EstateTargets.RecutAll | app/import_merge.py:516-556 | every target's lists are exactly the placed records of all files that name the target, in order |
| EstateMerge.Merge | app/import_merge.py:387-578 | the reported targets in group order: all but the skipped set and those without hosts and VMs, each with exactly its re-cut records |
| EstateMerge.Partition | app/import_merge.py:509-533 | placed records split over distinct target names covering them: the per-target lists add up to all of them as a multiset |
| EstateMerge.PlacedHostsMeaning | app/import_merge.py:519-523 | every kept host of a file is placed, in order, unchanged but for its cluster, which becomes its target |
| EstateMerge.PlacedVmsMeaning | app/import_merge.py:524-525 | so is every kept VM |
| EstateMerge.KeptRowsPlaced | app/import_merge.py:526-533 | no kept performance or NIC row is dropped for want of a host: each is placed, in order and unchanged |
| EstateMerge.RowsNotHidden | app/import_merge.py:558-565 | a target left out for having no hosts and VMs has no performance or NIC rows either |
| EstateMerge.NothingLostNothingTwice | app/import_merge.py:436-578 | for every mapping the reported targets and the skipped set together hold every kept host, VM, performance row and NIC row exactly once |
| EstateMerge.ReachedIsHeld | app/import_merge.py:534-537 | a target that a file reaches holds a host or VM of that file's estate, so it is reported unless skipped |
| EstateMapping.HostReachesTarget | app/import_merge.py:494-570 | through the whole merge, a kept host is reported in the target its group was given, with that name as its cluster, unless the user skips the group; the skipped set is never reported |
| EstateMapping.VmReachesTarget | app/import_merge.py:494-570 | so is a kept VM |
| EstateMapping.RowReachesTarget | app/import_merge.py:526-533 | a kept performance or NIC row is reported, unchanged, in the target of the last kept host with its key |
| EstateMapping.ReportInOrder | app/import_merge.py:509-578 | the targets are reported once each, in the order in which the groups first map to them |
| EstateMapping.MappingHonoured | app/import_merge.py:494-498 | every group's target is what the mapping asks, and the default where it asks nothing |
| EstateStores.TargetsReceive | app/import_merge.py:534-554 | through the whole merge, every reported target is given, file by file and datastore by datastore, exactly what Datastores.AttributeDatastores says is due by that file's own targets, mounts and used storage |
| EstateStores.SharedAmong | app/import_merge.py:534-537 | those targets are the targets of the file's VMs and of the last host of each key, each once |
| EstateStores.MountCounts | app/import_merge.py:538-545 | a mount counts for the target of the last kept host of its key, however it is spelt, and for none when no kept host has the key |
| EstateStores.UsedCounted | app/import_merge.py:546-549 | a target's used storage is that of its VMs that are on and no templates |
| EstateMerge.DatastoreStaysWithFile | app/import_merge.py:506-554 | a target that receives any part of a file's datastores holds a host or VM of that same file |
| EstateMerge.FileCapacityConserved | app/import_merge.py:534-554 | capacity, used and free of a file's kept datastores add up over its targets to within 0.005 a part, exactly unless the file keeps no host and no VM: then its kept datastores reach no target at all |
| Rounding.RoundInt | app/cluster_split.py:48-55 | Python's rounding: within one half |
| Rounding.TiesToEven | app/cluster_split.py:48-55 | a tie is rounded to the even neighbour |
| Datastores.CollectMounts | app/cluster_split.py:58-63 | the clusters of the mounting hosts, each once, in first-seen order, blank and unknown ones left out |
| Datastores.AttributeDatastores | app/cluster_split.py:34-82 | for distinct cluster names, every cluster is handed, datastore by datastore, one part when something is due and none else: an equal share of the mounting clusters; without any, its own used storage over the total; without that, an equal share of the named clusters; amounts to 0.005, VM counts to a half, a plain copy for a single mounting cluster |
| Datastores.TotalAddsUp | app/cluster_split.py:46 | the total of the used storage adds up name by name, a name not listed counting nothing |
| Datastores.SharesAddUp | app/cluster_split.py:65-80 | the fractions of a datastore add up to exactly one, unless it is shared by used storage and some cluster's used storage is negative |
| Datastores.DatastoreConserved | app/cluster_split.py:48-80 | a datastore's parts add up to its capacity, used and free to 0.005 a part; one mounting cluster gets an unrounded copy |
| Datastores.VmCountConserved | app/cluster_split.py:53-54 | the parts' VM counts add up to the original to one half a part |
| Datastores.CapacityConserved | app/cluster_split.py:34-82 | over all datastores and clusters, the total handed out is the original total to 0.005 a part |
| Datastores.SharesReach | app/cluster_split.py:57-80 | a datastore reaches only clusters of its mounting hosts or the named ones |
| ClusterSplit.DistinctClusters | app/cluster_split.py:23-31 | the cluster names, each once, hosts before VMs, blanks under the unclustered name |
| ClusterSplit.ClustersMeaning | app/cluster_split.py:23-31 | a name is listed exactly when some host or VM has it, and only once |
| ClusterSplit.ClustersInOrder | app/cluster_split.py:23-31 | in the order in which the hosts and then the VMs first have them |
| ClusterSplit.SplitByCluster | app/cluster_split.py:85-134 | nothing for one cluster or none; else per cluster its hosts, VMs, rows by host name, and datastore parts |
| ClusterSplit.SplitPlaces | app/cluster_split.py:85-134 | two clusters or more are split in the order of their names; a part has exactly its cluster's hosts and VMs and the rows whose host, the last of that name, is in the cluster, each as often and in the order they come |
| ClusterSplit.PartIs | app/cluster_split.py:85-134 | and of every datastore what is due to the cluster by the hosts' clusters and the used storage |
| ClusterSplit.UsedCounts | app/cluster_split.py:121-125 | a VM's used storage counts for its cluster exactly when it is on and no template |
| SplitAgreement.OneFileAgrees | app/import_merge.py:387-578 | merging one all-clustered file with two or more clusters and no mapping gives, cluster by cluster in the same order, the hosts and VMs that the single-file splitter gives, exactly when no cluster is named "__skip__" |
| CatalogModel.CpuColumnsAre | app/admin_routes.py:603-622 | the CPU sheet carries the description and exactly the seventeen catalog attributes |
| CatalogRows.CpuRowReadsBack | app/admin_routes.py:813-829 | a canonical CPU's exported row reads back as its description and every one of its values |
| CatalogRows.SpecCreated | app/admin_routes.py:910-916 | a canonical CPU created from its exported row has exactly its attributes |
| CatalogRows.SpecApplied | app/admin_routes.py:832-847 | a restore over an existing CPU takes every non-null value and keeps the rest |
| CatalogRows.ModelRowExactly | app/admin_routes.py:980-997 | a model's own columns come back from its exported row exactly when text is trimmed and not blank, socket, RAM slots and cost are set, minimum nodes is set and not zero, and the vendor is clean or is the one inferred |
| CatalogBlocks.BlocksFiled | app/admin_routes.py:756-810 | option rows written model by model are filed back under their own models, whole and in order |
| CatalogBlocks.StorageFiled | app/admin_routes.py:778-788 | a model has a storage entry exactly when it was exported with one, with the same type and counts |
| CatalogRestore.StorageRebuilt | app/admin_routes.py:1317-1343 | an exported storage block is rebuilt with the same type, counts and set of drives |
| CatalogExact.CpuLinkExactly | app/admin_routes.py:697-699 | a model's CPU link comes back from its exported row exactly when its quantity is not zero and its description is not blank and carries no quantity of its own |
| CatalogExact.NicLinkExactly | app/admin_routes.py:711-713 | so does a NIC link |
| CatalogExact.DriveExactly | app/admin_routes.py:1317-1343 | a drive comes back exactly when it is an HDD, SSD or NVMe, so spelt |
| CatalogExact.StorageExactly | app/admin_routes.py:1317-1343 | a storage block comes back from its rows exactly when its type is trimmed and not blank, no count is zero, the counts its type needs are there, it has no cloud tiers, and its drives are HDD, SSD or NVMe |
| CatalogExact.ModelExactly | app/admin_routes.py:966-1014 | a model comes back from its own exported rows exactly when its columns, links and storage are all of that kind and no link is doubled |
| CatalogRestore.ModelRestored | app/admin_routes.py:966-1014 | an exported model row rebuilds the very model, ordered links, RAM sizes and storage included, and creates no catalog row |
| CatalogRestore.RestoreMerges | app/admin_routes.py:850-1055 | restoring a canonical backup over any catalog: the backup's models, NICs, drives, IOPS and settings win, CPUs take its non-null values, everything else stays |
| CatalogRestore.RoundTrip | app/admin_routes.py:630-729 | exporting and restoring into an empty database gives back the same catalog, for every order of rows |
| CatalogRestore.RestoringOverItself | app/admin_routes.py:630-729 | restoring a backup over the catalog it was taken from changes nothing |
| CatalogRestore.RestoreSucceeds | app/admin_routes.py:887-893 | a canonical backup is refused exactly when it is of the empty catalog |
| CatalogAdd.AddKeeps | app/admin_routes.py:853-858 | adding any workbook to any catalog keeps every model and every value that was there |
| CatalogAdd.AddTwice | app/admin_routes.py:853-858 | adding the same workbook a second time changes nothing, for every workbook and every catalog |
| CatalogAdd.AddSettles | app/admin_routes.py:897-1051 | after a successful addition no row of the workbook has anything left to add |
| CatalogAdd.ModelBuiltKeeps | app/admin_routes.py:1193-1217 | building a new model keeps every catalog row; the CPUs, NICs and drives it creates are exactly the missing ones that its options and storage name, and IOPS and settings stay |
| CatalogRelist.RelistedModelRefused | app/admin_routes.py:975-978 | a restore that meets a model's name again refuses the second row exactly when the model has a storage row and an HDD, SSD or NVMe drive: it finds the drives its first row added |
| CatalogRelist.TwiceListedRefused | app/admin_routes.py:957-1014 | a workbook of one model with four disks, restored into an empty catalog, is accepted with the model listed once and refused with it listed twice |
| CatalogGain.CpuCreated | app/admin_routes.py:1193-1199 | a CPU that is there stays; a missing one is as the first option that names it: cores, threads, clock, and every other column empty |
| CatalogGain.NicCreated | app/admin_routes.py:1202-1208 | so with NICs: ports and speed |
| CatalogGain.CpuFilled | app/admin_routes.py:832-847 | a column of a CPU that was there keeps its value in "add" mode, and else takes that of the row that counts: the first with a value when adding, the last when replacing |
| CatalogGain.CpuAdded | app/admin_routes.py:897-919 | a CPU that was not there is added exactly when a row describes it, each column as the row that counts gives it |
| CatalogGain.CpuSized | app/admin_routes.py:910-916 | but cores, threads and clock of a CPU that an adding import creates are those of its first row, 0 where that has none |
| CatalogGain.NicWritten | app/admin_routes.py:923-939 | a NIC that was there stays in "add" mode; else ports and speed are those of the row that counts |
| CatalogGain.DrivesWritten | app/admin_routes.py:944-954 | the drives added are exactly those of the rows with a type and a size above zero |
| CatalogGain.IopsWritten | app/admin_routes.py:1021-1033 | so with IOPS, rows without a number aside |
| CatalogGain.SettingWritten | app/admin_routes.py:1037-1049 | and settings |
| CatalogGain.ImportCreates | app/admin_routes.py:850-1055 | through the whole import, in either mode: what the catalog sheets leave stays; any other CPU or NIC is as an option row of a model in the workbook says; IOPS and settings are those of their sheets |
| CatalogSheets.OlderNamesRead | app/admin_routes.py:862-881 | a workbook with its option sheets under the older names imports as one with the newer names |
| CatalogSheets.NewerNamesCount | app/admin_routes.py:862-881 | where a newer sheet has rows, the older one is not read |
| CatalogReads.ModelImported | app/admin_routes.py:850-1055 | through the whole import of any workbook, in either mode: a model that no row counts for is as it was; any other is what the row that counts (the first when adding, the last when replacing), its option rows and its storage rows say, and nothing of what it was |
| CatalogReads.ModelRowRead | app/admin_routes.py:980-1000 | a model row is refused exactly for RAM slots, minimum nodes or a cost that is no number; else its own columns are as written, and where it is silent "Active", "single", no RAM slots, one node, cost 5 and no text; a validated-only model of no vendor takes the one its chassis or name names |
| CatalogReads.ModelAccepted | app/admin_routes.py:1241-1343 | a model is refused exactly for a figure that is no number, a CPU or NIC option or a drive listed twice, or a drive count its storage type needs |
| CatalogReads.StorageBuilt | app/admin_routes.py:1317-1343 | a model's storage has the type and counts of its storage row, "nvme_only" without one, and as drives exactly its drive rows of the three kinds, however spelt; there is none without either |
| CatalogReads.StorageWritten | app/admin_routes.py:778-788 | the last storage row of a name counts, its type and counts as written, a count of 0 none |
| CatalogReads.CpuOptionRead | app/admin_routes.py:760-770 | a CPU option row has quantity 1 and figures 0 where it is silent, and is refused exactly when a figure is no number |
| CatalogReads.NicOptionRead | app/admin_routes.py:799-808 | so with a NIC option row |
| CatalogReads.DriveOptionRead | app/admin_routes.py:790-797 | and a drive option row |
| CatalogReads.ItemFiled | app/admin_routes.py:756-810 | option rows are filed one by one under their own model, in order, and rows without a model name are not even read |
| CatalogReads.ColumnsRead | app/admin_routes.py:764-808 | a column that is missing or nothing has its default; any other is read as a number, a text or a yes |
| CatalogReads.CpuCellRead | app/admin_routes.py:813-829 | a cell of the CPU sheet is read as its column's type: text trimmed, counts and CPU marks whole, clocks and SPECrate not, nothing when blank or no number |
| CatalogReads.CellAsNumber | app/coerce.py:23-45 | as a number a cell is itself, cut towards zero for a whole one; a truth value is 1 or 0, text is parsed, blank is none |
| CatalogReads.CellAsText | app/admin_routes.py:762-808 | as text a cell is what Python prints, an empty one "None" |
| CatalogReads.WordsAsMeant | app/admin_routes.py:1220-1224 | yes, true and 1 are read regardless of case and blanks; a vendor is lower case, trimmed, 20 characters at most and none when blank |
| CatalogReads.QuantityGoes | app/xlsx_utils.py:15-26 | a description loses a number, an x and blanks in front of it |
| CatalogReads.OnlyQuantityGoes | app/xlsx_utils.py:15-26 | and loses nothing else |
| CatalogReads.CpuRowExported | app/admin_routes.py:682-683 | a CPU's exported row has each column's value, blank text as an empty cell |
| CatalogReads.CpuOptionExported | app/admin_routes.py:697-699 | a model's exported CPU option reads back as the catalog CPU's own cores, threads and clock |
| CatalogReads.NicOptionExported | app/admin_routes.py:711-713 | and an exported NIC option as the catalog NIC's own ports and speed |
| CatalogDb.CpuFieldsFromRow | app/admin_routes.py:813-829 | the columns present in the row, each as its type; absent ones stay out |
| CatalogDb.ApplyCpuRow | app/admin_routes.py:832-847 | writes the columns in place by the two modes' rules and reports whether any value moved |
| CatalogDb.FileByModel | app/admin_routes.py:756-810 | each model's option rows in sheet order, or failure at the first row that cannot be read |
| CatalogDb.StorageByModel | app/admin_routes.py:778-788 | the last storage row of each model |
| CatalogDb.Database.ImportCpus | app/admin_routes.py:897-919 | the CPU table after every row of the sheet, in either mode |
| CatalogDb.Database.ImportNics | app/admin_routes.py:923-939 | the NIC table after every row, or failure |
| CatalogDb.Database.ImportDrives | app/admin_routes.py:944-954 | the drive table after every row, or failure |
| CatalogDb.Database.LinkCpus | app/admin_routes.py:1267-1275 | looks each CPU up by base description and links them in order; a missing one is created with the cores, threads and clock of the first option that names it and nothing else, and no other CPU changes |
| CatalogDb.Database.LinkNics | app/admin_routes.py:1283-1291 | the same of NICs |
| CatalogDb.Database.ImportIops | app/admin_routes.py:1021-1033 | the IOPS table after every row, blank kinds and values that are no number skipped |
| CatalogDb.Database.ImportSettings | app/admin_routes.py:1037-1049 | the settings table after every row, in the same way |
| CatalogDb.Database.BuildModelRow | app/admin_routes.py:1241-1293 | the model and the catalog rows it creates, or failure |
| CatalogDb.Database.ImportModelRows | app/admin_routes.py:961-1014 | the catalog after every model row, with the storage data shared between rows of one name |
| CatalogDb.Database.ImportWorkbook | app/admin_routes.py:736-753 | the whole import in either mode; a refused workbook leaves every table as it was |
| CatalogDb.Database.ExportWorkbook | app/admin_routes.py:630-729 | the eleven sheets of the catalog, row by row in the queries' order |
| OAuthSafety.StepInv | app/mcp_auth.py:500-767 | every request, at any later time, keeps the store's invariant: one live row a family, spent codes, ordered expiries, known ids |
| OAuthSafety.RunInv | app/mcp_auth.py:500-767 | so does every run of requests with non-decreasing times |
| OAuthSafety.OneUsableToken | app/mcp_auth.py:557-575 | in every run at most one access token and one refresh token of a family is acceptable at any time |
| OAuthSafety.CodeRedeemedOnce | app/mcp_auth.py:591-609 | in every run a code is redeemed by at most one request |
| OAuthSafety.DeadForever | app/mcp_auth.py:573-575 | once no row of a family is live, none is after any further run |
| OAuthSafety.DeadNeverAccepted | app/mcp_auth.py:667-693 | after any further run no access or refresh token of such a family is acceptable |
| OAuthSafety.ReplayKills | app/mcp_auth.py:595-599 | presenting a used code again by its client leaves no live token of its family |
| OAuthSafety.ReuseKills | app/mcp_auth.py:615-620 | presenting a rotated refresh token leaves no live token of its family |
| OAuthSafety.RevokeKills | app/mcp_auth.py:638-650 | a revoke request kills the family exactly when its client authenticates and owns the token, or it was dead already |
| OAuthSafety.DisconnectKills | app/mcp_auth.py:734-744 | removing a connection succeeds exactly for a family with a row of that user, and then kills it |
| OAuthSafety.ReplayKillsWhileStored | app/mcp_auth.py:747-752 | after a purge, replaying a used code still kills its living family exactly when the code expired no more than a day before the purge |
| OAuthSafety.PurgeInvisible | app/mcp_auth.py:747-767 | a purge changes neither whether the code exchange, refresh or bearer check that follows it succeeds nor the account a bearer check finds |
| OAuthSafety.PurgeExchange | app/mcp_auth.py:747-767 | nor the token row that a code exchange issues |
| OAuthSafety.PurgeRefresh | app/mcp_auth.py:747-767 | nor the token row that a refresh issues |
| OAuthLineage.RunTracked | app/mcp_auth.py:557-633 | in every run the stored codes and tokens match a history of consents, exchanges and issues, each issue backed by its checks: a code is bound to the requested address, registered for its client up to a loopback port, or to its only registered one |
| OAuthLineage.IssuedDescends | app/mcp_auth.py:606-633 | every issued token descends through rotations from one code and its consent, with one user, client and resource and a scope within every ancestor's; the code's exchange proved the verifier and named no address or the one the consent resolved to |
| OAuthLineage.BearerDescends | app/mcp_auth.py:667-693 | every accepted bearer token so descends, from a consent that was allowed by the account it acts for, at an address registered for the client, and its resource and scope are the required ones |
| OAuthGrants.CodeRedeemedExactly | app/mcp_auth.py:591-609 | in every run a code answered to a consent is redeemed exactly by its own client, authenticated, for this resource, at most ten minutes later, with no redemption in between, naming no address or the one the consent resolved to, with the verifier of the challenge |
| OAuthGrants.RedeemedGrant | app/mcp_auth.py:557-571 | the token carries the consent's user, client, scope and resource, for an hour and thirty days |
| OAuthGrants.RefreshExactly | app/mcp_auth.py:611-633 | in every run a refresh token is rotated exactly by its own client, authenticated, for this resource, while it is stored and neither rotated nor revoked, at most thirty days after its issue, for an active account and words of its own scope |
| OAuthGrants.RefreshedGrant | app/mcp_auth.py:611-633 | the new token carries the old grant with the scope asked for, for an hour and thirty days more, and the old one is spent |
| OAuthGrants.BearerExactly | app/mcp_auth.py:667-693 | in every run an access token is accepted exactly while it is stored and not revoked, for an hour from its issue, for its own resource, with the scope, while its account is active |
| OAuthGrants.AcceptedIsRecent | app/mcp_auth.py:681-682 | an accepted access token was issued by some request at most an hour before |
| OAuthServer.Server.AuthorizeDecide | app/mcp_auth.py:500-528 | stores one fresh code on an allowed, valid request with a registered redirect address, and nothing else otherwise |
| OAuthServer.Server.TokenByCode | app/mcp_auth.py:591-609 | the code branch of the token endpoint, check by check, with its new store and answer (OAuthGrants.CodeRedeemedExactly says when that is a token) |
| OAuthServer.Server.TokenByRefresh | app/mcp_auth.py:611-633 | the refresh branch, check by check, with its new store and answer |
| OAuthServer.Server.RevokeRows | app/mcp_auth.py:573-575 | marks exactly the live rows of one family revoked |
| OAuthServer.Server.RevokeToken | app/mcp_auth.py:638-650 | the revoke endpoint's new store |
| OAuthServer.Server.RemoveConnection | app/mcp_auth.py:734-744 | the new store and answer of removing a connection |
| OAuthServer.Server.UserForRequest | app/mcp_auth.py:667-693 | the bearer check's answer, and a last-use mark on success only |
| OAuthServer.Server.PurgeExpired | app/mcp_auth.py:747-767 | removes exactly the stale codes, tokens and unused clients |
| OAuthAnswers.ConsentAnswered | app/mcp_auth.py:413-528 | a code, good for ten minutes, is issued exactly for a known client, an address it may name, a challenge of 43 to 128 characters, no scope but "sizing", this resource and an allowed request; else the first thing missing is named and nothing changes |
| OAuthAnswers.ResolvedExactly | app/mcp_auth.py:418-434 | a request resolves to exactly the addresses its client may name: a registered one, up to a loopback port, or the only registered one when none is asked for |
| OAuthAnswers.ExchangeAnswered | app/mcp_auth.py:580-609 | an exchange names an unknown client, then another resource; a used code of the client's own revokes the family and nothing else; any other refusal changes nothing; a redemption marks the code, adds one row and marks the client |
| OAuthAnswers.RefreshAnswered | app/mcp_auth.py:611-633 | a refresh of the client's own token: a rotated token or an inactive account revokes the family and nothing else, a wider scope is named, any other refusal changes nothing; a rotation spends the row, adds one and marks the client |
| OAuthAnswers.RefreshRefused | app/mcp_auth.py:580-614 | any other refresh names the client, the resource or the grant and changes nothing |
| OAuthAnswers.RevokeAnswered | app/mcp_auth.py:640-650 | revoking the client's own token, by either secret, revokes its family's live rows and nothing else; any other token is answered alike and changes nothing |
| OAuthAnswers.RemoveAnswered | app/mcp_auth.py:736-744 | a user removes exactly a connection of their own, and nothing else changes |
| OAuthAnswers.BearerAnswered | app/mcp_auth.py:667-693 | a token good in all but scope is told so and any other refusal is the same; a refusal changes nothing, an accepted token is marked with the time |
| OAuthAnswers.PurgedExactly | app/mcp_auth.py:747-767 | a purge keeps, unchanged, exactly: codes until a day after they expire; tokens until seven days after they are revoked or their refresh expires; clients that did not register themselves, that registered or were used in the last thirty days, or that a kept token names |
| OAuthAnswers.RegistrationKept | app/mcp_auth.py:239-282 | a new client is stored as it registers, one known by its metadata has its addresses read again, any other keeps its own |
| OAuthGrants.SlashesGone | app/mcp_auth.py:588 | the slashes at the end of a resource, and nothing else, do not count |
| JobQueue.JobTable.ClaimNextJob | app/export_worker.py:62-96 | takes an oldest queued job and marks it running, with the worker and the time, or finds none; no other row moves |
| JobQueue.JobTable.ScanAbandoned | app/export_worker.py:101-105 | finds exactly the running jobs whose claim is older than the timeout |
| JobQueue.JobTable.CommitRequeue | app/export_worker.py:106-111 | puts exactly the found jobs back in the queue without a claim, whatever they have become since |
| JobQueue.JobTable.RecordResult | app/export_worker.py:219-258 | done or failed is recorded on the job's row with its claim kept; no other row moves, and no later scan or claim finds the job |
| JobQueue.CommitKeepsOwned | app/export_worker.py:99-112 | writing a scan back keeps every building worker's claim exactly when no found job is being built at that moment |
| JobQueue.FreshIsSafe | app/export_worker.py:99-112 | with builders inside the timeout, a scan whose jobs were not claimed anew since finds no job that is being built |
| JobQueue.NeverBuiltTwice | app/export_worker.py:62-112 | in every run with builders inside the timeout and fresh write-backs, no job is built by two workers at once |
| JobQueue.FinishedStays | app/export_worker.py:219-258 | in such a run a recorded result is never overwritten, requeued or built again |
| JobQueue.EndFinishes | app/export_worker.py:219-258 | a builder that ends, done or failed, leaves its job so and is idle again |
| JobQueue.StaleWriteBackBuildsTwice | app/export_worker.py:101-111 | a run in which every builder is prompt at every step, and a write-back of an old scan requeues a job that was claimed anew, so that two workers build it |
| JobQueue.ClaimsLieApart | app/export_worker.py:99-112 | in every run a claimed job returns to the queue only through a requeue, whose scan came more than the timeout after the claim when write-backs are fresh |
| JobQueue.StrandedIsRequeued | app/export_worker.py:302-310 | a running job whose claim is older than the timeout is queued again by the write-back of the next worker to scan, whatever the other workers and the clock do between its scan and its write-back |
| JobQueue.EveryJobAccountedFor | app/export_worker.py:219-258 | in every such run a running job carries the time of its claim, from which the timeout runs, and only its claimer builds it |
| AdmissionGate.StepInv | app/export_gate.py:45-64 | every step of any thread keeps the gate's counts |
| AdmissionGate.EveryRun | app/export_gate.py:45-64 | under every interleaving: outstanding equals the admitted threads and stays within running plus queue cap; free permits plus running threads equal the running cap; a gate without threads is in its initial state |
| AdmissionGate.ServedExactly | app/export_gate.py:45-64 | in every run a request is admitted exactly while fewer are inside than may run and wait, gets a permit exactly while fewer run than may, can give up while it waits, finishes while it runs, and then leaves |
| AdmissionGate.Drains | app/export_docx.py:1074-1088 | once no thread enters, every run is finite and ends in the initial state |
| AdmissionGate.GateState.TryEnter | app/export_gate.py:50-53 | admits exactly below the cap and counts the thread |
| AdmissionGate.GateState.Wrapped | app/export_docx.py:1062-1088 | one whole call, served, failed or timed out, gives back what it took |
| ClusterLayouts.LayoutMeaning | app/recommend.py:951-959 | the clusters hold every node, none is over the cap, sizes differ by one at most, and fewer clusters could not hold them |
| HardwareFigures.ClusterUsableClosed | app/recommend.py:962-966 | usable storage is half of what is left after one largest disk a cluster, so it depends only on nodes and clusters |
| HardwareAgreement.QuoteAgreesWithDirectBuild | app/export_override.py:355-396 | a consistent recommendation with disks, re-described by any quote that changes hardware, keeps the cluster count and whose storage follows, has the totals, N-1 and usable storage of a cluster built from the quoted cores, threads, RAM and nodes, the platform keeping what it kept of the sized node: exact for cores, threads and storage, to 0.055 for GHz and 0.05 for RAM; the nodes that run virtual machines are all but the storage-only ones, one at least, when the quote has no split of its own |
| HardwareAgreement.AgreesExactly | app/export_override.py:489-526 | with cores to count and a node to spare a cluster, it agrees exactly then: the cluster count is kept (no bill of materials lays unchanged nodes out in another number of clusters) and a quote that speaks of storage in words alone leaves the node count or has a bill of materials that states these very disks |
| HardwareAgreement.ReserveCarried | app/export_override.py:417-424 | the cores and RAM the platform kept of the sized node it keeps of the quoted one |
| HardwareAgreement.ReserveFloored | app/export_override.py:417-467 | a quoted node smaller than that has nothing left, and usable RAM of a bill of materials is taken as it is |
| HardwareAgreement.PerfIs | app/export_override.py:436-457 | the benchmark is the bill of materials' per node for another CPU it knows, unknown for one it does not, else the sized one; the cluster's is that times its nodes |
| HardwareAgreement.LabelsAre | app/export_override.py:406-487 | the CPU's name is the quoted one, if any, and a node is single exactly when one is quoted, or as sized |
| HardwareAgreement.StorageTotals | app/export_override.py:511-526 | without quoted drives the storage totals are the bill of materials' beside a storage text, those of the known disks on another node count, or as they were |
| HardwareAgreement.LayoutIs | app/export_override.py:484-496 | the clusters are the bill of materials' when it splits the very node count, an even split for another node count, else as sized |
| HardwareAgreement.IopsFollow | app/export_override.py:744-761 | through the whole re-description, IOPS go with other disks, are multiplied out for another node count, N-1 by a node less per cluster, and else stay |
| HardwareAgreement.UsableIs | app/export_override.py:562-566 | usable storage is half of what is left after one largest disk a cluster; a single node mirrors its disks when it has more than one |
| HardwareAgreement.DrivesAddUp | app/export_override.py:501-510 | raw capacity and drive count add up drive by drive, each its size times its number |
| HardwareAgreement.StorageIs | app/export_override.py:501-510 | a node's storage is that of the quoted drives, to half a gigabyte, or as it was |
| HardwareAgreement.BiggestIs | app/export_override.py:501-510 | the largest disk is one of the quoted, and none is larger |
| HardwareOverride.KeepsConsistency | app/export_override.py:538-578 | a consistent recommendation (cluster figures are per-node figures times nodes, storage its own drives re-laid-out) stays consistent when the cluster count is kept and the storage follows, for quotes of drives, of a storage text or of neither |
| HardwareOverride.ConsistentExactly | app/export_override.py:489-526 | with cores to count, a node to spare a cluster and more than 10 GB of disk a node or none, only then |
| HardwareOverride.QuotedLayoutSlips | app/export_override.py:489-496 | ten nodes shown as two clusters of five, quoted with more RAM by a bill of materials that lays them out in three: the result is no longer consistent |
| HardwareOverride.QuotedWordsSlip | app/export_override.py:511-519 | three nodes with two 2 TB disks each, quoted as five with the storage in words: the totals still say 12 TB and the result is no longer consistent |
| HardwareOverride.ThreadsPerCoreKept | app/export_override.py:425-433 | a quote that gives cores and no threads scales the threads with the cores, to half a thread a node |
| HardwareOverride.RawThousandths | app/export_override.py:73-92 | drives of sizes to three decimals have a raw capacity to three decimals, so storing it rounded loses nothing |
| HardwareOverride.VcpusConserved | app/export_override.py:581-597 | ratio times cores (all for a full-cluster sizing, else those with a node down) is the sized vCPU figure to 0.005 a new core; so is the ratio with a node down |
| HardwareOverride.GhzShown | app/export_override.py:438-446 | the clock shown per core gives back the node's GHz to 0.0005 a core |
| HardwareOverride.DemandUnchanged | app/export_override.py:696-741 | a utilization bar keeps its demand; redrawn, its percentages times the quoted capacity give that demand, replication included, to half a percent, unclamped |
| HardwareOverride.ReplicationIs | app/export_override.py:727 | the replication demand is its percentage of the old capacity |
| HardwareOverride.SameHardwareChangesNothing | app/export_override.py:399-528 | a quote of the very figures already sized changes no figure |
| HardwareRecords.ApplyCpu | app/export_override.py:406-457 | the quoted CPU on the copy, its clock and benchmark from the bill of materials or dropped, and usable cores less by what the platform keeps (HardwareAgreement.ReserveCarried) |
| HardwareRecords.ApplyDrives | app/export_override.py:501-510 | raw capacity, largest disk and drive count of the quoted drives |
| HardwareRecords.ApplyHardware | app/export_override.py:399-528 | every per-node figure, the node split, the layout and the storage of the quote, written on the copy |
| HardwareRecords.RebuildCluster | app/export_override.py:538-578 | new totals and N-1 dictionaries on the copy |
| HardwareRecords.RebuildBar | app/export_override.py:716-740 | a new bar with a new demand dictionary, or the very bar when the capacity is unchanged |
| HardwareRecords.RebuildIops | app/export_override.py:744-761 | IOPS dropped for other disks, shared for the same nodes, and for another node count multiplied out: the total by every node, N-1 by the survivors |
| HardwareRecords.ApplyToRec | app/export_override.py:355-396 | the whole re-description on a fresh record; the input record and every dictionary nested in it are left as they were |
| ToolSchema.Validate | app/mcp_schema.py:26-86 | the problems in the order the code reports them |
| ToolSchema.ValidExactly | app/mcp_schema.py:26-86 | no problem is reported exactly when the value conforms to the declarative meaning of the schema |
| ToolReports.ReportedExactly | app/mcp_schema.py:26-86 | a problem is reported exactly when some part of the value, at that path, breaks that keyword of its schema |
| ToolReports.TypesMean | app/mcp_schema.py:13-22 | the type names; a whole float is an integer, booleans are no numbers, an unknown name matches nothing |
| ToolReports.EqualMeans | app/mcp_schema.py:43-45 | what an enum compares by: numbers and booleans by worth, infinities by sign, NaN with nothing, texts as they are, lists element by element, objects key by key in any order |
| ToolReports.IndexInDecimal | app/mcp_schema.py:72 | an element's index is written in decimal |
| ToolDefaults.ApplyDefaults | app/mcp_schema.py:100-112 | the filled value, field order included |
| ToolDefaults.FillsExactly | app/mcp_schema.py:106-111 | an absent property takes its default, a nested object is filled, and no other key changes |
| ToolDefaults.DefaultsKeepValid | app/mcp_schema.py:100-112 | filling keeps a valid value valid when non-null defaults conform and no filled object schema has an enum |
| ToolDefaults.EnumBreaksFilling | app/mcp_schema.py:100-112 | with an enum on an object schema, filling can make a valid value invalid |
| ToolDefaults.IdempotentExactly | app/mcp_schema.py:100-112 | a second filling changes nothing for every value exactly when every object default is itself complete, at every level |
| Licensing.ClampTerm | app/licensing.py:110-116 | a term that is missing or no number is five years, one from one to five is itself, and any other is cut to the nearer end |
| Licensing.BandPriceMeaning | app/licensing.py:119-145 | a node pays the smallest band covering its cores, the top band above the ladder |
| Licensing.CapNoteAppears | app/licensing.py:148-163 | the cap note appears exactly above the smallest band at the top price and names the cores from there to the top band |
| Licensing.CapNoteExactly | app/licensing.py:148-163 | cores above the cap are free exactly when every band above it has its price |
| Licensing.CapNoteHonest | app/licensing.py:148-163 | on an ascending ladder the cores the note names cost nothing extra |
| Licensing.NearMissIsActionable | app/licensing.py:168-211 | the kit takes one cluster of at most three nodes and 256 GB a node; a near miss is reported exactly for four nodes, too much RAM, or several clusters that would each qualify, and names what is in the way: one node too many (with one fewer it qualifies exactly when its RAM does), or exactly so much RAM |
| Licensing.CostIsTheCheaper | app/licensing.py:301-342 | the cost is the cheaper of the per-node total and the kit of one cluster of at most three nodes and 256 GB a node, ties per node |
| Licensing.KitFollowsSupport | app/licensing.py:251-267 | the kit is of the support tier asked for exactly when that tier has a price |
| Licensing.KitIs | app/licensing.py:251-267 | the kit is the one of the asked tier, and only when that has no price the other one |
| Licensing.AskedTierFirst | app/licensing.py:234-246 | the asked tier's bands are used whenever the book has them, and only without them the other tier's |
| Licensing.QuoteSays | app/licensing.py:270-342 | the rest of a quote: nothing for an empty book or no nodes; else whether the ladder was left above, the free cores, the near miss, whether the kit was taken, and licences for the sizing's own nodes, cores, edition and term |
| Licensing.CostIsMonotone | app/licensing.py:270-342 | on an ascending non-negative ladder no fewer clusters, nodes, cores or RAM never cost less |
| Licensing.MoreNodesCostMore | app/licensing.py:270-342 | through the engine's own layout, more nodes never cost less |
| Licensing.BandZeroMisreported | app/licensing.py:330-342 | bands 0 and 2 at 1 and 5: one node without licensable cores is quoted at 1 with the band of 5 reported |
| Licensing.ReportedBandIsCharged | app/licensing.py:330-342 | the reported band's price times the nodes is the cost, except exactly when band 0 covers the node and is not at the top price |

## Left out

- Files: two live files with one id, and a "file::cluster" key that collides with another, are not part of this model; ids are distinct numbers and a group is a (file, cluster) pair.
- `_source_rows` (app/import_merge.py:105-134): dropping a file with the same checksum, and the per-file figures, are left out; the merge starts from the live files.
- Group figures, the "possible" flag of a VM overlap, extrapolation, summaries and warnings of a merge (app/import_merge.py:238-246, 296-384) are left out.
- Text: stripping takes spaces, tabs and line breaks, and lower-casing works on ASCII; file stems are given with each file.
- Arithmetic is over the reals; rounding is Python's, half to even, on the exact value.
- CatalogRestore.RoundTrip: asks for trimmed, non-blank text, typed CPU cells, no quantity prefix on linked descriptions, non-zero quantities and counts, HDD/SSD/NVMe drives on models, no cloud tiers, and a vendor that cleaning and inference leave alone; CatalogExact.ModelExactly says that a model's own rows need exactly these. For a whole catalog they are sufficient only: rows of one sheet can supply what another loses.
- CatalogDb.Database.ImportWorkbook: the counts in its message are not modelled, and any refusal is one error with a rollback.
- Number syntax and printing, and the list of vendor brands, are parameters of the catalog import; a blank text cell is written as an empty cell, as the spreadsheet library does; merged headers, row limits and cell formats are left out.
- Column lengths the database may enforce, and pages of the admin form, are left out of the catalog.
- OAuth requests are atomic steps: the two commits of a token request and races between processes are left out, as are sessions, the consent nonce, rate limits, client registration checks and metadata fetching.
- OAuth secrets are symbolic: hashes are injective and fresh secrets are never guessed; redirect addresses are given parsed. The token endpoint checks the redirect address only when the request carries one (app/mcp_auth.py:602), and a code exchange does not check the account, unlike section 4.1.3 of RFC 6749 and unlike the refresh branch; the model follows the code.
- The SQLite claim path (app/export_worker.py:88-96) is left out: a claim is the one atomic UPDATE of the PostgreSQL path. Deleting jobs, artifacts and mail are left out.
- The write-back of requeue_abandoned_jobs does not look at the rows again, so "live builders within the timeout" is not enough for one builder a job: JobQueue.StaleWriteBackBuildsTwice names the run, JobQueue.CommitKeepsOwned the exact condition.
- The hardware override's compute floor, determinant, licence block, texts, badge and its choice of the BOM check (app/export_override.py:95-330, 600-693, 764-776) are left out: they are linear or only pick a record.
- HardwareOverride.ConsistentExactly: a node with some disk but no more than 10 GB is left out; two decimals of a terabyte may hide a node of it. HardwareAgreement.AgreesExactly leaves it out too.
- HardwareAgreement.QuoteAgreesWithDirectBuild: a quote smaller than what the platform keeps, or with usable RAM of its own from a bill of materials, is HardwareAgreement.ReserveFloored's.
- A missing number in a stored recommendation is 0, as the code's "or 0" reads it.
- ToolSchema: pattern-free strings only, as the validator; messages are data instead of text, and object keys are unique. An integer beyond the range of a float makes the "number" check raise instead of answer (app/mcp_schema.py:20-21); such integers are not part of this model.
- ToolDefaults.DefaultsKeepValid: one way only, since a schema whose faulty default no valid value can reach is harmless.
- Rendering, LibreOffice itself, network diagrams and translations are left out.
