# Alflag provisioning: a verified model of its protocols

This project models, in Dafny, the decision logic of a provisioning repository
(Ansible roles with Python programs and filters) and proves what its operators
rely on. It covers five parts.

1. **Role DNS on two name servers** (`Ring`, `ZoneText`, `RoleDns`, `RoleDnsRuns`,
   `RenderRuns`, `RenderLimits`).
   A round inspects both servers, picks one SOA serial, writes zone and records,
   reloads NSD and writes a marker. Every task can stop in front of any atomic
   step, on each server independently; a history is a list of such rounds. The
   serial line of a zone text is parsed and edited character by character and
   set against the separately written filter that decides about bumps. Runs of the
   DNS role itself, which render the zone on one server or both or restart NSD over
   an unchanged zone, come on top.
2. **Backups and binary logs** (`BackupFiles`, `BackupStore`, `BackupRuns`,
   `BackupChoice`, `Binlogs`, `BinlogRuns`, `StoragePaths`). A file system is a
   map from component paths to nodes. Stores and archive runs stop anywhere.
3. **Static DNS records** (`Dns`, `RecordOrder`, `StaticRecords`, `StaticMerge`,
   `StaticOrder`, `StaticZoneOrder`, `StaticProperties`, `StaticOwners`, `StaticCase`,
   `StaticNames`, `StaticVisible`, `RoleOwners`, `Networks`).
   The imperative merge against an order-free specification, the zone template,
   what NSD answers from it, and the CIDR expander.
4. **ICMP adoption in Zabbix** (`Icmp`, `IcmpRuns`, `IcmpMeaning`, `IcmpBehaviour`,
   `IcmpInstantiation`). The plan, the two tasks that carry it out, what acceptance
   means, resumption, and independence of database ids.
5. **The ReplicaSet manager** (`ReplicaSet`, `ReplicaSetWriter`,
   `ReplicaSetManager`, `ReplicaSetRuns`). `run` talks to an AdminAPI whose
   answers are arbitrary; each call and its answer are logged, and the log is
   proved disciplined for all answers.

`Text`, `Sequences` and `Wrappers` hold strings, lists and result types. A raised
exception is an `Err` with its meaning.

## Results about the code as it is

These promises hold only under a condition.

- Two serials 2^31 - 1 apart: the older server refuses the chosen target, the
  newer one moves on, and from 2^31 on no round does anything
  (`Ring.ChoiceIsAcceptedOffTheBoundary`, `RoleDnsRuns.UninterruptedRound`,
  `RoleDnsRuns.BlockedRound`).
- The bump filter compares texts in which the serial is replaced by
  `__SOA_SERIAL__`. A zone that has a literal line of that form can change
  without a bump (`ZoneText.BumpDetectionIsExact`, `ZoneText.PlaceholderTwin`).
- An apex owner is not lowered by the static record filter, and a configured type is
  compared with CNAME letter by letter. A zone name with a capital letter, or a type
  that DNS reads as an alias in another spelling, lets an alias stand beside SOA and
  NS. Lower-case zone names and aliases typed CNAME, both together, are exactly what
  it takes (`StaticCase.LowerCaseIsExact`, `StaticCase.RenderedOwnersAreExact`,
  `StaticCase.CapitalApex`, `StaticCase.UnseenAlias`, `StaticCase.SmallAlias`,
  `StaticCase.OwnersMeetAcrossZones`).
- A record is accepted in a zone although a closer configured zone, or a delegation
  or DNAME inside the zone, answers for its name. Without either every accepted
  record is answered (`StaticVisible.VisibleIsExact`, `StaticVisible.InnerZoneHides`,
  `StaticVisible.CutHides`), and every ptr: true record can be looked up both ways
  (`StaticVisible.PtrRoundTrip`).
- A completion marker can stand in an unverified directory if the staged tree
  brings its own marker or names another backup (`BackupRuns.SafetyIsExact`).
  The backup program stages neither (`BackupRuns.FreshStagingIsSafe`).
- A host name that is a run of dots, a host name or alias that ends in a line break,
  and a reverse zone named by three bare labels get lines from the template that the
  filter has not claimed (`StaticNames.HostNamesAreExact`,
  `StaticNames.ReverseNamesAreExact`).
- In a dry-run `converge` only the host option looks at the flag: it creates a
  ReplicaSet exactly when a real run would
  (`ReplicaSetManager.CreatingIgnoresTheDryRun`, `ReplicaSetManager.DryRunCreates`),
  and it leaves the ReplicaSet unchanged exactly on the answers on which it neither
  creates nor finds a member to add or rejoin (`ReplicaSetManager.Manager.Run`). Its
  `changed` is also true for a host option that it reports and does not set.
- Renders of the DNS role keep one zone per serial exactly for servers that agree
  on serial, records and text, as a completed round leaves them
  (`RenderLimits.RendersAreExact`, `RenderRuns.CompletedRoundAgrees`). Role rounds do so
  exactly for servers with the same text (`RenderLimits.RoleRoundsAreExact`): a
  render that reaches one server only has to be finished before the next round,
  which would otherwise complete and publish two zones under one serial
  (`RenderLimits.OneSidedRenderCollides`). Restarts do so exactly for servers that do
  not have one serial for different records (`RenderLimits.RestartsAreExact`), as a
  round can leave that stops between zone and records
  (`RenderLimits.StoppedRoundAndRestartCollide`).

## Reading the model

State that the source changes in place is a class with fields: `NameServer`,
`Repository`, `BinlogArchive`, `ZabbixHost`, `Manager`. Its methods, and the
loops of the filters, are proved against specification functions
(`UpdateOutcome`, `RunRound`, `Stored`, `AfterRun`, `Accepted`, `Output`,
`Migration`, `HostDecision`, ...), and the lemmas are about those functions.
A stop is an explicit parameter: the number of atomic steps that get done.

## Model

| member | source | states |
|---|---|---|
| `RoleDnsRuns.InterruptedRunsAreRepaired` | roles/components/mysql_role_dns/tasks/main.yml:14-160 | Crash tolerance: from any deployed pair of servers, after any history of rounds of any length, completed or stopped anywhere on either server, each with its own records, as long as no 2^32 rounds in a row fail: one uninterrupted round ends with both servers on one serial, the records on disk and loaded, and matching markers, if and only if the serials on disk are at most 2^31 - 2 apart when it starts; they are at most as far apart as rounds in a row have failed; no serial ever stood for two record files |
| `RoleDnsRuns.GapIsConsecutiveFailures` | roles/components/mysql_role_dns/tasks/main.yml:76-160 | Over every run the gap never exceeds the number of consecutive incomplete rounds, counting from the initial gap: from equal serials, the rounds since the last completed one, or all if none completed |
| `RoleDnsRuns.RunStaysWithin` | roles/components/mysql_role_dns/tasks/main.yml:142-160 | Over every run both the other server and the last marker are at most as far back as rounds in a row have failed; a completed round leaves markers for the serials on disk |
| `RoleDnsRuns.RunKeepsInvariant` | roles/dns_authoritative/files/update-mysql-role-dns.py:120-171 | Over every run: any two reloads at the same unwrapped serial, on either server, load identical records; serials and reload histories only grow; the gap grows by at most one per round |
| `RoleDnsRuns.RoundKeepsInvariant` | roles/components/mysql_role_dns/tasks/main.yml:76-160 | One round, stopped anywhere, keeps the invariant; the gap grows by at most one and is zero after a completed round; nothing but the serial changes in a zone text |
| `RoleDnsRuns.WritesAreFresh` | roles/dns_authoritative/files/update-mysql-role-dns.py:168-171 | Whatever a round writes, it writes under a serial one beyond every serial on either disk, and a zone's records change only with its serial |
| `RoleDnsRuns.UninterruptedRound` | roles/components/mysql_role_dns/tasks/main.yml:62-160 | An uninterrupted round completes exactly when the servers are less than 2^31 - 1 apart, and then both publish; at 2^31 - 1 it moves the newer server to half range |
| `RoleDnsRuns.BlockedRound` | roles/components/mysql_role_dns/filter_plugins/serial.py:37-41 | At a gap of 2^31 no round changes anything or completes, so the servers stay there |
| `RoleDnsRuns.AimIsTheTarget` | roles/components/mysql_role_dns/filter_plugins/serial.py:32-45 | Up to half range the chosen target is the serial after the newest one counted without wrapping, or the common serial when nothing needs writing; the ring gap is the unwrapped distance |
| `RoleDnsRuns.MarkerIsTrusted` | roles/dns_authoritative/files/update-mysql-role-dns.py:69-75 | When update reports that no reload is needed, NSD already serves the files on disk, for markers less than a full turn of the ring old |
| `RenderRuns.RendersKeepOneZone` | roles/dns_authoritative/tasks/managed_zone.yml:1-57 | Over every run of role rounds between servers with the same text, of renders of servers that agree or that finish an unfinished render, each stopped anywhere on either server, and of restarts between servers with different serials or the same zone: no serial on either server ever stands for two zone texts or two record files |
| `RenderRuns.CompletedRoundAgrees` | roles/components/mysql_role_dns/tasks/main.yml:106-160 | A completed round between servers with the same text leaves servers that agree, with its records |
| `RenderRuns.RendersAreRepaired` | roles/components/mysql_role_dns/tasks/main.yml:14-160 | Crash tolerance with renders: after any allowed history of rounds, renders and restarts, stopped anywhere, that ends with the same text on both servers, one uninterrupted round publishes on both if and only if the serials on disk are at most 2^31 - 2 apart; they are at most as far apart as there have been rounds and renders since the last completed round |
| `RenderRuns.SelectedSerial` | roles/dns_authoritative/tasks/managed_zone.yml:29-42 | A render keeps the serial of an unchanged zone and advances it by one otherwise, and the rendered zone carries it |
| `RenderLimits.RendersAreExact` | roles/dns_authoritative/tasks/managed_zone.yml:29-57 | In every state that rounds, renders and restarts may lead to, with record files on both servers and three renderable texts of different content at hand: every list of complete renders keeps one zone per serial if and only if the servers agree on serial, records and text |
| `RenderLimits.RoleRoundsAreExact` | roles/components/mysql_role_dns/tasks/main.yml:76-140 | In every such state: every role round, stopped anywhere, keeps one zone per serial if and only if both servers hold the same zone text |
| `RenderLimits.RoundOverUnfinishedRender` | roles/components/mysql_role_dns/tasks/main.yml:62-160 | After a render that reached one server only, an uninterrupted round completes, with one serial and one record file on both servers, and publishes two zone texts under that serial |
| `RenderLimits.OneSidedRenderCollides` | roles/dns_authoritative/tasks/managed_zone.yml:29-57 | How that comes about: any two servers that agree, any new text rendered on one of them, and one uninterrupted round |
| `RenderLimits.StoppedRoundLeavesApart` | roles/dns_authoritative/files/update-mysql-role-dns.py:168-171 | A round stopped after its first write leaves the servers one serial apart |
| `RenderLimits.GapCollides` | roles/dns_authoritative/tasks/managed_zone.yml:29-57 | Servers any number of serials apart: some list of complete renders puts two texts under one serial |
| `RenderLimits.OtherRecordsCollide` | roles/dns_authoritative/tasks/managed_zone.yml:29-57 | Servers with one serial and different record files: one complete render puts both under one serial |
| `RenderLimits.RestartsAreExact` | roles/dns_authoritative/tasks/main.yml:102-109 | In every such state, with record files on both servers: a restart of NSD on either or both of them keeps one zone per serial if and only if the servers do not have one serial for different records |
| `RenderLimits.StoppedRoundAndRestartCollide` | roles/dns_authoritative/tasks/main.yml:102-109 | How that comes about: a round stops on one server between zone and records and goes through on the other, and both are restarted |
| `RoleDnsRuns.UpdateShape` | roles/dns_authoritative/files/update-mysql-role-dns.py:120-171 | However far an update gets: the serial is old or the newer target, the records change only under the target, the include line and all other zone text survive |
| `RoleDnsRuns.UpdateAccepts` | roles/dns_authoritative/files/update-mysql-role-dns.py:121-129 | With enough steps update succeeds exactly when the target is the own serial or newer, and is not the own serial if records change; a refused update changes nothing |
| `RoleDnsRuns.PublishedRoundIsSilent` | roles/dns_authoritative/files/update-mysql-role-dns.py:131-144 | A round over published records writes nothing, reloads nothing, and completes |
| `RoleDnsRuns.RunNeverLooksLikeAChange` | roles/dns_authoritative/filter_plugins/soa_serial.py:43-59 | After any run the rendering filter keeps exactly the serial the run has reached: runtime updates never trigger a bump |
| `RoleDns.NameServer.Update` | roles/dns_authoritative/files/update-mysql-role-dns.py:102-184 | update on one server, stopped in front of any atomic step: final files and report are those of the outcome function, the zone written before the records |
| `RoleDns.NameServer.ReloadService` | roles/components/mysql_role_dns/tasks/main.yml:128-140 | NSD then serves the zone serial and the records on disk, or what it served before if the zone has no serial line; files and marker are untouched |
| `RoleDns.NameServer.RecordApplied` | roles/components/mysql_role_dns/tasks/main.yml:142-160 | From then on an inspection asks for a reload exactly when the desired records or the serial on disk are not those of the report |
| `RoleDns.PublishRoles` | roles/components/mysql_role_dns/tasks/main.yml:14-160 | The tasks of one round in order, both servers in each task: final state of both servers and completion are those of the round function |
| `Ring.NewerIsRfc1982` | roles/dns_authoritative/files/update-mysql-role-dns.py:78-80 | serial_is_newer is the comparison of section 3.2 of RFC 1982 |
| `Ring.ChoiceIsSymmetric` | roles/components/mysql_role_dns/filter_plugins/serial.py:25-45 | The chosen target, and whether there is one, does not depend on the order of the two serials |
| `Ring.ChoiceIsAcceptedOffTheBoundary` | roles/components/mysql_role_dns/filter_plugins/serial.py:36-45 | There is a target exactly off half range; both servers accept it exactly when the gap is neither 2^31 - 1 nor 2^31; at 2^31 - 1 it is the older server that refuses |
| `ZoneText.ParserIsThePattern` | roles/dns_authoritative/files/update-mysql-role-dns.py:13 | The left-to-right line parser finds exactly the matches of the regular expression |
| `ZoneText.ReplaceSerialRoundTrip` | roles/dns_authoritative/files/update-mysql-role-dns.py:39-45 | On a text with one serial line the edit succeeds exactly for 32-bit numbers, leaves one serial line that parses back to the number, and changes no other character |
| `ZoneText.AdvanceIsReplace` | roles/dns_authoritative/files/update-mysql-role-dns.py:27-36 | advance_serial is replace_serial with the next number of the ring |
| `ZoneText.LastEditWins` | roles/dns_authoritative/files/update-mysql-role-dns.py:39-45 | A second edit gives the same text as if there had been no first |
| `ZoneText.EditKeepsIncludes` | roles/dns_authoritative/files/update-mysql-role-dns.py:146-149 | An edit neither adds nor removes an include directive |
| `ZoneText.EditKeepsPlaceholders` | roles/dns_authoritative/files/update-mysql-role-dns.py:39-45 | An edit neither makes nor removes a line that reads like the placeholder form |
| `ZoneText.RuntimeEditIsKept` | roles/dns_authoritative/filter_plugins/soa_serial.py:43-59 | The filter returns the number that the runtime updater wrote, unchanged |
| `ZoneText.SameContentIsKept` | roles/dns_authoritative/filter_plugins/soa_serial.py:56-57 | Texts that differ only in the serial are never a change |
| `ZoneText.RenderIsAFixpoint` | roles/dns_authoritative/filter_plugins/soa_serial.py:43-59 | Rendering the selected serial and selecting again gives the same serial, also with a runtime edit in between |
| `ZoneText.BumpDetectionIsExact` | roles/dns_authoritative/filter_plugins/soa_serial.py:36-40 | The filter tells changed from unchanged content for every desired text if and only if the existing text has no line that reads like the placeholder form of a serial line |
| `ZoneText.NormalFormsAreFaithful` | roles/dns_authoritative/filter_plugins/soa_serial.py:37-40 | Without such a line, equal normal forms mean equal content |
| `ZoneText.PlaceholderTwin` | roles/dns_authoritative/filter_plugins/soa_serial.py:37-40 | With such a line there is another text of different content and equal normal form: a change the filter misses |
| `BackupFiles.MarkerPinsTheTree` | roles/components/mysql_backup/files/mysql_backup_storage.py:73-126 | Hash chain: a tree carrying the marker of a verified backup verifies under that identity if and only if it has no symlink and its files are the backup's, byte for byte |
| `BackupFiles.FreshManifestVerifies` | roles/components/mysql_backup/files/mysql-physical-backup.py:286-294 | A tree described by its own manifest passes verify_files, with directory_size as its total |
| `BackupFiles.TotalWithout` | roles/components/mysql_backup/files/mysql_backup_storage.py:107-115 | The total size does not depend on the order in which files are visited |
| `BackupFiles.DirectorySize` | roles/components/mysql_backup/files/mysql-physical-backup.py:50-51 | directory_size is the sum over the regular files |
| `BackupFiles.ComputeFileManifest` | roles/components/mysql_backup/files/mysql_backup_storage.py:59-70 | backup_file_manifest lists exactly the regular files with size and digest, or refuses a symlink or missing metadata |
| `BackupFiles.VerifyFilesLoop` | roles/components/mysql_backup/files/mysql_backup_storage.py:94-119 | verify_files accepts exactly the trees of the order-free specification and returns their total |
| `BackupFiles.VerifyBackupNow` | roles/components/mysql_backup/files/mysql_backup_storage.py:122-126 | verify_backup: completion, files and total size all agree |
| `BackupStore.Repository.Store` | roles/components/mysql_backup/files/mysql_backup_storage.py:156-182 | store_backup stopped at any step, any set of files failing to be copied: the repository is that of the outcome function, and success is exactly that of its specification |
| `BackupStore.Repository.CopyTree` | roles/components/mysql_backup/files/mysql_backup_storage.py:167 | copytree stopped in front of any entry: the entries before it are copied, any of them with other bytes if writing it failed, as copytree goes on after an error; it succeeds exactly when it was not stopped and no entry failed |
| `BackupStore.PlacesAreApart` | roles/components/mysql_backup/files/mysql_backup_storage.py:163 | The directories of different identities do not overlap |
| `BackupRuns.StoreShape` | roles/components/mysql_backup/files/mysql_backup_storage.py:167-182 | All a stopped store leaves: part of the staged tree without a marker, any of its files perhaps with other bytes, or all of it as staged with one; nothing outside its directory changes |
| `BackupRuns.MarkedVerifies` | roles/components/mysql_backup/files/mysql_backup_storage.py:172-178 | Marking a checked tree gives a verified backup exactly when its manifest names the backup |
| `BackupRuns.StoreKeepsSound` | roles/components/mysql_backup/files/mysql_backup_storage.py:156-182 | A store of a safe staging tree, stopped anywhere, keeps every marker in a verified backup and changes nothing outside its own directory |
| `BackupRuns.SafetyIsExact` | roles/components/mysql_backup/files/mysql_backup_storage.py:170-178 | Every interruption of a store keeps markers truthful if and only if the staged tree brings no marker and, when its files are in order, names the backup |
| `BackupRuns.StrayMarkerIsExposed` | roles/components/mysql_backup/files/mysql_backup_storage.py:167-171 | A marker in staging can be left standing in an unverified directory |
| `BackupRuns.WrongNameIsExposed` | roles/components/mysql_backup/files/mysql_backup_storage.py:172-181 | A manifest naming another backup can be left marked between marking and final verification |
| `BackupRuns.RunKeepsBackups` | roles/components/mysql_backup/files/mysql_backup_storage.py:156-182 | Over any run of interrupted stores: every marker stands in a verified backup, and an existing backup is never altered |
| `BackupRuns.ListedIsVerified` | roles/components/mysql_backup/files/mysql_backup_storage.py:129-141 | A listed backup, of which only metadata was read, is verified in full |
| `BackupRuns.FreshBackupIsStored` | roles/components/mysql_backup/files/mysql-physical-backup.py:274-294 | A freshly described tree is always stored under a new run id, in any copying order in which no file fails, as that tree with its marker |
| `BackupRuns.FreshStagingIsSafe` | roles/components/mysql_backup/files/mysql-physical-backup.py:274-294 | What the backup program stages is safe to store: its manifest names the backup and it holds no marker |
| `BackupRuns.RestoreStartsFromTheBackup` | roles/components/mysql_backup/files/mysql-restore-test.py:243-247 | A copy that carries the marker and verifies under the original identity is the stored backup byte for byte, without links |
| `BackupChoice.ListBackups` | roles/components/mysql_backup/files/mysql_backup_storage.py:129-141 | list_backups returns exactly the directories on offer, each once |
| `BackupChoice.ResolveBackup` | roles/components/mysql_backup/files/mysql_backup_storage.py:144-153 | resolve_backup finds the only backup of the given id, or one that none is newer than; it fails exactly when there is none |
| `BackupChoice.ChosenBackupIsVerified` | roles/components/mysql_backup/files/mysql_backup_storage.py:144-153 | After any run of interrupted stores, the backup chosen for a restore is verified in full, and the one asked for or the newest on offer |
| `Binlogs.BinlogArchive.ArchiveLoop` | roles/components/mysql_backup/files/mysql-physical-backup.py:147-173 | The loop over closed logs, stopped or refused anywhere: archive and entries are those of the outcome function |
| `Binlogs.BinlogArchive.ArchiveClosed` | roles/components/mysql_backup/files/mysql-physical-backup.py:139-184 | One archive run: logs, manifests and result are those of the run function |
| `BinlogRuns.ArchiveIsWriteOnce` | roles/components/mysql_backup/files/mysql-physical-backup.py:147-184 | Over any sequence of runs, refused, stopped or complete: the archive only grows, no stored log or manifest changes, every manifest still matches its entries by size and digest |
| `BinlogRuns.RunSucceedsExactly` | roles/components/mysql_backup/files/mysql-physical-backup.py:148-178 | A run succeeds if and only if every closed log has a plain name, is a regular file and conflicts with nothing archived, the run id is new, and nothing stops it |
| `BinlogRuns.RunOutcome` | roles/components/mysql_backup/files/mysql-physical-backup.py:139-184 | A successful run's manifest lists the closed logs in order with the archived bytes of the source; a failed one writes no manifest |
| `Binlogs.SelectBinlogs` | roles/components/mysql_backup/files/mysql-restore-test.py:143-166 | pitr_binlogs with its checks and its loop |
| `Binlogs.SelectFrom` | roles/components/mysql_backup/files/mysql-restore-test.py:158-165 | The loop accepts exactly consecutive entries that the archive still holds, and returns their names in order |
| `BinlogRuns.RecoveryHasNoGap` | roles/components/mysql_backup/files/mysql-restore-test.py:143-166 | For a consecutively numbered source that includes the baseline log, after any number of later runs, the selection succeeds and returns exactly the source history from the baseline through the run's last closed log, without gap or duplicate |
| `BinlogRuns.NextNamesAgree` | roles/components/mysql_backup/files/mysql-restore-test.py:160 | int, str and zfill give the source's own next names, also when numbers outgrow their digits |
| `BinlogRuns.SplitIsThePattern` | roles/components/mysql_backup/files/mysql-restore-test.py:155 | The split at the last dot is the match of the regular expression: it exists exactly when a match does, and a match is unique |
| `BinlogRuns.SelectionIsConsecutive` | roles/components/mysql_backup/files/mysql-restore-test.py:159-165 | Any selection that succeeds, on any manifest, carries consecutive numbers from the baseline on |
| `StoragePaths.ValidateStoragePaths` | roles/components/mysql_backup/files/mysql_backup_storage.py:45-56 | The nested loops accept exactly pairwise unrelated safe paths, and return what they resolve to |
| `StoragePaths.PathsAreSeparate` | roles/components/mysql_backup/filter_plugins/mysql_backup.py:29-40 | The controller's filter accepts exactly pairwise unrelated absolute paths without .. |
| `StoragePaths.ChecksAgree` | roles/components/mysql_backup/filter_plugins/mysql_backup.py:29-40 | On normalised symlink-free paths both programs accept the same lists |
| `StoragePaths.CleanupSparesOtherPaths` | roles/components/mysql_backup/files/mysql-physical-backup.py:187-195 | Cleaning up inside one accepted path leaves every file under the others |
| `StoragePaths.SiblingRemovalSparesPaths` | roles/components/mysql_backup/files/mysql-restore-test.py:239-243 | Removing the fresh copy next to the scratch directory leaves every file under the other accepted paths |
| `StaticMerge.Merge` | roles/dns_authoritative/filter_plugins/static_records.py:57-149 | The loops accept exactly the inputs of the order-free specification - every record valid, no owner twice, none reserved, no CNAME at an apex - and return its sorted zones |
| `StaticMerge.ClaimAll` | roles/dns_authoritative/filter_plugins/static_records.py:68-77 | claim repeated over a list: succeeds exactly when the list fits beside the owners taken so far |
| `StaticMerge.PlaceStatics` | roles/dns_authoritative/filter_plugins/static_records.py:96-144 | The loop over static records and PTRs: acceptance and the filled zones by specification |
| `StaticMerge.ClaimConfigured` | roles/dns_authoritative/filter_plugins/static_records.py:87-94 | The loop over configured and inventory records, by specification |
| `RecordOrder.SortSorts` | roles/dns_authoritative/filter_plugins/static_records.py:146-148 | Sorting keeps the records and orders them by lower-case name, type and value |
| `RecordOrder.SortedIsUnique` | roles/dns_authoritative/filter_plugins/static_records.py:148 | With distinct names there is one sorted list of the same records |
| `StaticOrder.OrderDoesNotMatter` | roles/dns_authoritative/filter_plugins/static_records.py:57-149 | Permuting record lists, hosts or the static mapping changes neither acceptance nor the output |
| `StaticZoneOrder.ZoneOrderDoesNotMatter` | roles/dns_authoritative/filter_plugins/static_records.py:79-85 | Listing the zones in another order changes neither acceptance nor what is written for each zone |
| `StaticOrder.ZoneRecordsAreDistinct` | roles/dns_authoritative/filter_plugins/static_records.py:75-77 | In an accepted input the names within each published zone are distinct |
| `StaticCase.LowerCaseIsExact` | roles/dns_authoritative/filter_plugins/static_records.py:68-77 | For any list of zone names and any list of configured types with CNAME in it: the filter accepts exactly the proper inputs over these, DNS names and types compared without case, if and only if all the names are written in lower case and every type that DNS reads as an alias is written CNAME |
| `StaticCase.LowerCaseIsEnough` | roles/dns_authoritative/filter_plugins/static_records.py:68-77 | With lower-case zone names, any number of zones, and configured aliases typed CNAME: acceptance is being proper |
| `StaticCase.CapitalApex` | roles/dns_authoritative/filter_plugins/static_records.py:70 | For every list of zone names with a capital letter in one of them, an accepted input that puts an alias beside that zone's SOA and NS records |
| `StaticCase.UnseenAlias` | roles/dns_authoritative/filter_plugins/static_records.py:71 | For every list of zone names, lower case included, and every type that DNS reads as an alias but that is not written CNAME, an accepted input with such a record beside the SOA and NS records of a zone |
| `StaticCase.SmallAlias` | roles/dns_authoritative/filter_plugins/static_records.py:71 | An accepted input over the zone b with a configured record @ of type cname |
| `StaticCase.OwnersMeetAcrossZones` | roles/dns_authoritative/filter_plugins/static_records.py:70 | An accepted input over the zones b and A.b that defines the DNS name a.b twice |
| `StaticProperties.PtrIsForwardConfirmed` | roles/dns_authoritative/filter_plugins/static_records.py:129-144 | Every accepted ptr: true record has its A record published and, in the zone of its /24, the PTR as the one record of that name, naming the owner of that A record; no other record of any zone has the same owner as the filter reads owners |
| `StaticCase.PtrCompetitorsAreExact` | roles/dns_authoritative/filter_plugins/static_records.py:70 | As DNS reads owners, a record competes with that PTR if and only if it is an apex record of a zone that is named like the address but with a capital letter |
| `StaticVisible.PtrRoundTrip` | roles/dns_authoritative/filter_plugins/static_records.py:129-144 | Forward-confirmed reverse DNS as answered: with lower-case zones, and where nothing is hidden, the address of an accepted ptr: true record is answered by exactly one PTR, and the name in it by exactly one A record, of that address |
| `StaticVisible.VisibleIsExact` | roles/dns_authoritative/templates/nsd.conf.j2:13-18 | For any list of zone names, one with room for two more labels, and any list of configured types: every record of every accepted input is answered by NSD, from the closest zone of its name and not cut off inside it, if and only if no zone name lies below another and no type reads as NS or DNAME |
| `StaticVisible.BelowIsHidden` | roles/dns_authoritative/filter_plugins/static_records.py:68-77 | Whenever a zone name of a list lies below another, a host in the outer zone under the inner zone's name is accepted and never answered |
| `StaticVisible.InnerZoneHides` | roles/dns_authoritative/filter_plugins/static_records.py:68-77 | An accepted input over the zones b and a.b of which not everything is answered |
| `StaticVisible.CutHides` | roles/dns_authoritative/filter_plugins/static_records.py:68-77 | For any type that reads as NS or DNAME, an accepted input with a record below one of that type |
| `StaticProperties.TemplateMatchesFilter` | roles/dns_authoritative/templates/zone.j2:24-62 | For normalised names the inventory lines of the template are the records the filter claims, in each mode |
| `StaticOwners.ReverseTemplateIsExact` | roles/dns_authoritative/templates/zone.j2:52-58 | In reverse mode template and filter agree for every host if and only if the zone name ends in in-addr.arpa or is not three labels long |
| `StaticProperties.RenderedAreTheClaims` | roles/dns_authoritative/templates/zone.j2:18-62 | The rendered managed zones hold, besides SOA and NS, exactly the claimed records, for names that template and filter strip alike |
| `StaticOwners.RenderedOwnersAreClaimed` | roles/dns_authoritative/templates/zone.j2:18-62 | Each record rendered besides SOA and NS has a claim of its own with the same owner and kind, unless a host name is a run of dots, a host name or alias ends in its zone's name and a line break, or a reverse zone is named by three bare labels |
| `StaticCase.RenderedOwnersAreDistinct` | roles/dns_authoritative/filter_plugins/static_records.py:68-77 | With lower-case zone names and configured aliases typed CNAME: over all rendered managed zones every DNS name, compared without case, is defined once, none is a reserved runtime name, and no record that DNS reads as an alias stands at an apex |
| `StaticCase.RenderedOwnersAreExact` | roles/dns_authoritative/filter_plugins/static_records.py:68-77 | For any list of zone names and any list of configured types with CNAME in it, every accepted input renders so if and only if all the names are in lower case and every type that DNS reads as an alias is written CNAME |
| `StaticNames.HostNamesAreExact` | roles/dns_authoritative/templates/zone.j2:24-62 | For any lists of host names and aliases: every accepted input with lower-case zones renders every name once if and only if no host name is a run of two dots or more and neither a host name nor an alias ends in a zone's name and a line break, where the pattern of the template still matches and the filter does not |
| `StaticNames.ReverseNamesAreExact` | roles/dns_authoritative/templates/zone.j2:52-62 | For any list of reverse zone names: every accepted input renders every name once if and only if each ends in in-addr.arpa or is not three labels long |
| `RoleOwners.RoleRecordsAreTheReserved` | roles/dns_authoritative/files/update-mysql-role-dns.py:17-24 | The record file makes the primary alias stand for the primary and, if there is a secondary, the replica alias for the secondary, each target ending in exactly one dot; these are the reserved names of the runtime zone |
| `RoleOwners.EveryOwnerIsDefinedOnce` | roles/dns_authoritative/filter_plugins/static_records.py:64-77 | With lower-case zone names and configured aliases typed CNAME, all rendered DNS names and the names of the runtime record file are pairwise distinct, under the exact conditions on host and reverse zone names |
| `Networks.ReverseZones` | filter_plugins/network.py:8-24 | The nested loops accept exactly networks of /16 to /24 without host bits, and list the /24 zones of all of them, each once, in the order in which they first occur |
| `Networks.ReverseZoneOfAddress` | roles/dns_authoritative/filter_plugins/static_records.py:130-131 | The reverse name of an address is the name of its /24 |
| `Networks.BlockNamesDiffer` | filter_plugins/network.py:19-20 | Different /24 networks have different zone names |
| `Networks.PtrScopeIsTheNetworks` | roles/dns_authoritative/filter_plugins/static_records.py:132-138 | With the generated reverse zones, a valid A record may ask for a PTR if and only if some inventory network contains its address |
| `Icmp.PlanMigration` | roles/services/zabbix_api/filter_plugins/zabbix_network.py:51-101 | icmp_migration with its three loops is the planning function |
| `Icmp.PairLoop` | roles/services/zabbix_api/filter_plugins/zabbix_network.py:65-77 | The loop over the known triggers |
| `Icmp.ItemLoop` | roles/services/zabbix_api/filter_plugins/zabbix_network.py:86-94 | The loop over the host's items |
| `Icmp.RenameLoop` | roles/services/zabbix_api/filter_plugins/zabbix_network.py:95-100 | The loop that compares signatures and collects renames |
| `Icmp.ZabbixHost.Unlink` | roles/services/zabbix_api/tasks/network-migrate.yml:3-19 | host.update without templates: the host has no parents, its items and triggers are kept and inherit from nothing, every other host's entities are as they were |
| `Icmp.ZabbixHost.RenameTriggers` | roles/services/zabbix_api/tasks/network-migrate.yml:21-33 | trigger.update renames the listed triggers and changes nothing else |
| `IcmpRuns.PlanIsResumable` | roles/services/zabbix_api/tasks/network-migrate.yml:3-33 | After any part of an accepted plan, planning again is accepted and asks for exactly the remaining steps |
| `IcmpRuns.StepsDecrease` | roles/services/zabbix_api/tasks/network-migrate.yml:3-33 | Every step carried out leaves fewer steps to plan |
| `IcmpRuns.PlanAfterMove` | roles/services/zabbix_api/filter_plugins/zabbix_network.py:65-101 | Entities that only changed template or moved from old to new name leave acceptance as it was, and the renames that are left |
| `IcmpBehaviour.AcceptedMeansUnmodified` | roles/services/zabbix_api/filter_plugins/zabbix_network.py:65-100 | An accepted plan means: one trigger for each known name, behaving as the packaged one under every meaning of the functions, with its settings and dependencies and no foreign template; every item is its packaged definition, unmodified |
| `IcmpBehaviour.SamePairIsExact` | roles/services/zabbix_api/filter_plugins/zabbix_network.py:97 | Equal signatures are exactly equal behaviour: expression and recovery, evaluated in place with the trigger's own functions and items, settings and dependencies |
| `IcmpBehaviour.SubstitutionEvaluates` | roles/services/zabbix_api/filter_plugins/zabbix_network.py:13-23 | Substituting calls for references and then evaluating is evaluating the expression in place |
| `IcmpBehaviour.CheckedIsUnmodified` | roles/services/zabbix_api/filter_plugins/zabbix_network.py:86-94 | An item passes exactly when it and its one packaged definition before and after agree, and it inherits from no foreign template |
| `IcmpMeaning.LinkingCompletes` | roles/services/zabbix_api/filter_plugins/zabbix_network.py:101 | When no step is left, linking the new template to the host, whatever of its entities it adopts and whatever the reading holds for other hosts, gives an empty plan that is not pending |
| `IcmpInstantiation.CreatingCompletes` | roles/services/zabbix_api/filter_plugins/zabbix_network.py:63-101 | On an accepted host that has nothing, creating the template's items and triggers under new ids gives an empty plan that is not pending, if the packaged definitions agree |
| `IcmpMeaning.PlanIgnoresIds` | roles/services/zabbix_api/filter_plugins/zabbix_network.py:51-101 | Injective renamings of function, item and trigger ids, fixing '0', change neither acceptance nor the plan but for the ids in it |
| `IcmpMeaning.SignatureRenamed` | roles/services/zabbix_api/filter_plugins/zabbix_network.py:13-31 | A signature holds no database ids |
| `IcmpMeaning.SignatureIsMeaning` | roles/services/zabbix_api/filter_plugins/zabbix_network.py:22-27 | Two substituted expressions are equal if and only if they evaluate equally under every meaning of function, item key and parameter |
| `ReplicaSet.MembershipIsAPermutation` | roles/components/mysql_replicaset/files/mysql-replicaset.py:44-50 | As many members as expected and each expected name once is a permutation of the expected names, exactly when these are distinct |
| `ReplicaSetWriter.ExactlyOneWriter` | roles/components/mysql_replicaset/files/mysql-replicaset.py:44-64 | For distinct expected instances a reading passes validate_writable_topology if and only if the members are a permutation, two are online, a PRIMARY and another SECONDARY, and the PRIMARY alone has both read-only flags off while all others have both on |
| `ReplicaSetWriter.WritersCounted` | roles/components/mysql_replicaset/files/mysql-replicaset.py:57-64 | Of an accepted reading exactly one instance accepts writes, the reported primary, and the reported secondary is another |
| `ReplicaSetWriter.NormalizeIsNormalized` | roles/components/mysql_replicaset/files/mysql-replicaset.py:7-31 | A normalised status reports the first online PRIMARY and SECONDARY, and no member is nameless if no expected name or endpoint is empty |
| `ReplicaSetWriter.AllowedHostSettles` | roles/components/mysql_replicaset/files/mysql-replicaset.py:78-98 | Setting the option leaves nothing to change, unless the desired host is empty; a change is asked for exactly when the option or an account is elsewhere |
| `ReplicaSetManager.DecideHost` | roles/components/mysql_replicaset/files/mysql-replicaset.py:85-94 | The loop over the accounts |
| `ReplicaSetManager.Manager.ConnectToReachable` | roles/components/mysql_replicaset/files/mysql-replicaset.py:127-134 | Tries the expected instances in order, stops at the first that can be reached and returns it, or fails after all of them |
| `ReplicaSetManager.Manager.ValidateConfigurations` | roles/components/mysql_replicaset/files/mysql-replicaset.py:156-158 | Passes exactly when every expected server answers and follows the policy |
| `ReplicaSetManager.Manager.ConvergeAllowedHost` | roles/components/mysql_replicaset/files/mysql-replicaset.py:78-98 | For every answer: sets the option exactly when the accounts and the option just read decide on a change and this is no dry run; what it returns is that decision |
| `ReplicaSetManager.Manager.RunCheck` | roles/components/mysql_replicaset/files/mysql-replicaset.py:204-217 | check changes nothing; if there is a ReplicaSet its reading is writable, and changed is the decision on the accounts of that reading's primary and the option, its last two readings |
| `ReplicaSetManager.Manager.Bootstrap` | roles/components/mysql_replicaset/files/mysql-replicaset.py:218-233 | Over all answers: creates the ReplicaSet exactly when the seed is reached, all servers follow the policy and no instance holds metadata, dry run or not; finds it exactly when the seed knows of it and it can be opened |
| `ReplicaSetManager.Manager.JoinInstances` | roles/components/mysql_replicaset/files/mysql-replicaset.py:234-245 | Over all answers and outcomes: only adds and rejoins members, at most one call for each expected instance; some call exactly when each status showed the next instance ONLINE up to one that lacks it or shows it OFFLINE |
| `ReplicaSetManager.Manager.ConvergeMembers` | roles/components/mysql_replicaset/files/mysql-replicaset.py:218-250 | converge up to its last reading, for all answers and outcomes: no promotion; something is changed exactly when it creates, joins or sets the option; in a dry run exactly on the answers on which it creates or joins; a successful one returns the decision on the option that it read |
| `ReplicaSetManager.Manager.Promote` | roles/components/mysql_replicaset/files/mysql-replicaset.py:256-275 | If a check refuses, returns its error and asks for nothing; otherwise asks for the dry run and then, exactly if that succeeded and this is no dry run, for the promotion of the target |
| `ReplicaSetManager.Manager.Transition` | roles/components/mysql_replicaset/files/mysql-replicaset.py:251-275 | status, switchover, failover up to the last reading: none or exactly the one promotion of the target, none in a dry run |
| `ReplicaSetManager.Manager.Run` | roles/components/mysql_replicaset/files/mysql-replicaset.py:200-290 | For every sequence of answers and every outcome: check, status and dry-run transitions change nothing; a dry-run converge changes something exactly on the answers on which it creates, adds or rejoins; converge creates exactly on the stated answers, dry run or not; the host option reported by check and converge is the decision on the accounts and the option read; outside dry runs and check, changed is returned exactly when some change was asked for; at most one promotion; a successful real transition returns a fresh reading with the target as primary, writable after a failover |
| `ReplicaSetManager.CreatingIgnoresTheDryRun` | roles/components/mysql_replicaset/files/mysql-replicaset.py:218-233 | The answers on which converge creates a ReplicaSet are the same with and without the dry-run flag |
| `ReplicaSetManager.FreshPairIsCreated` | roles/components/mysql_replicaset/files/mysql-replicaset.py:222-233 | A dry-run configuration and answers on which converge creates a ReplicaSet |
| `ReplicaSetManager.DryRunCreates` | roles/components/mysql_replicaset/files/mysql-replicaset.py:218-233 | A dry run of converge that asks for a ReplicaSet to be created |
| `ReplicaSetRuns.ForcedFailoverIsSafe` | roles/components/mysql_replicaset/files/mysql-replicaset.py:67-75 | A forced promotion follows a snapshot without online PRIMARY whose target is an ONLINE or CONNECTING SECONDARY under the server policy, and a successful dry run with the same arguments |
| `ReplicaSetRuns.SwitchoverIsSafe` | roles/components/mysql_replicaset/files/mysql-replicaset.py:261-275 | A switchover follows a snapshot with exactly two online members, the target as SECONDARY and another as PRIMARY, and a successful dry run with the same arguments |
| `ReplicaSetRuns.PromotionIsRehearsed` | roles/components/mysql_replicaset/files/mysql-replicaset.py:272-275 | Every real promotion is the call after its own successful dry run, which is the call after the snapshot that allowed it |
| `ReplicaSetRuns.BootstrapIsSafe` | roles/components/mysql_replicaset/files/mysql-replicaset.py:222-233 | A ReplicaSet is created only as the first change, after every expected instance was seen to hold no metadata |
| `ReplicaSetRuns.JoinsAreNeeded` | roles/components/mysql_replicaset/files/mysql-replicaset.py:235-245 | A member is added only if the status just read lacks its name, and rejoined only if that status shows it OFFLINE |
| `ReplicaSetRuns.OptionSetIsNeeded` | roles/components/mysql_replicaset/files/mysql-replicaset.py:78-98 | The host option is set only when accounts and metadata agree and something is not at the desired host |
| `ReplicaSetRuns.AcceptedReadingHasOneWriter` | roles/components/mysql_replicaset/files/mysql-replicaset.py:278-281 | A run's last reading passes the final check if and only if it shows one writer |

## Left out

- SHA-256 is symbolic: two digests are equal exactly when the contents are.
- JSON text: documents are records of the fields that are read; a missing field or one of the wrong type is `None`.
- Temporary files: `mkstemp` files of atomic writes and of log copies are not entries of the modelled directories; replacing or linking is one step.
- Clocks: the time a run id stands for is a parameter of the backup listing; `started_at` and similar fields are not modelled.
- Failing zone checks, unreachable hosts and killed programs are a stop in front of an atomic step; files that `copytree` could not write in full hold any bytes; atomic replacements are one step.
- What the DNS role renders is one text for both servers; a run that differs from server to server is two renders.
- Subprocesses, systemd, locks, XtraBackup, mysqlbinlog, NSD's own zone parsing, file owners and modes.
- Paths with `.` or `..` as node or server identifiers in the repository; parent directories of a stored backup are not entries of the file map.
- Directories in the archive: a binary log named `manifests` is not distinguished from the manifest directory.
- `write_json_atomic`, `role_state`, lag checks, status files, free-space checks and the isolated restored server of the backup and restore programs.
- `RoleDnsRuns.MarkerIsTrusted`: assumes fewer than 2^32 serial advances since the marker was written, the bound of the ring itself.
- `RoleDnsRuns.InterruptedRunsAreRepaired`: fewer than 2^32 rounds in a row fail, since after a full turn of the ring an old marker looks like a new one; the servers start without a marker, as deployed.
- Configured records, addresses and host names are read as one line each, and a configured type as one word: a line break or a blank in them, which the filter does not check, is not followed into the lines of the zone file. Where the template's patterns match in front of a final line break, it is (`StaticNames.HostNamesAreExact`).
- Unicode: `\d`, `isdigit`, `lower` and the label pattern are modelled for ASCII.
- The text of trigger expressions: an expression is the sequence of its literal parts and `{functionid}` references, and the parsing of the text is not modelled.
- `BinlogRuns.RecoveryHasNoGap`: names have the server's form, a base name, a dot and at least six digits; the base has no slash.
- `StaticProperties.TemplateMatchesFilter`: names carry at most one trailing dot, as the filter strips all and the template one, and no line break; reverse zones end in `in-addr.arpa`, the other case being `StaticOwners.ReverseTemplateIsExact`.
- `StaticProperties.RenderedAreTheClaims`: compares whole records, and a PTR for a host name with several trailing dots has another target in the template than in the claim; for every such name the owners are compared in `StaticOwners.RenderedOwnersAreClaimed`.
- `RenderLimits.RendersAreExact`: is about the states that the histories of `RenderRuns.RendersKeepOneZone` stay in, with a record file on each server; texts with a line like the placeholder form are left out, as the bump filter misreads them.
- Malformed Python values (booleans for integers, non-strings, unknown keys) are excluded by the types.
- `RoleOwners.RoleRecordsAreTheReserved`: host names hold no blank and no line break, as DNS names do not; the program does not check this.
- `ReplicaSetRuns.ForcedFailoverIsSafe`: that no online PRIMARY exists needs non-empty expected names and endpoints, since the program takes an empty primary name for none.
- In the ReplicaSet manager the variables of all servers in one state reading are one exchange; lag, mode and instance errors are carried along by the program and not looked at.
- `network_stub_zones`, `unmanaged_icmp_macros` as a filter of its own, `mysql_systemd_properties`, the provisioning command, Proxmox, TLS, router and shared-database filters: single-pass code that would add only easy members.
