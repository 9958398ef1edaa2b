# Beacon, modelled and proved

Beacon serves boot images over the network: an admin uploads ISOs or adds entries
from a catalog, background runs extract what a client needs, and a boot menu offers
what is ready. This project models the parts of it that keep state across requests,
restarts and unreliable servers, and proves what they promise. Verify it with
`dafny verify dfyconfig.toml`; nothing here executes Beacon.

| files | what they model |
|---|---|
| `Store`, `Text`, `Decimal`, `Lists` | rows, files on the volumes, Python's string operations, and lists |
| `Lifecycle`, `LifecycleProofs`, `LifecycleTheorems`, `LifecycleLimits` | an image's upload, background runs, Delete, second Delete, Reprocess and restart, interleaved step by step |
| `ImageService`, `StartUp`, `BootFiles` | the image service's methods on its state, start-up reconciliation, and what must be on disk for an image to boot |
| `IsoLayout`, `LinuxBoot`, `Extracted`, `Extraction`, `FlaggedLayouts` | what a run reads off an ISO, writes and sets, next to what start-up asks for |
| `ReadyRuns` | the two halves together: a whole run as an execution of the lifecycle, and what "ready" is worth after it |
| `Download` | the resumable download |
| `Throttle`, `Lockout`, `SeenClients` | three small tables that stand for a whole history |
| `ZipExtract` | unpacking a driver archive |
| `CustomEntry`, `Releases`, `FreshNames` | custom catalog entries, release lists, and names nothing else has |
| `Versions`, `Offers` | ranking release tags, and what an update check offers and retracts |
| `ClientLog` | the recent clients, folded from a log whose transaction ids are used again |

Code that changes state step by step is a class or a method with a loop, proved
against a function; what the source promises is then proved about that function.
I/O, clocks, random names and the answers of outside tools are parameters that may
take any value, including failure.

Where the code falls short of what it seems to promise, the model keeps the code,
shows an input, and states exactly when the promise holds:

- A stopped run's image is removed when the run finishes, in every *orderly* execution
  (`LifecycleProofs.Orderly`: no row id or archive name is given out again while a
  started run still has it, no name is taken while an upload is still copying under it,
  and Reprocess is not pressed on a row whose stopped run is still there).
  `LifecycleLimits` shows what a reused id and such a Reprocess let through; archive
  names are random, so two alike are only ruled out.
- A restart before that removes the image only if the run has not committed over
  "deleting" since: a run that finishes its work after Delete, or whose handler had read
  the row before it, brings the image back; one that fails later does not
  (`LifecycleTheorems.DeleteOutlivesRestart`, `RestartRemovesIff`, `ReportAfterDelete`,
  `LifecycleLimits.RestartUndoesDelete`).
- A failed copy leaves the upload's file behind, an exception at the end of a stopped run
  what that run would have removed, and a restart the files of uploads, the .part file of
  a download and the files of a stopped run whose row is gone; nothing else does
  (`LifecycleTheorems.NoOrphans`, `TidyLeavesNothing`).
- A stopped run whose row a second Delete has removed takes the ISO of its name with it,
  although an upload may be copying under that name; two rows can then get one ISO
  (`LifecycleTheorems.UploadKeepsFile`, `IsoOwnersDistinct`,
  `LifecycleLimits.TwoRowsOneIso`).
- A row stays "processing" exactly when an exception in the run's handler, or at the end
  of a stopped run, is not handled (`LifecycleTheorems.RunEndsSettled`,
  `OnlyStuckRowsProcess`), and stays "deleting" when Delete came before the run had read
  its row or that end failed (`LifecycleLimits.FinishRemovesRowIff`,
  `DeleteBeforeReadSticks`, `FailedFinishSticks`).
- A duplicate task whose first read fails writes "error" over a ready row
  (`LifecycleTheorems.StaleTaskHarmless`).
- `archisobasedir` is joined to the image's folder as it is: with `../7` start-up asks
  for the files of image 7 (`StartUp.SettledIsStable`, `BasedirLedAstray`).
- An ISO with images/pxeboot/ but no images/install.img, or with a kernel that reads as
  empty, becomes ready, and the next start-up takes it out of the menu
  (`Extracted.LinuxBootable`, `FlaggedLayouts`).
- A custom entry whose kernel arguments say netboot=nfs becomes ready and is flagged
  by the next start-up (`Extracted.CatalogBootableIff`).
- A custom entry changes when it is opened in the form and saved, if a title is blank
  or has a line break of its own, or a member path starts with "./"
  (`CustomEntry.EditGivesBack`).
- A beta numbered 2^62 ties with its release (`Versions.RankAgrees`), and an offer can
  outlive the version it was made for (`Offers.SwitchedOfferSticks`).
- `free_entry_id` may try the same name twice (`FreshNames.RepeatsIff`).

## Model

| member | source | states |
|---|---|---|
| `LifecycleTheorems.DeleteWins` | web/app/services/images.py:1175-1203 | In every orderly execution from an empty server, when a run that claimed its row and was told to stop finishes, there is no row with its id, no file under os/, nfs/ or smb/ for it and its ISO is gone (or the name is another row's), whatever it wrote or committed after the Delete; every other row and its files are as they were before that step |
| `LifecycleTheorems.RunKeepsOthers` | web/app/services/images.py:1038-1205 | In every orderly execution no step of a run, from entering the run table to its last, changes a row of another image or a file that row owns |
| `LifecycleTheorems.FinishLeavesNothing` | web/app/services/images.py:1187-1203 | The last step alone leaves nothing in the same sense, from any state the invariant allows, whether or not a second Delete has removed the row meanwhile |
| `LifecycleTheorems.StopIsFinal` | web/app/services/images.py:1161-1172 | No event other than its own end, in success or failure, or a restart takes the stop flag, the claim, the id or the file name from a stopped run; what it may still write into the row is what ReportAfterDelete says |
| `LifecycleTheorems.ReportAfterDelete` | web/app/services/images.py:1166-1172 | In every execution without a restart: a stopped run writes error into its row after the Delete that stopped it only if its handler had read the row before that Delete, and then does not read it again |
| `LifecycleTheorems.HandledAfterDelete` | web/app/services/images.py:1161-1172 | So a stopped run whose exception comes after the Delete leaves the row deleting through whatever else happens until it ends, and a restart at any moment before removes it |
| `LifecycleLimits.RestartFinishesDelete` | web/app/services/images.py:1161-1172 | A legal execution from an empty server that ends Delete, exception, handler, restart: everything is gone again, so the two theorems before speak of something |
| `LifecycleTheorems.StoppedRunFinishes` | web/app/services/images.py:1157-1184 | From every reachable state in which a run is told to stop there is an orderly execution of at most eight steps of its own after which the image is gone |
| `LifecycleTheorems.StoppedRunIsBounded` | web/app/services/images.py:1157-1184 | In every execution without a restart, whatever else happens in between, a stopped run takes at most those steps besides its writing; every step but a write brings it nearer to its end |
| `LifecycleTheorems.SaysDeletingIff` | web/app/services/images.py:1348-1366 | In every execution a row says deleting exactly while the last word on it was a Delete: no run of the image has committed a status since |
| `LifecycleTheorems.RestartRemovesIff` | web/app/services/images.py:1309-1319 | In every execution a restart removes an image, its row, its folders and its ISO, exactly if the last word on it was a Delete |
| `LifecycleTheorems.DeleteOutlivesRestart` | web/app/services/images.py:1309-1319 | A stopped run cut off by a restart: its image is gone afterwards exactly if no run of it has committed since the last Delete, or a second Delete had removed the row before; then nothing of it is left |
| `LifecycleProofs.InvAlways` | web/app/services/images.py:1038-1205 | Run table, names, claims, statuses and ownership of files are an invariant of every orderly execution |
| `LifecycleProofs.InvStep` | web/app/services/images.py:1038-1205 | Each single event keeps that invariant |
| `LifecycleProofs.OneRunPerImage` | web/app/services/images.py:1040-1044 | In every execution, orderly or not, two different registered tasks have different images |
| `LifecycleTheorems.NoOrphans` | web/app/services/images.py:1369-1378 | In every orderly execution, with no run and no upload under way, a file on disk belongs to a row exactly unless it is one of the leavings of a failed copy, of an end of a stopped run that failed after its row had gone, or of a restart during an upload, a download or a stopped run that has outlived its row |
| `LifecycleTheorems.TidyLeavesNothing` | web/app/routers/images.py:194-225 | An orderly execution leaves no such files if no copy fails, the end of a stopped run fails only where its row is still there, and no restart finds an upload, a download or a stopped run that has outlived its row |
| `LifecycleTheorems.IsoOwnersDistinct` | web/app/routers/images.py:31-43 | Over every execution: rows and uploads always have file names of their own exactly if no name is taken while an upload is still copying under it; in that case no two rows own the same ISO |
| `LifecycleTheorems.TakenOnlyIfGone` | web/app/routers/images.py:203-207 | A name can be taken twice only when the file of an upload being copied has been removed meanwhile |
| `LifecycleTheorems.UploadKeepsFile` | web/app/services/images.py:1198-1203 | In an orderly execution an upload keeps its file until it ends, exactly unless the last step of a stopped run whose row is gone removes the ISO of that name |
| `LifecycleTheorems.RunEndsSettled` | web/app/services/images.py:1161-1175 | In every orderly execution a claimed run nobody deleted ends with its row ready, in error, queued again, or still processing, and the last exactly when an exception that nothing handles gave the row up |
| `LifecycleTheorems.OnlyStuckRowsProcess` | web/app/services/images.py:1161-1205 | With no run under way a row says processing exactly when an exception in the handler of a run, or at the end of a stopped one, gave it up and nothing has changed it since |
| `LifecycleTheorems.StaleTaskHarmless` | web/app/services/images.py:1040-1057 | Over every execution and with every event it can take, exceptions included, a task that has not claimed its row changes no row and no file of any row or upload, exactly unless its handler writes error to a row that is still there; then that status is all that changes |
| `LifecycleTheorems.BuildsBounded` | web/app/services/images.py:1050-1057 | Over every execution the number of builds of an image is at most the number of times its row was set to pending |
| `LifecycleTheorems.RestartSettles` | web/app/services/images.py:1295-1345 | After a restart in any state no task and no upload is left, no row waits for one, deleted rows are gone with their folders, and what is in the menu is bootable unless it looks into a folder that was removed |
| `LifecycleLimits.StoppedReachable` | web/app/routers/images.py:194-225 | The state the following counterexamples start from is reached from an empty server by legal events |
| `LifecycleLimits.StaleTaskSpoilsReady` | web/app/services/images.py:1161-1172 | An orderly execution from an empty server after which a queued duplicate of a finished run, whose first read of the database raises, sets a ready image to error |
| `LifecycleLimits.HandlerRaises` | web/app/services/images.py:1166-1172 | An orderly execution from an empty server that ends with no task and a row still processing: the handler's own database access fails |
| `LifecycleLimits.ReusedIdKeepsLeftovers` | web/app/services/images.py:1194-1197 | With a row id given out again under a stopping run, the run's leftovers stay in the new image's folder |
| `LifecycleLimits.ReprocessInGapOrphans` | web/app/services/images.py:1150-1153 | A Reprocess in the gap after a stopped run wrote ready ends with files on disk and no row or run that knows them |
| `LifecycleLimits.RestartAfterSecondDeleteOrphans` | web/app/services/images.py:1348-1366 | An orderly execution from an empty server: a restart while a run has outlived its row leaves a file that no row knows |
| `LifecycleLimits.RestartUndoesDelete` | web/app/services/images.py:1295-1345 | An orderly execution from an empty server: a run commits an error over deleting, then a restart, and the deleted image is back in error with no task |
| `LifecycleLimits.FinishRemovesRowIff` | web/app/services/images.py:1187-1196 | Over every orderly execution from an empty server: a finishing run whose row is there removes it exactly when it had claimed it |
| `LifecycleLimits.DeleteBeforeReadSticks` | web/app/services/images.py:1050-1053 | An orderly execution from an empty server that ends with no task and a row that stays deleting: Delete came after the run entered the run table and before it read its row |
| `LifecycleLimits.FailedFinishSticks` | web/app/services/images.py:1187-1205 | An orderly execution from an empty server: an exception at the end of a stopped run leaves a row that says deleting, and no task |
| `LifecycleLimits.FailedUploadOrphans` | web/app/routers/images.py:206-221 | An orderly execution from an empty server of one upload whose copy fails: its ISO is left, and no row knows it |
| `LifecycleLimits.UploadLosesItsFile` | web/app/services/images.py:1198-1203 | From the stopped run: a second Delete, an upload under the name that has become free, and the end of the run, which removes the upload's file while it is being copied |
| `LifecycleLimits.TwoRowsOneIso` | web/app/routers/images.py:203-221 | From there: a second upload of that name, and both end with rows of the same file name |
| `LifecycleLimits.RestartLeavesPart` | web/app/services/netboot.py:1026-1034 | An orderly execution from an empty server: a restart during a catalog download and a Delete of the image leave the archive's .part file with no row at all |
| `LifecycleLimits.SecondDeleteRemoves` | web/app/services/images.py:1348-1366 | A Delete with no run registered, or a second one, removes the row and all it owns at once, and nothing else |
| `ImageService.Service.DeleteImage` | web/app/services/images.py:1348-1366 | The stateful delete is the lifecycle's Delete event; it answers whether the row is gone |
| `ImageService.Service.FinishDelete` | web/app/services/images.py:1187-1203 | The stateful finish is the lifecycle's FinishDelete event |
| `ImageService.Service.Retry` | web/app/routers/images.py:452-465 | Reprocess on one row is the lifecycle's Reprocess event, refused when the row is busy or gone |
| `ImageService.Service.BeginUpload` | web/app/routers/images.py:203-207 | The first part of an upload takes a name that no file on disk and no row has, and is the lifecycle's event for it |
| `ImageService.Service.EndUpload` | web/app/routers/images.py:212-224 | The second part inserts the row and queues its task, as the lifecycle's event does |
| `ImageService.Service.BulkReprocess` | web/app/routers/images.py:491-498 | One commit for all ticked rows and then one task each comes to the same as Reprocess on each idle row in turn; duplicates and missing ids are dropped, and the rows queued and skipped are all the ticked ones there are |
| `ImageService.Service.BulkDelete` | web/app/routers/images.py:491-508 | Delete on the ticked rows in turn, each once; the count is exactly the rows that are left to their runs |
| `ImageService.ReprocessAllIs` | web/app/routers/images.py:493-498 | Queueing rows one after another equals marking all of them first and adding the tasks after |
| `ImageService.Service.ReconcileStatuses` | web/app/services/images.py:1295-1345 | Whatever the order of the rows, the start-up loop leaves exactly the settled rows and files and counts those it changed or removed; only rows that look into the folder of an image removed in the same loop can depend on the order, and those are flagged if they come later |
| `ImageService.SettleOne` | web/app/services/images.py:1309-1345 | Settling one more row moves rows, files and count from one half-done start-up to the next, in any order |
| `StartUp.SettledIsSound` | web/app/services/images.py:1309-1345 | After start-up every row is ready, in error or needs reprocessing, the last for every pending or processing one; a ready row stays ready exactly when its required files exist; others are unchanged; what the menu lists has its files exactly unless it looks into a folder that was removed |
| `StartUp.SettledIsStable` | web/app/services/images.py:1295-1345 | A second start-up has nothing to change or count exactly when no image that stays ready looks into a folder the first one removed |
| `StartUp.BasedirLedAstray` | web/app/services/images.py:1267-1269 | With archisobasedir=../7 an image passes the check in the start-up that removes image 7 and is flagged by the next one |
| `StartUp.SettledKeepsFiles` | web/app/services/images.py:1310-1319 | Start-up keeps every file of a row that stays; its ISO is lost exactly when a deleted row has the same file name |
| `BootFiles.BootableFrame` | web/app/services/images.py:1221-1270 | Whether an image passes the start-up check depends on the files under its own id only, and on those where an archisobasedir of its arguments leads out of its folder |
| `BootFiles.RequiredBelowOwnId` | web/app/services/images.py:1221-1270 | Every required path lies under the image's own id, but for the one an archisobasedir names outside its folder, which is always among them |
| `BootFiles.BasedirToOther` | web/app/services/images.py:1267-1269 | An archisobasedir of one step up and a folder named like an image asks for what is below that image's folder |
| `BootFiles.BasedirFromOther` | web/app/services/images.py:1267-1269 | And only such a text asks for a file of another image |
| `BootFiles.ReleaseHasItsOwn` | web/app/services/netboot.py:101-112 | Arguments and extra files of a release replace the entry's, each where the release has its own, and nothing else changes |
| `Store.IsoNameIsLast` | web/app/services/images.py:82-89 | Whatever folders a stored file name has before it, its last component is the ISO's name |
| `Extraction.Run.ProcessImage` | web/app/services/images.py:1055-1153 | A listing with boot/xen.gz and a top-level install.img is taken for XCP-ng, any other with sources/boot.wim, sources/install.wim or a top-level bootmgr for Windows, the rest for Linux, letter case aside; a run ends ready exactly when the listing, the tools and every file its family needs are there, and in error otherwise; it touches only its own files and archive; one that ends ready passes the start-up check exactly when the files it boots from have content: for an ISO kernel and initrd, images/install.img if its installer is booted, squashfs.img if rd.live.image is said, the four WinPE files, or the XCP-ng files; for a catalog image what NetbootVerdict names |
| `Extraction.Run.ProcessLinux` | web/app/services/images.py:1095-1153 | Ready exactly when a kernel and an initrd are found and readable and what the plan asks for can be unpacked or read; boot arguments are then the plan's, and the image is bootable exactly when kernel and initrd have content, images/install.img is there with content if it is asked for, and squashfs.img has content if rd.live.image is said |
| `Extraction.Run.ProcessWindows` | web/app/services/images.py:745-787 | Ready exactly when all four WinPE files are found and readable and the tree and the patch succeed; then bootable exactly when all four have content |
| `Extraction.Run.ProcessXcpng` | web/app/services/images.py:334-361 | Ready exactly when hypervisor, kernel and installer can be read and the GRUB image is built; then bootable exactly when all four have content |
| `Extraction.Run.ProcessNetboot` | web/app/services/images.py:881-960 | Ready exactly when the entry exists and its archive and files can be had; a Linux one then passes the start-up check exactly when kernel, initrd and all that its arguments and its entry demand, extra files included, were fetched with content or unpacked; an archive stays and a live ISO goes |
| `Extraction.Run.FinishXcpng` | web/app/services/images.py:963-986 | Ready exactly when initrd and compressed hypervisor were fetched, unpack and the GRUB image is built; then bootable exactly when each of the four files has content |
| `Extraction.Run.FetchAll` | web/app/services/netboot.py:1564-1589 | Every named file was fetched with content, or the run stops |
| `Extraction.Run.ExtractTree` | web/app/services/images.py:221-229 | The unpacked tree is the ISO's tree under the image's id and nothing else changes |
| `Extracted.PlanConsistent` | web/app/services/images.py:790-864 | For every listing, what the guessed boot arguments ask for is what the plan unpacks or extracts |
| `Extracted.LinuxBootable` | web/app/services/images.py:1221-1270 | With the files of the plan extracted, whatever else the ISO holds, an image is bootable exactly under the condition on sizes that ProcessLinux states |
| `Extracted.WindowsBootable` | web/app/services/images.py:1221-1270 | With the four WinPE files extracted, a Windows image is bootable exactly when each has content |
| `Extracted.InstallImgUnpacked` | web/app/services/images.py:1257-1264 | The unpacked ISO has images/install.img with content, or a folder of that name with something in it, exactly when the ISO does; the last file listed for a place is the one that counts |
| `Extracted.BootsInstallerIff` | web/app/services/images.py:817-830 | The installer plan is chosen exactly for listings with images/pxeboot/ and none of the NFS live layouts before it |
| `Extracted.UnpackHolds` | web/app/services/images.py:221-229 | The unpacked tree holds every file of the ISO below its folder, with the size of the last one listed for its place, and changes no other file |
| `Extracted.CatalogBootableIff` | web/app/services/images.py:1221-1270 | A Linux catalog image passes the start-up check exactly when its kernel and initrd have content, the root is unpacked if netboot=nfs is said, and every file demanded by its entry, variant, release and archisobasedir is there with content or has files below it |
| `Extracted.LiveIsServed` | web/app/services/images.py:993-1035 | A well-formed built-in live desktop whose files were fetched is served all it demands, over HTTP or NFS and with whatever extra members, empty ones too |
| `FlaggedLayouts.TakenAndFlagged` | web/app/services/images.py:1221-1270 | Any ISO taken for Linux that has a pxeboot kernel without the installer's image, or an empty kernel or initrd, ends ready, not bootable, and is flagged by the next start-up |
| `IsoLayout.AirootfsBelowBasedir` | web/app/services/images.py:854-863 | Whatever airootfs path the pattern finds, it lies below the folder that archisobasedir is set to |
| `IsoLayout.FitsBelow` | web/app/services/images.py:130-136 | A path that fits a pattern of a folder, anything and a name lies below that folder |
| `IsoLayout.DetectsFamily` | web/app/services/images.py:247-268 | The detected family is the one the paths of the listing show, each path read without the dots and slashes before it, the slashes after it and its letter case |
| `FlaggedLayouts.XcpngListing` | web/app/services/images.py:256-259 | A listing with the hypervisor, a kernel and the installer is XCP-ng |
| `FlaggedLayouts.WindowsListing` | web/app/services/images.py:260-267 | A listing in capitals with BOOTMGR at the top is Windows |
| `FlaggedLayouts.UbuntuListing` | web/app/services/images.py:253-254 | A package path that ends in bootmgr does not make a casper ISO Windows |
| `LinuxBoot.FitsByPieces` | web/app/services/images.py:53-82 | A path fits a pattern exactly if it splits into pieces, each of which fits its part of the pattern on its own: a word in either case, one character, anything, or one folder name |
| `LinuxBoot.ListedIsLast` | web/app/services/images.py:1029-1033 | Of several members an ISO lists under one name the last one counts |
| `LinuxBoot.MatchIsFirst` | web/app/services/images.py:130-136 | What is found is the first entry of the listing that fits the first pattern any entry fits |
| `LinuxBoot.CasperComesFirst` | web/app/services/images.py:53-54 | A casper kernel is taken wherever it is listed and whatever other kernels are |
| `LinuxBoot.PairedByVersion` | web/app/services/images.py:139-162 | A kernel with a version gets an initramfs of that version, in any folder and letter case, whenever the ISO has one, and else the one that was found |
| `LinuxBoot.PlanSays` | web/app/services/images.py:790-864 | The boot arguments ask for casper, live, a repository, a stage 2, a live image or archiso exactly when the listing looks like it: each only without those before it |
| `LinuxBoot.WindowsMemberIs` | web/app/services/images.py:368-373 | Each of the four WinPE files is looked for under its own path on the ISO, in either case |
| `FlaggedLayouts.FedoraLiveFlagged` | web/app/services/images.py:824-837 | An old Fedora live ISO is such an ISO: it has images/pxeboot/ and LiveOS/ and no images/install.img |
| `FlaggedLayouts.EmptyKernelFlagged` | web/app/services/images.py:1007-1013 | So is an ISO whose casper/vmlinuz reads as empty because its versioned hard link holds the data |
| `ReadyRuns.RunImage` | web/app/services/images.py:1055-1153 | Taken step by step, a run from its claim to its commit, with the archive a catalog image downloads and a live one removes, is an orderly execution of the lifecycle; its commit says ready exactly when all it needed was there, and leaves the row bootable exactly when what it boots from has content |
| `ReadyRuns.Writes` | web/app/services/images.py:1095-1153 | Any change of the files a run may touch is reached by finitely many single writes and removals |
| `ReadyRuns.StaysBootable` | web/app/services/images.py:1038-1205 | In every orderly execution, restarts included, a ready and bootable image no task is about stays in the menu, unchanged and bootable, until Delete or Reprocess is pressed on it |
| `Download.Folder.Download` | web/app/services/netboot.py:1014-1079 | Against any server: the destination is touched only when the download is done, and then within the cap; the part file is always gone; one to four requests, the first for the whole file, each but the last cut short; never more than the cap in the part file. Against one whose headers announce the file's size as RFC 9110 writes them, and whose bodies are slices that may end early, Done means the destination is the whole remote file; so it does against any honest one, where too big and a full disk mean that the file is, and no request starts beyond its end |
| `Download.Folder.Attempt` | web/app/services/netboot.py:1035-1057 | Against any reply an attempt keeps the cap and is repeated only after an interruption; against an honest one it either completes the file or leaves a part file that is the first size bytes of the remote file, over stalls, early ends, ignored ranges, wrong and missing offsets; when such a reply counts as interrupted is what InterruptedIff says |
| `Download.Folder.Stream` | web/app/services/netboot.py:1046-1053 | The inner loop appends exactly the body, in order, or stops at the stop flag, the size cap or a full disk |
| `Download.TrueSlice` | web/app/services/netboot.py:1037-1045 | What the client keeps before reading a body is where an honest reply's body starts |
| `Download.ContentRangeRead` | web/app/services/netboot.py:1082-1095 | A Content-Range header as section 14.4 of RFC 9110 writes it gives back its first byte and its total |
| `Download.ContentLengthRead` | web/app/services/netboot.py:1094-1095 | A Content-Length of decimal digits announces that number; one with anything else in it, or none, announces nothing |
| `Download.StandardIsHonest` | web/app/services/netboot.py:1082-1095 | A server whose headers are section 8.6's and section 14.4's of RFC 9110 for the file, and whose bodies are slices that may end early, is an honest one; no announced size is taken on trust |
| `Download.InterruptedIff` | web/app/services/netboot.py:1035-1057 | Against such a server an attempt is an interruption exactly when the body breaks off, ends before the end of the file, or starts where nothing is kept for it |
| `Throttle.Table.Allow` | web/app/services/ratelimit.py:79-94 | Yes exactly when fewer than limit of all events ever accepted for the key are less than a window old, although the table is pruned and swept |
| `Throttle.Table.Sweep` | web/app/services/ratelimit.py:90-93 | The clean-up drops exactly the keys with no recent event, and changes no answer |
| `Throttle.SpanBounded` | web/app/services/ratelimit.py:79-94 | No half-open span of one window ever holds more than limit accepted events |
| `Throttle.AcceptedSpread` | web/app/services/ratelimit.py:83-87 | Among limit + 1 accepted events in a row, the first is at least a window before the last |
| `Throttle.RecentOfPruned` | web/app/services/ratelimit.py:83-88 | A pruned list has the same recent events as the full history |
| `Lockout.AtMostFiveChecked` | web/app/services/ratelimit.py:45-60 | On one key, at most five wrong attempts are checked in any span shorter than 300 s |
| `Lockout.FifthFailureBlocks` | web/app/services/ratelimit.py:57-59 | After a fifth failure in a chain of gaps below 300 s the next check is at least 900 s later |
| `Lockout.FullChainLocks` | web/app/routers/auth.py:43-50 | While the lockout lasts even the right password is refused, and nothing is recorded |
| `Lockout.WaitingEndsLockout` | web/app/services/ratelimit.py:30-42 | Waiting the seconds that were answered always ends the lockout |
| `Lockout.WaitIsTight` | web/app/services/ratelimit.py:36-37 | The answer is never more than a second longer than the lockout |
| `Lockout.RightStartsAfresh` | web/app/routers/auth.py:37-57 | Over runs of right and wrong attempts: those that follow a right one are answered as if they were the first on the key |
| `Lockout.LockoutIsEarned` | web/app/routers/auth.py:37-57 | An attempt is made to wait only if at least five wrong ones were checked since the last right one |
| `Lockout.LockEnds` | web/app/services/ratelimit.py:39-44 | Once 900 s have passed since the last checked failure the next attempt is checked: right if it is, wrong if not |
| `Lockout.Lockouts.LoginSubmit` | web/app/routers/auth.py:37-57 | A wait refuses before the password is looked at and changes nothing, a wrong one counts, and after a right one the key has no row; no other key changes |
| `Lockout.Lockouts.TotpSubmit` | web/app/routers/auth.py:94-110 | The second factor makes the same calls under the account's own key, and a right code clears that key |
| `Lockout.Lockouts.RecordFailure` | web/app/services/ratelimit.py:45-60 | A failure outside the window starts the count again; the fifth locks the key and clears the count |
| `SeenClients.Table.TrackMenu` | web/app/routers/track.py:61-94 | The table is exactly the least-recently-used cache of every load ever recorded: the most recent clients up to the cap, each with its latest address and time; a throttled or malformed load changes nothing |
| `SeenClients.OldestIsLast` | web/app/routers/track.py:82-86 | The row with the smallest time is the client that recency puts last |
| `SeenClients.KeptNew` | web/app/routers/track.py:82-87 | A new client pushes out only the one at the end of a full table |
| `SeenClients.RecencyOrder` | web/app/routers/track.py:77-87 | In order of recency, times strictly fall |
| `SeenClients.LruSize` | web/app/routers/track.py:82-87 | The table never has more rows than the cap |
| `ZipExtract.Pack.ExtractZip` | web/app/services/drivers.py:156-207 | Into a new folder: too many, too big, climbing out, conflict and nothing usable are reported in that order; a conflict exactly when a non-empty entry stands where another needs a folder; otherwise the tree is exactly the files and the folders above them, the last duplicate winning |
| `ZipExtract.Pack.WriteAll` | web/app/services/drivers.py:185-204 | The writing loop fails exactly on such a conflict, wherever it occurs in the archive, and counts the files that are no folder markers; otherwise the tree is the unpacked one |
| `ZipExtract.Pack.ExtractSubset` | web/app/services/drivers.py:333-376 | The same for the part of an archive a catalog pack names, with the limits applied to that part only; a conflict is left as an OSError |
| `ZipExtract.CaseMakesNoDifference` | web/app/services/drivers.py:349-356 | Recasing the paths of an archive does not change which members are taken |
| `ZipExtract.FolderTakes` | web/app/services/drivers.py:343-356 | A named folder takes exactly the members whose path starts with its components, letter case aside |
| `ZipExtract.Pack.Upload` | web/app/routers/drivers.py:93-127 | A refused upload leaves no folder behind, and an existing pack is not touched |
| `ZipExtract.MemberParts` | web/app/services/drivers.py:76-97 | A name is refused exactly when a cleaned component is ".."; else its components are the cleaned ones, each safe in a path |
| `ZipExtract.CleanPathIsStable` | web/app/services/drivers.py:88-97 | A cleaned path written out again is read back unchanged |
| `ZipExtract.StaysUnder` | web/app/services/drivers.py:60-73 | A path without ".." resolves below the folder it is joined to, so the guard never trips |
| `ZipExtract.ConsistentIffNoClash` | web/app/services/drivers.py:188-203 | After dropping zero-byte folder markers, no path is both file and folder exactly when no non-empty entry is a proper prefix of another |
| `ZipExtract.RealSameFolders` | web/app/services/drivers.py:179-187 | Dropping the markers loses no folder |
| `ZipExtract.OrderDoesNotMatter` | web/app/services/drivers.py:188-204 | With one entry a path, archives with the same entries in any order give the same tree |
| `CustomEntry.EditGivesBack` | web/app/routers/images.py:71-98 | Turning a stored entry into the form and back gives the same entry, its default release first, exactly when every release title is the automatic one or one non-blank line and no member path starts with "./"; for line feeds and for the carriage returns a browser sends |
| `CustomEntry.EditCanLose` | web/app/routers/images.py:71-98 | Three stored entries that do not come back: a blank title, a title with a Unicode line separator, a member path that starts with "./" |
| `CustomEntry.ValidatedIsStored` | web/app/services/netboot.py:1316-1379 | Whatever is handed in, an entry that passes the check is in stored form: stripped one-line fields in their limits, distinct releases, exactly one default, templates that fill in |
| `CustomEntry.ReleasesComeBack` | web/app/services/netboot.py:1382-1401 | The lines of a faithful entry give back its releases with number, eol and pre-release mark |
| `CustomEntry.OrderedPermutes` | web/app/services/netboot.py:1394-1401 | Putting the default first permutes the releases |
| `CustomEntry.EntryReleases` | web/app/services/netboot.py:1258-1313 | The checking loop reports the first problem of the first bad release, and sets exactly one default |
| `CustomEntry.ParseReleases` | web/app/services/netboot.py:1382-1391 | The parsing loop reads one release a line and skips lines that name none |
| `CustomEntry.FormToEntry` | web/app/routers/images.py:79-98 | The form is checked after the fields it has no box for are taken over by release id |
| `CustomEntry.MirrorIsStored` | web/app/services/netboot.py:733-746 | A mirror that passes is stored without surrounding space or trailing slash, and passes again as it is |
| `CustomEntry.MirrorPattern` | web/app/services/netboot.py:733-746 | A mirror that passes starts with http:// or https:// and a host and has none but the allowed characters from there on |
| `CustomEntry.IdPattern` | web/app/services/netboot.py:1203 | An ID is what the ID expression fits, character by character |
| `CustomEntry.ReleasePattern` | web/app/services/netboot.py:45 | A release is what its expression fits |
| `CustomEntry.NumberPattern` | web/app/services/netboot.py:1205 | A version number is what its expression fits |
| `CustomEntry.OneSource` | web/app/services/netboot.py:1338-1363 | A checked entry boots from an archive or from two URLs, never from both or from one alone |
| `CustomEntry.SourceRefused` | web/app/services/netboot.py:1338-1363 | Fields within their limits are refused for their source exactly when an archive comes with a URL, or no archive and not both URLs are given |
| `CustomEntry.DefaultsSettled` | web/app/services/netboot.py:1303-1313 | One mark is kept as it is, without one the first release gets it, and more than one are refused |
| `CustomEntry.IdFor` | web/app/services/netboot.py:1211-1213 | The ID made from any name is a valid ID |
| `CustomEntry.IdForJoins` | web/app/services/netboot.py:1211-1213 | That ID has no two dashes in a row |
| `CustomEntry.IdForStays` | web/app/services/netboot.py:1211-1213 | A name that is such an ID, and does not end in a dash, is its own ID |
| `Releases.MergedIds` | web/app/services/netboot.py:434-454 | The rebuilt list is the finds in their order, then the catalog's others in theirs |
| `Releases.MergedDefault` | web/app/services/netboot.py:424-451 | The first default is the chosen release, and there is one more default for every dropped catalog release that carries the mark |
| `Releases.MergedTwice` | web/app/services/netboot.py:434-454 | Rebuilding a list again from the same distinct finds changes nothing |
| `Releases.StableIsFound` | web/app/services/netboot.py:426-432 | There is a default among the finds exactly when one of them is released |
| `Releases.NewestIsNewest` | web/app/services/netboot.py:426-432 | The chosen find is the newest one that is released and preferred |
| `Releases.WithDiscovered` | web/app/services/netboot.py:416-461 | Both lists of an entry are rebuilt, each with its own way of listing a new release |
| `Releases.DiscoveredTwice` | web/app/services/netboot.py:416-461 | The whole entry is unchanged when it is rebuilt again |
| `Releases.Superseded` | web/app/services/netboot.py:658-669 | The loop answers whether some released version of the same major release is at least the wanted one, over its length |
| `Releases.NumberRead` | web/app/services/netboot.py:969-974 | A number in a version is read whole, as far as its digits go |
| `Releases.ArchSkipped` | web/app/services/netboot.py:973 | The name of an architecture is cut out wherever it stands |
| `Releases.OvertakesOlder` | web/app/services/netboot.py:658-669 | A release that makes a pre-release obsolete makes the older ones of that major release obsolete too |
| `Releases.OvertakenByItself` | web/app/services/netboot.py:658-669 | A pre-release is obsolete once its version or a point release of it is out |
| `Releases.OnTopTwice` | web/app/services/netboot.py:672-689 | Putting pre-releases on top again adds nothing |
| `Releases.OnTopKeepsDefault` | web/app/services/netboot.py:684-688 | The list below and its first default stay as they are |
| `Releases.OnTopDistinct` | web/app/services/netboot.py:684-688 | No id is listed twice if none was and the finds are distinct |
| `Releases.WithPrereleases` | web/app/services/netboot.py:672-689 | The installer's list gets them, and the live one unless pre-releases have none |
| `Releases.PageDefault` | web/app/services/netboot.py:524-544 | After both steps the page's first default is still the newest or preferred released find |
| `Versions.RankAgrees` | web/app/services/updates.py:121-140 | On release and numbered beta tags the rank orders as section 11 of Semantic Versioning 2.0.0, both ways, exactly unless a beta numbered 2^62 or more meets the release of its version |
| `Versions.HighBetaTies` | web/app/services/updates.py:122-140 | Beta 2^62 precedes its release by the standard and ties with it by rank |
| `Versions.CandidateBelowBeta` | web/app/services/updates.py:137-140 | A release candidate follows the betas by the standard and ranks below them |
| `Versions.ReadPrinted` | web/app/services/updates.py:130-136 | A printed tag reads back as its version: a leading v, build metadata and surrounding space make no difference |
| `Versions.LabelRank` | web/app/services/updates.py:166-176 | The stored name of a release, without its v, has the tag's rank |
| `Versions.Newest` | web/app/services/updates.py:166-176 | The loop returns a published release with the highest rank in the list, and nothing exactly when none can be read |
| `Versions.NewestIsUnique` | web/app/services/updates.py:166-176 | Lists of the same releases in any order give the same rank |
| `Offers.StoredVersionIsTheOffer` | web/app/services/updates.py:357-379 | Over any history of checks, failed checks, page loads, restarts and updates a stored version reads as the rank last offered and leaves no digest that could retract it |
| `Offers.RetractedIffReached` | web/app/services/updates.py:451-460 | While no update is in progress an offer by version is taken back exactly when the running rank reaches it |
| `Offers.OnlyChecksOffer` | web/app/services/updates.py:431-469 | Nothing but a check raises the flag |
| `Offers.RefreshedTwice` | web/app/services/updates.py:431-469 | A page load never raises the flag and a second one changes nothing |
| `Offers.RetractableIff` | web/app/services/updates.py:445-469 | Some answer of docker lets a page load retract an offer exactly when a digest is remembered or the version is reached |
| `Offers.SwitchedOfferSticks` | web/app/services/updates.py:384-390 | Betas switched off after a beta was offered, then a check without an answer: the flag stays up without a version and no page load can take it down |
| `Offers.SwitchedOfferSticksHere` | web/app/services/updates.py:384-390 | The same with the tags Beacon reads |
| `Offers.Updates.CheckForUpdates` | web/app/services/updates.py:348-428 | A check by version offers exactly when the newest release is above the running build and stores its name; one by digest with docker's answer offers exactly when the tag's digest is not deployed, and a deployed one becomes the baseline; without docker it offers exactly when a real baseline differs, and a first sight or a channel switch records one; without an answer it keeps what was recorded but for the version; all of it moves the settings table as the step of the histories above does |
| `Offers.CheckSays` | web/app/services/updates.py:348-428 | The step of the histories says the same of every check |
| `Offers.LoadKeepsVerdict` | web/app/services/updates.py:395-412 | A page load with the same docker answer never changes what a check by digest has just said |
| `Offers.LoadKeepsOffer` | web/app/services/updates.py:357-379 | Nor does any page load change what a check by version has just said |
| `Offers.RetractedStays` | web/app/services/updates.py:461-469 | An offer that a page load took back because its digest is deployed is not made again by a check that sees the same digest without docker |
| `Offers.Updates.CheckReleases` | web/app/services/updates.py:348-379 | A check from GitHub's list on is that step with the newest published release of the list |
| `Offers.Updates.RefreshAvailable` | web/app/services/updates.py:431-469 | A page load's retraction is the step of the histories above |
| `Offers.Updates.Status` | web/app/routers/updates.py:20-33 | With no update in progress a version on show is always above a ranked running build; a page load never raises an offer, and ends an update that has stalled |
| `Offers.Updates.FinishPendingUpdate` | web/app/services/updates.py:521-541 | A restart is that step too: in the middle of an update it clears the flag and the mark and nothing else |
| `Offers.Updates.SetBeta` | web/app/routers/updates.py:53-62 | The beta switch is that step; it is refused while an update is in progress, and the check after it is a step of its own |
| `Offers.Updates.StartUpdate` | web/app/routers/updates.py:79-86 | An update starts by that step unless one is in progress |
| `Offers.Updates.EndUpdate` | web/app/services/updates.py:575-700 | An update that leaves the container in place ends by that step, whatever its outcome |
| `ClientLog.ReadLog` | web/app/services/clients.py:94-144 | The one table of open requests, flushed when an id rolls over, finishes exactly the requests that each transaction id's own lines make up, although ids are used again |
| `ClientLog.Recent` | web/app/services/clients.py:94-192 | The returned rows are distinct clients, sorted newest first, and no client left out was seen later than one that is shown |
| `ClientLog.ClientsAreTheNamed` | web/app/services/clients.py:101-181 | Before truncation there is an entry for a client exactly if a line with an id names it or a dated boot event does |
| `ClientLog.LastSeenIsLatest` | web/app/services/clients.py:146-181 | A client's last-seen is the maximum over its requests and boot events |
| `ClientLog.NoLineIsLater` | web/app/services/clients.py:101-181 | In a log in order of time a client is never shown as last seen before a line that names it |
| `ClientLog.LineIsCovered` | web/app/services/clients.py:101-144 | Every line that names a client belongs to a request of that client |
| `ClientLog.NothingIsLost` | web/app/services/clients.py:153-181 | An address, host name or firmware that any request or event gives is not left blank |
| `ClientLog.ShownComesFrom` | web/app/services/clients.py:146-181 | A shown address, host name or firmware is the one of the sighting that decides it: the last at or after every time so far that gives it, with only older or blank ones since |
| `ClientLog.LastWordShown` | web/app/services/clients.py:146-181 | Where sightings come in order of time, that is the last one that is not blank |
| `ClientLog.SaidByOwnLine` | web/app/services/clients.py:101-144 | Whatever an open request says was said by a line of its own transaction |
| `ClientLog.LastLineDecides` | web/app/services/clients.py:101-144 | And by the last such line that says anything of it |
| `ClientLog.FoldRequests` | web/app/services/clients.py:146-162 | The per-client loop over requests builds what all sightings of each client add up to |
| `ClientLog.FoldEvents` | web/app/services/clients.py:164-181 | So does the loop over boot events that follows it |
| `FreshNames.UnusedFilename` | web/app/routers/images.py:31-43 | The search stops after at most one try more than names are taken, at the first candidate that is free |
| `FreshNames.IsoCandidatesDiffer` | web/app/routers/images.py:37-42 | Candidates with different numbers are different names |
| `FreshNames.FreeEntryId` | web/app/services/netboot.py:1437-1445 | The search stops after at most two tries more than IDs are taken, and needs the second only if a try came out as the base again |
| `FreshNames.RepeatsIff` | web/app/services/netboot.py:1442-1444 | A numbered try equals the base exactly when the base has 32 characters and ends like it |
| `FreshNames.TwoTriesMore` | web/app/services/netboot.py:1442-1444 | A base of 32 characters that ends in -2 is tried twice |
| `FreshNames.CandidateIsId` | web/app/services/netboot.py:1442-1444 | A candidate made from a valid ID is a valid ID of at most 32 characters |

## Left out

- LifecycleTheorems.DeleteWins: needs the orderly executions named above, and treats one `delete_image` call as one step. A run cut off by a restart is the subject of `DeleteOutlivesRestart`; one whose end raises leaves its row, as `FailedFinishSticks` shows.
- LifecycleTheorems.NoOrphans: an upload's file has its whole size from the moment it is opened; how much of it a failed copy wrote is not modelled. That `_safe_filename` makes a plain name is a hypothesis.
- LifecycleTheorems.StoppedRunFinishes: gives one schedule; that the server gives the run its turn is assumed, and `StoppedRunIsBounded` bounds every other schedule but for the number of single writes.
- LifecycleTheorems.RunEndsSettled: allows "pending" as well, since Reprocess may queue the row again between the run's commit and its end.
- LifecycleTheorems.RestartSettles: judges every row before any is removed. A row that looks into the folder of one removed before it is flagged at once by the code, as `ImageService.Service.ReconcileStatuses` says, and one start-up later by this event.
- BootFiles.BootableFrame: an `archisobasedir` that leads out of the own folder is followed only one step up, to the folder of another image; anywhere else is one place nothing in the model writes to. `Extracted.CatalogBootableIff` and `NetbootVerdict` judge arguments that stay in the own folder (`BootFiles.OwnArgs`), and `ReadyRuns.StaysBootable` images that look nowhere else.
- Extraction.Run.ProcessImage: says what is bootable right after the run; patching boot.wim is taken to leave it a file with content, and a folder that is picked like a file is taken for one that cannot be read.
- Extraction.Run.ProcessNetboot: arguments that lead out of the image's folder are not judged; where the names an entry fetches are files and folders at once, which no file system has, the verdict counts the files below.
- Download.Folder.Download: only the last claim, about the content, rests on an honest server: bodies are true slices of one fixed file, 206 only answers a range request (section 15.3.7 of RFC 9110), announced sizes are right, and a body without one ends only at the end of the file. A server that sends the standard's Content-Length or Content-Range is one (`Download.StandardIsHonest`), wherever its bodies end. Failures of `part.replace` are not modelled.
- Throttle.Table.Allow: one window length per table and a clock that does not run backwards; keys used with different windows are not modelled.
- Lockout.AtMostFiveChecked: attempts on one key come one after another with no right one between them (after one they count afresh, `Lockout.RightStartsAfresh`), on a clock that does not run backwards; times are reals, not floating-point numbers.
- SeenClients.Table.TrackMenu: menu loads have strictly increasing times and no database error; the choice between rows of equal time is left open. Which header the address comes from, and the clean-up of the MAC before it is looked at, are not modelled.
- ZipExtract.Pack.ExtractZip: the folder starts empty and the file system accepts every cleaned name; the tree left behind by a refused archive is not described, since the caller removes it.
- ZipExtract.Pack.ExtractSubset: lower-casing is modelled for ASCII letters; what an OSError leaves behind is not described.
- CustomEntry.EditGivesBack: placeholders, filled-in URLs and the ISO date check are parameters (`Rules`); values of other JSON types, unknown fields and the texts of messages are left out, as is a form for an entry that has been removed meanwhile.
- Releases.MergedDefault: "exactly one default" is false of the code when a dropped catalog release keeps its mark; the number of defaults is given instead.
- Versions.Newest: a response that is no list of releases counts as no answer; numbers of more than 4300 digits, which Python refuses, are read.
- Offers.StoredVersionIsTheOffer: how a tag is read is a parameter there, `Versions.Parse` in the class; run_update and reap_stalled_update enter only as an update that starts, ends or has run out of time.
- ClientLog.Recent: log lines come as what the patterns find in them; the order of rows last seen at the same time, and which of several equally recent requests names the address, are left open. "The newest non-blank address wins" is false of the code and not claimed.
- FreshNames.CandidateIsId: holds for numbers of at most 30 digits; a longer number would need more than 10^30 IDs in use.
- The direct removal in `delete_image` outside its lock, at a finer grain than one step per Delete.
- ISO members with ".." in their path, and folders other than through the files below them: an empty folder is not modelled.
- What an archive's own files say (values read from it for the kernel arguments) and the release check inside it.
- Symbolic links in an unpacked ISO (`_drop_escaping_links`), the content of generated scripts and GRUB images, and re-rendering of the boot menu between start-ups.
- Regular expressions other than the path, header and tag patterns; letter case beyond ASCII.
- `_install_tree`, CAB unpacking, pack fetching and the driver listing: the same guards over a tree another tool wrote.
- Boot events (`track`), their pruning, and user, settings and display-order pages: these would add only easy members.
- Sessions, TOTP arithmetic, password hashing, HTTP, SQL and Docker themselves: library behaviour behind parameters.
- `with_builds`, release lookups on mirrors and the caches around them: network reads that feed the merged lists.
- The iPXE word cleaner: it strips "#" after testing for separator words, so no clean property holds of it.
